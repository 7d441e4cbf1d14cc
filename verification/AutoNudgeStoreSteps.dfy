/** The lock and the mirror, step by step. */
module AutoNudgeStoreSteps {
  import opened Options
  import opened AutoNudgeProtocol
  import opened AutoNudgeInvariant
  import opened AutoNudgeTasks
  import opened AutoNudgeSteps
  import opened AutoNudgeStore

  lemma CallsStore(s: State, l: Label)
    requires Inv(s) && Enabled(s, l)
    requires l.AddCall? || l.UpdateCall? || l.RemoveCall? || l.CancelCaller?
    ensures Store(Apply(s, l))
  {
    var r := Apply(s, l);
    match l
    case AddCall(args) =>
      var inner := Task(Inner, AddWait(args), false);
      SpawnQuiet(s, Spawn(s, inner), inner);
      SpawnCore(s, inner);
      SpawnQuiet(Spawn(s, inner), r, Task(Caller, Awaiting(s.next), false));
      QuietTrans(s, Spawn(s, inner), r);
      QuietStore(s, r);
    case UpdateCall(id, change) =>
      var inner := Task(Inner, UpdateWait(id, change), false);
      SpawnQuiet(s, Spawn(s, inner), inner);
      SpawnCore(s, inner);
      SpawnQuiet(Spawn(s, inner), r, Task(Caller, Awaiting(s.next), false));
      QuietTrans(s, Spawn(s, inner), r);
      QuietStore(s, r);
    case RemoveCall(id) =>
      SpawnQuiet(s, r, Task(Caller, RemoveWait(id, false), false));
      QuietStore(s, r);
    case CancelCaller(t) =>
      forall u ensures TaskQuiet(s, r, u) {}
      forall id ensures LoopQuiet(s, r, id) { UseCore(s, t, id); }
      QuietStore(s, r);
  }

  lemma NotifyStore(s: State, l: Label)
    requires Inv(s) && Enabled(s, l) && (l.NotifyTurn? || l.NotifyInput?)
    ensures Store(Apply(s, l))
  {
    var r := Apply(s, l);
    if l.hit.Some? {
      var id := l.hit.value;
      if id in s.firing {
        forall u ensures TaskQuiet(s, r, u) {}
        forall j ensures LoopQuiet(s, r, j) {}
        QuietStore(s, r);
      } else if l.NotifyInput? {
        CancelQuiet(s, id);
        QuietStore(s, r);
      } else if s.objs[id].active {
        ArmQuiet(s, id, s.objs[id].idle);
        QuietStore(s, r);
      }
    }
  }

  lemma AddBeginStore(s: State, l: Label)
    requires Inv(s) && Enabled(s, l) && l.AddBegin?
    ensures Store(Apply(s, l))
  {
    var t, id := l.t, l.id;
    UseCore(s, t, id);
    var r := if l.existing.Some? then RemoveSync(s, l.existing.value, Some(t)) else s;
    if l.existing.Some? { RemoveSyncCore(s, l.existing.value, t); }
    RemovalKeepsPcs(s, l.existing, t);
    var l0 := NewLoop(s.tasks[t].pc.args);
    EnterCore(r, id, l0);
    var a := r.(objs := r.objs[id := l0], reg := r.reg + {id});
    forall u | u in a.tasks ensures !WritePc(a.tasks[u].pc) { NobodyWrites(s, u); }
    SubmitStore(s, a, t, AddWrite(|s.snaps|, id));
  }

  lemma UpdateBeginStore(s: State, l: Label)
    requires Inv(s) && Enabled(s, l) && l.UpdateBegin?
    ensures Store(Apply(s, l))
  {
    var t := l.t;
    var id, change := s.tasks[t].pc.id, s.tasks[t].pc.change;
    UseCore(s, t, id);
    if id in s.reg {
      RearmInWindows(s);
      var a := s.(objs := s.objs[id := ApplyChange(s.objs[id], change)]);
      assert a.objs.Keys == s.objs.Keys;
      SameCore(s, a);
      forall u | u in a.tasks ensures !WritePc(a.tasks[u].pc) { NobodyWrites(s, u); }
      SubmitStore(s, a, t, UpdateWrite(|s.snaps|, id, change));
    } else {
      MoveQuiet(s, Apply(s, l), t);
      QuietStore(s, Apply(s, l));
    }
  }

  lemma RemoveBeginStore(s: State, l: Label)
    requires Inv(s) && Enabled(s, l) && l.RemoveBegin?
    ensures Store(Apply(s, l))
  {
    hide Core, Store, LockOk, MirrorOk, HolderOk, RemoveSync, Submit;
    var t := l.t;
    var target, nested := s.tasks[t].pc.target, s.tasks[t].pc.nested;
    if target in s.reg {
      RemoveSyncCore(s, target, t);
      RemovalKeepsPcs(s, Some(target), t);
      var a := RemoveSync(s, target, Some(t));
      forall u | u in a.tasks ensures !WritePc(a.tasks[u].pc) { NobodyWrites(s, u); }
      RemoverHolds(a, t, nested);
      SubmitStore(s, a, t, RemoveWrite(|s.snaps|, nested));
    } else {
      UseCore(s, t, if s.tasks[t].kind.Timer? then s.tasks[t].kind.loop else 0);
      MoveQuiet(s, Apply(s, l), t);
      QuietStore(s, Apply(s, l));
    }
  }

  lemma RemoverHolds(s: State, t: TaskId, nested: bool)
    requires t in s.tasks
    ensures HolderOk(Submit(s, t, RemoveWrite(|s.snaps|, nested)), t)
  {
  }

  lemma PersistBeginStore(s: State, l: Label)
    requires Inv(s) && Enabled(s, l) && l.PersistBegin?
    ensures Store(Apply(s, l))
  {
    forall u | u in s.tasks ensures !WritePc(s.tasks[u].pc) { NobodyWrites(s, u); }
    SubmitStore(s, s, l.t, PersistWrite(|s.snaps|));
  }

  lemma AddFinishStore(s: State, l: Label)
    requires Inv(s) && Enabled(s, l) && l.AddFinish?
    ensures Store(Apply(s, l))
  {
    var t := l.t;
    var id := s.tasks[t].pc.id;
    UseCore(s, t, id);
    var f := s.writes[s.tasks[t].pc.w].Failed?;
    var m := SetPc(Release(s), t, Finished(!f));
    HolderLeaves(s, m, t);
    if !f {
      AddFinishIs(s, l);
      EndInnerCore(s, t);
      NotedCore(m, id);
      forall u | u in m.tasks ensures !WritePc(m.tasks[u].pc) { UseStore(m, u, 0); }
      NotedStore(m, id);
      var n := Noted(m, id);
      ArmQuiet(n, id, s.objs[id].idle);
      QuietStore(n, ArmTimer(n, id, s.objs[id].idle, None));
    }
  }

  lemma EndInnerCore(s: State, t: TaskId)
    requires Core(s) && t in s.tasks && s.tasks[t].pc.AddWrite?
    ensures Core(SetPc(Release(s), t, Finished(true)))
  {
    UseCore(s, t, 0);
    ReleaseCore(s);
    RearmInWindows(s);
    forall u ensures u in s.tasks && s.tasks[u].kind.Timer? && s.tasks[u].pc.AtCap? ==> s.tasks[u].pc.inner != t {
      UseCore(s, u, 0);
    }
    MoveCore(Release(s), SetPc(Release(s), t, Finished(true)), t);
  }

  lemma AddFinishIs(s: State, l: Label)
    requires Core(s) && Enabled(s, l) && l.AddFinish? && !s.writes[s.tasks[l.t].pc.w].Failed?
    ensures
      var id := s.tasks[l.t].pc.id;
      Apply(s, l) == ArmTimer(Noted(SetPc(Release(s), l.t, Finished(true)), id), id, s.objs[id].idle, None)
  {
    var id := s.tasks[l.t].pc.id;
    UseCore(s, l.t, id);
    ArmThenEnd(Noted(Release(s), id), l.t, id, s.objs[id].idle, true);
  }

  lemma UpdateFinishStore(s: State, l: Label)
    requires Inv(s) && Enabled(s, l) && l.UpdateFinish?
    ensures Store(Apply(s, l))
  {
    hide Core, Store;
    var t := l.t;
    var id := s.tasks[t].pc.id;
    UseCore(s, t, id);
    var f := s.writes[s.tasks[t].pc.w].Failed?;
    if f || id in s.firing {
      HolderLeaves(s, Apply(s, l), t);
    } else {
      UpdateStopsStore(s, t);
      var m := SetPc(Release(CancelTimer(s, id, None)), t, Finished(true));
      UpdateRestarts(s, l);
      if s.objs[id].active {
        CancelCore(s, id);
        UpdateStopsCore(s, t);
        ArmQuiet(m, id, s.objs[id].idle);
        QuietStore(m, ArmTimer(m, id, s.objs[id].idle, None));
      }
    }
  }

  lemma UpdateStopsStore(s: State, t: TaskId)
    requires Inv(s) && t in s.tasks && s.tasks[t].pc.UpdateWrite? && Settled(s, s.tasks[t].pc.w)
    requires s.tasks[t].pc.id !in s.firing
    ensures Store(SetPc(Release(CancelTimer(s, s.tasks[t].pc.id, None)), t, Finished(true)))
  {
    var id := s.tasks[t].pc.id;
    UseCore(s, t, id);
    CancelQuiet(s, id);
    var c := CancelTimer(s, id, None);
    QuietStore(s, c);
    CancelCore(s, id);
    UseCore(c, t, id);
    HolderLeaves(c, SetPc(Release(c), t, Finished(true)), t);
  }

  lemma RemoveFinishStore(s: State, l: Label)
    requires Inv(s) && Enabled(s, l) && l.RemoveFinish?
    ensures Store(Apply(s, l))
  {
    HolderLeaves(s, Apply(s, l), l.t);
  }

  /** Closing the window of a fire whose task holds no lock. */
  lemma CloseQuiet(s: State, t: TaskId, id: LoopId, ok: bool)
    requires Core(s) && Store(s) && IsTimer(s, t, id) && id in s.objs && FirePc(s.tasks[t].pc) && !WritePc(s.tasks[t].pc)
    requires s.tasks[t].pc.PersistWait? ==> id !in s.reg || id in s.doubled
    ensures Store(CloseWindow(s, t, id, ok))
  {
    UseCore(s, t, id);
    CloseIs(s, t, id, ok);
    var c := Closed(s, t, id, ok);
    MoveQuiet(s, c, t);
    QuietStore(s, c);
    ClosedCore(s, t, id, ok);
    if id in s.rearm && s.objs[id].active && id in s.reg {
      ArmQuiet(c, id, s.objs[id].idle);
      QuietStore(c, ArmTimer(c, id, s.objs[id].idle, None));
    }
  }

  /** Re-arming once or twice after the window has closed. */
  lemma RearmStore(s: State, c: State, t: TaskId, id: LoopId, delay: int)
    requires Core(s) && IsTimer(s, t, id) && id in s.objs && FirePc(s.tasks[t].pc) && id in s.reg
    requires c == Closed(s, t, id, true) && Core(c) && Store(c)
    ensures t in ArmTimer(s, id, delay, Some(t)).tasks
    ensures Store(CloseWindow(ArmTimer(s, id, delay, Some(t)), t, id, true))
  {
    hide Core, Store, CloseWindow;
    UseCore(s, t, id);
    RearmThenCloses(s, t, id, delay, true);
    var a := ArmTimer(s, id, delay, Some(t));
    CloseIs(a, t, id, true);
    var b := ArmTimer(c, id, delay, None);
    ArmCore(c, id, delay);
    ArmQuiet(c, id, delay);
    QuietStore(c, b);
    if id in a.rearm && a.objs[id].active && id in a.reg {
      ArmQuiet(b, id, a.objs[id].idle);
      QuietStore(b, ArmTimer(b, id, a.objs[id].idle, None));
    }
  }

  lemma CallbackReturnsStore(s: State, l: Label)
    requires Inv(s) && Enabled(s, l) && l.CallbackReturns?
    ensures Store(Apply(s, l))
  {
    var t := l.t;
    var id := s.tasks[t].kind.loop;
    RearmInWindows(s);
    UseCore(s, t, id);
    match l.outcome
    case RaisedCancelled => CloseQuiet(s, t, id, false);
    case Undelivered =>
      if id !in s.reg || !s.objs[id].active {
        var r := s.(fails := s.fails - {id});
        SameCore(s, r);
        FailsStore(s, r);
        CloseQuiet(r, t, id, true);
      } else {
        UndeliveredStore(s, l);
      }
    case Delivered(now) => DeliveredStore(s, l);
  }

  lemma UndeliveredStore(s: State, l: Label)
    requires Inv(s) && Enabled(s, l) && l.CallbackReturns? && l.outcome.Undelivered?
    requires s.tasks[l.t].kind.loop in s.reg && s.objs[s.tasks[l.t].kind.loop].active
    ensures Store(Apply(s, l))
  {
    var t := l.t;
    var id := s.tasks[t].kind.loop;
    RearmInWindows(s);
    UseCore(s, t, id);
    var n := (if id in s.fails then s.fails[id] else 0) + 1;
    var r := s.(fails := s.fails[id := n]);
    SameCore(s, r);
    FailsStore(s, r);
    var c := Closed(r, t, id, true);
    MoveQuiet(r, c, t);
    QuietStore(r, c);
    ClosedCore(r, t, id, true);
    RearmStore(r, c, t, id, Backoff(n, s.objs[id].idle));
  }

  lemma FailsStore(s: State, r: State)
    requires Store(s) && r == s.(fails := r.fails)
    ensures Store(r)
  {
    forall u ensures TaskQuiet(s, r, u) {}
    forall j ensures LoopQuiet(s, r, j) {}
    QuietStore(s, r);
  }

  lemma DeliveredStore(s: State, l: Label)
    requires Inv(s) && Enabled(s, l) && l.CallbackReturns? && l.outcome.Delivered?
    ensures Store(Apply(s, l))
  {
    var t := l.t;
    var id := s.tasks[t].kind.loop;
    var r := Apply(s, l);
    UseCore(s, t, id);
    UseStore(s, if s.lock.Some? then s.lock.value else 0, 0);
    forall u ensures HolderOk(r, u) { UseStore(s, u, 0); }
    forall j ensures MirrorOk(r, j) { UseStore(s, 0, j); }
  }

  lemma PersistFinishStore(s: State, l: Label)
    requires Inv(s) && Enabled(s, l) && l.PersistFinish?
    ensures Store(Apply(s, l))
  {
    var t := l.t;
    var id := s.tasks[t].kind.loop;
    UseCore(s, t, id);
    ReleaseCore(s);
    var r := Release(s);
    var ok := !s.writes[s.tasks[t].pc.w].Failed?;
    var c := Closed(r, t, id, ok);
    HolderLeaves(s, c, t);
    ClosedCore(r, t, id, ok);
    if ok && IsChannelKey(s.objs[id].slot) && s.objs[id].active && id in s.reg {
      RearmStore(r, c, t, id, s.objs[id].idle);
    } else {
      CloseIs(r, t, id, ok);
      if id in s.rearm && s.objs[id].active && id in s.reg {
        ArmQuiet(c, id, s.objs[id].idle);
        QuietStore(c, ArmTimer(c, id, s.objs[id].idle, None));
      }
    }
  }

  lemma TimerWakeStore(s: State, l: Label)
    requires Inv(s) && Enabled(s, l) && l.TimerWake?
    ensures Store(Apply(s, l))
  {
    var t := l.t;
    WakerIsRegistered(s, t);
    if l.env.Run? && AtCapNow(s.objs[s.tasks[t].kind.loop]) {
      CapStartsQuiet(s, l);
    } else {
      MoveQuiet(s, Apply(s, l), t);
    }
    QuietStore(s, Apply(s, l));
  }

  lemma CapStartsQuiet(s: State, l: Label)
    requires Core(s) && Enabled(s, l) && l.TimerWake? && l.env.Run? && AtCapNow(s.objs[s.tasks[l.t].kind.loop])
    ensures Quiet(s, Apply(s, l))
  {
    var t := l.t;
    var inner := Task(Inner, UpdateWait(s.tasks[t].kind.loop, DEACTIVATE), false);
    var p := Spawn(s, inner);
    SpawnQuiet(s, p, inner);
    SpawnCore(s, inner);
    UseCore(s, t, 0);
    MoveQuiet(p, SetPc(p, t, AtCap(s.next)), t);
    QuietTrans(s, p, SetPc(p, t, AtCap(s.next)));
  }

  lemma MovesStore(s: State, l: Label)
    requires Inv(s) && Enabled(s, l) && (l.InnerDone? || l.CallbackRemoves?)
    ensures Store(Apply(s, l))
  {
    UseCore(s, l.t, 0);
    MoveQuiet(s, Apply(s, l), l.t);
    QuietStore(s, Apply(s, l));
  }

  lemma WriteFailsStore(s: State, l: Label)
    requires Inv(s) && Enabled(s, l) && l.WriteFails?
    ensures Store(Apply(s, l))
  {
    var r := Apply(s, l);
    UseStore(s, if s.lock.Some? then s.lock.value else 0, 0);
    forall u ensures HolderOk(r, u) { UseStore(s, u, 0); }
    forall j ensures MirrorOk(r, j) { UseStore(s, 0, j); }
  }

  lemma WriteLandsStore(s: State, l: Label)
    requires Inv(s) && Enabled(s, l) && l.WriteLands?
    ensures Store(Apply(s, l))
  {
    var r := Apply(s, l);
    UseStore(s, if s.lock.Some? then s.lock.value else 0, 0);
    forall u ensures HolderOk(r, u) { UseStore(s, u, 0); }
    forall j ensures MirrorOk(r, j) { UseStore(s, 0, j); }
  }

  lemma DeliverCancelStore(s: State, l: Label)
    requires Inv(s) && Enabled(s, l) && l.DeliverCancel?
    ensures Store(Apply(s, l))
  {
    hide Core, Store, CloseWindow;
    var t := l.t;
    if s.tasks[t].pc.PersistWait? {
      UseCore(s, t, s.tasks[t].kind.loop);
      CloseQuiet(s, t, s.tasks[t].kind.loop, false);
    } else if s.tasks[t].pc.PersistWrite? {
      RecordCancelledStore(s, l);
    } else if s.tasks[t].pc.RemoveWrite? {
      DrainStore(s, l);
    } else if s.tasks[t].pc.RemoveDrain? {
      DrainEndsStore(s, l);
    } else {
      DeliverInPlaceStore(s, l);
    }
  }

  /** The post-fire write of a doubled loop is cancelled: the lock is given back at once. */
  lemma RecordCancelledStore(s: State, l: Label)
    requires Inv(s) && Enabled(s, l) && l.DeliverCancel? && s.tasks[l.t].pc.PersistWrite?
    ensures Store(Apply(s, l))
  {
    var t := l.t;
    var id := s.tasks[t].kind.loop;
    UseCore(s, t, id);
    ReleaseCore(s);
    var r := Release(s);
    var c := Closed(r, t, id, false);
    HolderLeaves(s, c, t);
    ClosedCore(r, t, id, false);
    CloseIs(r, t, id, false);
    if id in s.rearm && s.objs[id].active && id in s.reg {
      ArmQuiet(c, id, s.objs[id].idle);
      QuietStore(c, ArmTimer(c, id, s.objs[id].idle, None));
    }
  }

  /** What a task that waits for the post-fire record holds is given up when it is cancelled. */
  function LetGo(s: State, t: TaskId): State
    requires t in s.tasks
  {
    if s.tasks[t].pc.PersistWrite? then Release(s) else s
  }

  lemma DeliverClosesIs(s: State, l: Label)
    requires Enabled(s, l) && l.DeliverCancel? && (s.tasks[l.t].pc.PersistWait? || s.tasks[l.t].pc.PersistWrite?)
    ensures LoopKnown(s, l.t) && Apply(s, l) == CloseWindow(LetGo(s, l.t), l.t, s.tasks[l.t].kind.loop, false)
  {
  }

  /** Of the tasks parked on a write, only a caller of remove() and the post-fire write of a doubled loop
      can be cancelled. */
  lemma CancelledHoldsNothing(s: State, t: TaskId)
    requires Inv(s) && t in s.tasks && s.tasks[t].cancel
    requires !s.tasks[t].pc.RemoveWrite? && !s.tasks[t].pc.RemoveDrain? && !s.tasks[t].pc.PersistWrite?
    ensures !WritePc(s.tasks[t].pc)
  {
    UseStore(s, t, 0);
    UseCore(s, t, 0);
  }

  function DeliveredPc(pc: Pc): Pc {
    if pc.InCallback? || (pc.RemoveWait? && pc.nested) then InCallback else Finished(false)
  }

  lemma DeliverInPlaceIs(s: State, l: Label)
    requires Enabled(s, l) && l.DeliverCancel? && !WritePc(s.tasks[l.t].pc) && !s.tasks[l.t].pc.PersistWait?
    ensures Apply(s, l) == SetPc(s, l.t, DeliveredPc(s.tasks[l.t].pc))
  {
  }

  lemma DeliverInPlaceStore(s: State, l: Label)
    requires Inv(s) && Enabled(s, l) && l.DeliverCancel? && !s.tasks[l.t].pc.PersistWait? && !s.tasks[l.t].pc.PersistWrite?
    requires !s.tasks[l.t].pc.RemoveWrite? && !s.tasks[l.t].pc.RemoveDrain?
    ensures Store(Apply(s, l))
  {
    CancelledHoldsNothing(s, l.t);
    DeliverInPlaceIs(s, l);
    var r := SetPc(s, l.t, DeliveredPc(s.tasks[l.t].pc));
    MoveQuiet(s, r, l.t);
    QuietStore(s, r);
  }

  lemma DrainStore(s: State, l: Label)
    requires Inv(s) && Enabled(s, l) && l.DeliverCancel? && s.tasks[l.t].pc.RemoveWrite?
    ensures Store(Apply(s, l))
  {
    var r := Apply(s, l);
    UseStore(s, l.t, 0);
    forall u ensures HolderOk(r, u) { UseStore(s, u, 0); }
    forall j ensures MirrorOk(r, j) { UseStore(s, 0, j); }
  }

  /** A cancellation during a drain ends the remove() and gives the lock back. */
  lemma DrainEndsIs(s: State, l: Label)
    requires Inv(s) && Enabled(s, l) && l.DeliverCancel? && s.tasks[l.t].pc.RemoveDrain?
    ensures s.lock == Some(l.t)
    ensures Apply(s, l) == SetPc(Release(s), l.t, if s.tasks[l.t].pc.nested then InCallback else Finished(false))
  {
    UseStore(s, l.t, 0);
  }

  lemma DrainEndsStore(s: State, l: Label)
    requires Inv(s) && Enabled(s, l) && l.DeliverCancel? && s.tasks[l.t].pc.RemoveDrain?
    ensures Store(Apply(s, l))
  {
    hide Core, Store;
    DrainEndsIs(s, l);
    HolderLeaves(s, Apply(s, l), l.t);
  }

  lemma StoreStep(s: State, l: Label)
    requires Inv(s) && Enabled(s, l)
    ensures Store(Apply(s, l))
  {
    hide Core, Store, Apply, Enabled;
    match l
    case AddCall(_) => CallsStore(s, l);
    case UpdateCall(_, _) => CallsStore(s, l);
    case RemoveCall(_) => CallsStore(s, l);
    case CancelCaller(_) => CallsStore(s, l);
    case NotifyTurn(_, _) => NotifyStore(s, l);
    case NotifyInput(_, _) => NotifyStore(s, l);
    case AddBegin(_, _, _) => AddBeginStore(s, l);
    case AddFinish(_) => AddFinishStore(s, l);
    case UpdateBegin(_) => UpdateBeginStore(s, l);
    case UpdateFinish(_) => UpdateFinishStore(s, l);
    case RemoveBegin(_) => RemoveBeginStore(s, l);
    case RemoveFinish(_) => RemoveFinishStore(s, l);
    case PersistBegin(_) => PersistBeginStore(s, l);
    case PersistFinish(_) => PersistFinishStore(s, l);
    case WriteLands(_) => WriteLandsStore(s, l);
    case WriteFails(_) => WriteFailsStore(s, l);
    case TimerWake(_, _) => TimerWakeStore(s, l);
    case CallbackRemoves(_, _) => MovesStore(s, l);
    case CallbackReturns(_, _) => CallbackReturnsStore(s, l);
    case InnerDone(_) => MovesStore(s, l);
    case DeliverCancel(_) => DeliverCancelStore(s, l);
  }
}

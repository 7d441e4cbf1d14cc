/** Every step keeps the task and timer tables in order: removal, persistence and the timer. */
module AutoNudgeSteps {
  import opened Options
  import opened AutoNudgeProtocol
  import opened AutoNudgeInvariant
  import opened AutoNudgeTasks

  lemma RemoveBeginCore(s: State, l: Label)
    requires Core(s) && Enabled(s, l) && l.RemoveBegin?
    ensures Core(Apply(s, l))
  {
    hide RemoveSync;
    var t := l.t;
    hide Core;
    var target, nested := s.tasks[t].pc.target, s.tasks[t].pc.nested;
    UseCore(s, t, target);
    if target in s.reg {
      RemoveSyncCore(s, target, t);
      var r := RemoveSync(s, target, Some(t));
      RemovalKeepsRunner(s, target, t);
      UseCore(r, t, target);
      RearmInWindows(r);
      var m := SetPc(r, t, RemoveWrite(|s.snaps|, nested));
      MoveCore(r, m, t);
      RearmInWindows(m);
      SameCore(m, Apply(s, l));
    } else {
      RemoveReturnsCore(s, t, nested, true);
    }
  }

  lemma RemovalKeepsRunner(s: State, id: LoopId, t: TaskId)
    requires t in s.tasks
    ensures var r := RemoveSync(s, id, Some(t)); t in r.tasks && r.tasks[t] == s.tasks[t]
  {
  }

  lemma RemoveReturnsCore(s: State, t: TaskId, nested: bool, ok: bool)
    requires Core(s) && t in s.tasks
    requires (s.tasks[t].pc.RemoveWait? || s.tasks[t].pc.RemoveWrite? || s.tasks[t].pc.RemoveDrain?) && s.tasks[t].pc.nested == nested
    ensures Core(RemoveReturns(s, t, nested, ok))
  {
    UseCore(s, t, if s.tasks[t].kind.Timer? then s.tasks[t].kind.loop else 0);
    RearmInWindows(s);
    var r := RemoveReturns(s, t, nested, ok);
    MoveCore(s, r, t);
  }

  lemma ReleaseCore(s: State)
    requires Core(s)
    ensures Core(Release(s))
  {
    RearmInWindows(s);
    SameCore(s, Release(s));
  }

  lemma WritesCore(s: State, l: Label)
    requires Core(s) && Enabled(s, l) && (l.WriteLands? || l.WriteFails?)
    ensures Core(Apply(s, l))
  {
    RearmInWindows(s);
    SameCore(s, Apply(s, l));
  }

  lemma RemoveFinishCore(s: State, l: Label)
    requires Core(s) && Enabled(s, l) && l.RemoveFinish?
    ensures Core(Apply(s, l))
  {
    ReleaseCore(s);
    var pc := s.tasks[l.t].pc;
    RemoveReturnsCore(Release(s), l.t, pc.nested, pc.RemoveWrite? && s.writes[pc.w].Landed?);
  }

  lemma PersistBeginCore(s: State, l: Label)
    requires Core(s) && Enabled(s, l) && l.PersistBegin?
    ensures Core(Apply(s, l))
  {
    var t := l.t;
    UseCore(s, t, 0);
    RearmInWindows(s);
    var m := SetPc(s, t, PersistWrite(|s.snaps|));
    MoveCore(s, m, t);
    SameCore(m, Apply(s, l));
  }

  lemma PersistFinishCore(s: State, l: Label)
    requires Core(s) && Enabled(s, l) && l.PersistFinish?
    ensures Core(Apply(s, l))
  {
    var t := l.t;
    var id := s.tasks[t].kind.loop;
    ReleaseCore(s);
    var r := Release(s);
    if !s.writes[s.tasks[t].pc.w].Failed? && IsChannelKey(s.objs[id].slot) && s.objs[id].active && id in s.reg {
      RearmCloseCore(r, t, id, s.objs[id].idle, true);
    } else {
      CloseCore(r, t, id, !s.writes[s.tasks[t].pc.w].Failed?);
    }
  }

  lemma CallbackReturnsCore(s: State, l: Label)
    requires Core(s) && Enabled(s, l) && l.CallbackReturns?
    ensures Core(Apply(s, l))
  {
    var t := l.t;
    var id := s.tasks[t].kind.loop;
    RearmInWindows(s);
    match l.outcome
    case RaisedCancelled => CloseCore(s, t, id, false);
    case Undelivered =>
      if id !in s.reg || !s.objs[id].active {
        var r := s.(fails := s.fails - {id});
        SameCore(s, r);
        CloseCore(r, t, id, true);
      } else {
        var n := (if id in s.fails then s.fails[id] else 0) + 1;
        var r := s.(fails := s.fails[id := n]);
        SameCore(s, r);
        RearmCloseCore(r, t, id, Backoff(n, s.objs[id].idle), true);
      }
    case Delivered(now) =>
      UseCore(s, t, id);
      var m := SetPc(s, t, PersistWait);
      MoveCore(s, m, t);
      var r := Apply(s, l);
      assert r.objs.Keys == s.objs.Keys;
      SameCore(m, r);
  }

  lemma CallbackRemovesCore(s: State, l: Label)
    requires Core(s) && Enabled(s, l) && l.CallbackRemoves?
    ensures Core(Apply(s, l))
  {
    var t := l.t;
    var id := s.tasks[t].kind.loop;
    UseCore(s, t, id);
    RearmInWindows(s);
    MoveCore(s, Apply(s, l), t);
  }

  /** A timer that wakes is the live one of a registered loop with, unless it is doubled, no window open. */
  lemma WakerIsRegistered(s: State, t: TaskId)
    requires Core(s) && t in s.tasks && s.tasks[t].kind.Timer? && s.tasks[t].pc.Sleeping? && !s.tasks[t].cancel
    ensures var id := s.tasks[t].kind.loop;
      id in s.timers && s.timers[id] == t && id in s.reg && (id in s.firing ==> id in s.doubled)
  {
    var id := s.tasks[t].kind.loop;
    UseCore(s, t, id);
    if id in s.firing {
      UseCore(s, s.firing[id], id);
    }
  }

  lemma TimerWakeCore(s: State, l: Label)
    requires Core(s) && Enabled(s, l) && l.TimerWake?
    ensures Core(Apply(s, l))
  {
    hide Core, AtCapNow;
    var t := l.t;
    var id := s.tasks[t].kind.loop;
    if l.env.Run? && AtCapNow(s.objs[id]) {
      WakeAtCapCore(s, l);
    } else {
      UseCore(s, t, id);
      RearmInWindows(s);
      WakerIsRegistered(s, t);
      MoveCore(s, Apply(s, l), t);
    }
  }

  lemma WakeAtCapCore(s: State, l: Label)
    requires Core(s) && Enabled(s, l) && l.TimerWake? && l.env.Run? && AtCapNow(s.objs[s.tasks[l.t].kind.loop])
    ensures Core(Apply(s, l))
  {
    hide Core, AtCapNow;
    var t := l.t;
    var id := s.tasks[t].kind.loop;
    UseCore(s, t, id);
    WakerIsRegistered(s, t);
    var inner := Task(Inner, UpdateWait(id, DEACTIVATE), false);
    SpawnCore(s, inner);
    var p := Spawn(s, inner);
    RearmInWindows(p);
    assert p.tasks[t] == s.tasks[t];
    MoveCore(p, Apply(s, l), t);
  }

  lemma InnerDoneCore(s: State, l: Label)
    requires Core(s) && Enabled(s, l) && l.InnerDone?
    ensures Core(Apply(s, l))
  {
    UseCore(s, l.t, if s.tasks[l.t].kind.Timer? then s.tasks[l.t].kind.loop else 0);
    RearmInWindows(s);
    MoveCore(s, Apply(s, l), l.t);
  }

  lemma DeliverCancelCore(s: State, l: Label)
    requires Core(s) && Enabled(s, l) && l.DeliverCancel? && HolderOk(s, l.t)
    ensures Core(Apply(s, l))
  {
    var t := l.t;
    match s.tasks[t].pc
    case InCallback => DeliverInPlaceCore(s, l);
    case PersistWait => CloseCore(s, t, s.tasks[t].kind.loop, false);
    case PersistWrite(_) =>
      ReleaseCore(s);
      CloseCore(Release(s), t, s.tasks[t].kind.loop, false);
    case RemoveWait(_, nested) => RemoveReturnsCore(s, t, nested, false);
    case RemoveDrain(_, nested) =>
      ReleaseCore(s);
      RemoveReturnsCore(Release(s), t, nested, false);
    case _ => DeliverInPlaceCore(s, l);
  }

  /** The cancellation moves only the task itself. */
  lemma DeliverInPlaceCore(s: State, l: Label)
    requires Core(s) && Enabled(s, l) && l.DeliverCancel? && HolderOk(s, l.t)
    requires !s.tasks[l.t].pc.PersistWait? && !s.tasks[l.t].pc.PersistWrite? && !s.tasks[l.t].pc.RemoveWait? && !s.tasks[l.t].pc.RemoveDrain?
    ensures Core(Apply(s, l))
  {
    var t := l.t;
    UseCore(s, t, if s.tasks[t].kind.Timer? then s.tasks[t].kind.loop else 0);
    RearmInWindows(s);
    MoveCore(s, Apply(s, l), t);
  }

  lemma CoreStep(s: State, l: Label)
    requires Inv(s) && Enabled(s, l)
    ensures Core(Apply(s, l))
  {
    hide Core, Apply, Enabled;
    match l
    case AddCall(_) => CallsCore(s, l);
    case UpdateCall(_, _) => CallsCore(s, l);
    case RemoveCall(_) => CallsCore(s, l);
    case CancelCaller(_) => CallsCore(s, l);
    case NotifyTurn(_, _) => NotifyCore(s, l);
    case NotifyInput(_, _) => NotifyCore(s, l);
    case AddBegin(_, _, _) => AddBeginCore(s, l);
    case AddFinish(_) => AddFinishCore(s, l);
    case UpdateBegin(_) => UpdateBeginCore(s, l);
    case UpdateFinish(_) => UpdateFinishCore(s, l);
    case RemoveBegin(_) => RemoveBeginCore(s, l);
    case RemoveFinish(_) => RemoveFinishCore(s, l);
    case PersistBegin(_) => PersistBeginCore(s, l);
    case PersistFinish(_) => PersistFinishCore(s, l);
    case WriteLands(_) => WritesCore(s, l);
    case WriteFails(_) => WritesCore(s, l);
    case TimerWake(_, _) => TimerWakeCore(s, l);
    case CallbackRemoves(_, _) => CallbackRemovesCore(s, l);
    case CallbackReturns(_, _) => CallbackReturnsCore(s, l);
    case InnerDone(_) => InnerDoneCore(s, l);
    case DeliverCancel(_) =>
      UseStore(s, l.t, 0);
      DeliverCancelCore(s, l);
  }
}

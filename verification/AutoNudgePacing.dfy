/** Pausing, cycle accounting and re-arming over whole runs. */
module AutoNudgePacing {
  import opened Options
  import opened AutoNudgeProtocol
  import opened AutoNudgeInvariant
  import opened AutoNudgeTasks
  import opened AutoNudgeSteps
  import opened AutoNudgeStoreSteps
  import opened AutoNudgeFacts
  import opened AutoNudgeTheorems

  // ----- pause safety -----

  /** The loop is gone or switched off, and no timer of it can wake into a fire. */
  ghost predicate Paused(s: State, id: LoopId) {
    && id in s.objs
    && (id in s.reg ==> !s.objs[id].active)
    && (id in s.timers ==> s.timers[id] in s.tasks && !s.tasks[s.timers[id]].pc.Sleeping?)
  }

  lemma PausedNeverFires(s: State, l: Label, id: LoopId)
    requires Inv(s) && Paused(s, id) && Enabled(s, l)
    ensures !StartsFire(s, l, id)
  {
    if l.TimerWake? && s.tasks[l.t].kind.loop == id {
      WakerIsRegistered(s, l.t);
    }
  }

  lemma PausedStays(s: State, l: Label, id: LoopId)
    requires Inv(s) && Paused(s, id) && Enabled(s, l) && !Reactivates(s, l, id)
    requires Inv(Apply(s, l))
    ensures Paused(Apply(s, l), id)
  {
    var r := Apply(s, l);
    StepMoves(s, l, id, if id in s.timers then s.timers[id] else 0);
    UseCore(r, 0, id);
    UseCore(s, 0, id);
    if id in r.reg && r.objs[id].active {
      SwitchesOn(s, l, id);
    }
  }

  /** An update(active=False) of `id` returns, its write on disk. */
  ghost predicate PauseReturns(s: State, l: Label, id: LoopId)
    requires Enabled(s, l)
  {
    && l.UpdateFinish? && s.tasks[l.t].pc.id == id && s.tasks[l.t].pc.change.active == Some(false)
    && s.writes[s.tasks[l.t].pc.w].Landed?
  }

  /** A timer of the loop sleeps beside an open fire window of it. */
  predicate AsleepBeside(s: State, id: LoopId) {
    id in s.firing && id in s.timers && s.timers[id] in s.tasks && s.tasks[s.timers[id]].pc.Sleeping?
  }

  /** Only a doubled loop has one. */
  lemma OnlyDoubledSleepBeside(s: State, id: LoopId)
    requires Core(s) && AsleepBeside(s, id)
    ensures id in s.doubled
  {
    UseCore(s, s.firing[id], id);
    UseCore(s, s.timers[id], id);
  }

  /** A deactivating update that completes with its write on disk leaves the loop paused, even when a fire
      window is open at that moment, exactly when no timer sleeps beside that window. */
  lemma UpdatePausesIff(s: State, l: Label, id: LoopId)
    requires Inv(s) && Enabled(s, l) && PauseReturns(s, l, id)
    ensures Paused(Apply(s, l), id) <==> !AsleepBeside(s, id)
  {
    UseStore(s, l.t, id);
    UseCore(s, l.t, id);
    if id in s.firing {
      if id in s.timers { UseCore(s, s.timers[id], id); }
      assert Apply(s, l) == SetPc(Release(s), l.t, Finished(true));
    } else {
      PausedLoopHasNoTimer(s, l, id);
    }
  }

  /** Otherwise that timer can wake into a fire in the very next step, unless the loop is at its cap. */
  lemma UnpausedFires(s: State, l: Label, id: LoopId)
    requires Inv(s) && Enabled(s, l) && PauseReturns(s, l, id) && AsleepBeside(s, id)
    ensures var r := Apply(s, l);
      && id in s.timers && id in r.objs && !r.objs[id].active
      && Enabled(r, TimerWake(s.timers[id], Run(true)))
      && (StartsFire(r, TimerWake(s.timers[id], Run(true)), id) <==> !AtCapNow(r.objs[id]))
  {
    UseStore(s, l.t, id);
    UseCore(s, l.t, id);
    UseCore(s, s.timers[id], id);
    assert Apply(s, l) == SetPc(Release(s), l.t, Finished(true));
  }

  /** Pause safety: after update(active=False) has returned, with no timer asleep beside an open window, no fire
      of the loop starts until an update that switches it on takes effect. */
  lemma {:induction false} PauseSafety(ss: seq<State>, ls: seq<Label>, id: LoopId, i: nat, k: nat)
    requires IsRun(ss, ls) && i < k < |ls|
    requires Enabled(ss[i], ls[i]) && PauseReturns(ss[i], ls[i], id) && !AsleepBeside(ss[i], id)
    requires forall j :: i < j < k ==> Enabled(ss[j], ls[j]) && !Reactivates(ss[j], ls[j], id)
    ensures Paused(ss[k], id)
    ensures Enabled(ss[k], ls[k]) && !StartsFire(ss[k], ls[k], id)
    decreases k
  {
    hide Core, Store, Inv, Paused, StartsFire;
    Reachable(ss, ls, k);
    Reachable(ss, ls, k - 1);
    StepOf(ss, ls, k - 1);
    StepOf(ss, ls, k);
    if k == i + 1 {
      UpdatePausesIff(ss[i], ls[i], id);
    } else {
      PauseSafety(ss, ls, id, i, k - 1);
      PausedStays(ss[k - 1], ls[k - 1], id);
    }
    PausedNeverFires(ss[k], ls[k], id);
  }

  // ----- cycle accounting -----

  /** How many fires of `id` were delivered in the steps `i..k`. */
  ghost function Deliveries(ss: seq<State>, ls: seq<Label>, id: LoopId, i: nat, k: nat): nat
    requires IsRun(ss, ls) && i <= k <= |ls|
    decreases k
  {
    if k == i then 0
    else
      StepOf(ss, ls, k - 1);
      Deliveries(ss, ls, id, i, k - 1) + (if Delivers(ss[k - 1], ls[k - 1], id) then 1 else 0)
  }

  /** The cycle counter counts delivered fires and nothing else. */
  lemma {:induction false} CyclesCountDeliveries(ss: seq<State>, ls: seq<Label>, id: LoopId, i: nat, k: nat)
    requires IsRun(ss, ls) && i <= k <= |ls| && id in ss[i].objs
    ensures id in ss[k].objs && ss[k].objs[id].cycles == ss[i].objs[id].cycles + Deliveries(ss, ls, id, i, k)
    decreases k
  {
    if k > i {
      CyclesCountDeliveries(ss, ls, id, i, k - 1);
      Reachable(ss, ls, k - 1);
      StepOf(ss, ls, k - 1);
      StepMoves(ss[k - 1], ls[k - 1], id, 0);
    }
  }

  /** An update of `id` takes effect that leaves less room than before (0 stands for no cap). */
  ghost predicate LowersCap(s: State, l: Label, id: LoopId)
    requires Enabled(s, l)
  {
    && Updates(s, l, id) && id in s.objs
    && var m := ApplyChange(s.objs[id], s.tasks[l.t].pc.change).maxCycles;
       m != 0 && (s.objs[id].maxCycles == 0 || m < s.objs[id].maxCycles)
  }

  /** The callback of a fire is still to report. */
  predicate Undecided(pc: Pc) {
    FirePc(pc) && !pc.PersistWait? && !pc.PersistWrite?
  }

  ghost predicate WithinCap(s: State, id: LoopId) {
    id in s.objs && s.objs[id].maxCycles != 0 ==>
      && s.objs[id].cycles <= s.objs[id].maxCycles
      && (id in s.firing && s.firing[id] in s.tasks && Undecided(s.tasks[s.firing[id]].pc) ==>
        s.objs[id].cycles < s.objs[id].maxCycles)
  }

  /** The task whose code a step runs, if any. */
  function Actor(l: Label): Option<TaskId> {
    match l
    case AddBegin(t, _, _) => Some(t)
    case AddFinish(t) => Some(t)
    case UpdateBegin(t) => Some(t)
    case UpdateFinish(t) => Some(t)
    case RemoveBegin(t) => Some(t)
    case RemoveFinish(t) => Some(t)
    case PersistBegin(t) => Some(t)
    case PersistFinish(t) => Some(t)
    case TimerWake(t, _) => Some(t)
    case CallbackRemoves(t, _) => Some(t)
    case CallbackReturns(t, _) => Some(t)
    case InnerDone(t) => Some(t)
    case DeliverCancel(t) => Some(t)
    case _ => None
  }

  /** Task `u` stays where it is; if it is new, it is not inside a fire window. */
  ghost predicate KeepsPc(s: State, r: State, u: TaskId) {
    if u in s.tasks then u in r.tasks && r.tasks[u].pc == s.tasks[u].pc && r.tasks[u].kind == s.tasks[u].kind
    else u in r.tasks ==> !FirePc(r.tasks[u].pc)
  }

  lemma CancelKeepsPc(s: State, id: LoopId, cur: Option<TaskId>, u: TaskId)
    ensures KeepsPc(s, CancelTimer(s, id, cur), u)
  {
  }

  lemma ArmKeepsPc(s: State, id: LoopId, delay: int, cur: Option<TaskId>, u: TaskId)
    requires u in s.tasks ==> u < s.next
    ensures KeepsPc(s, ArmTimer(s, id, delay, cur), u) && (u in s.tasks ==> u < ArmTimer(s, id, delay, cur).next)
  {
  }

  lemma CloseKeepsPc(s: State, t: TaskId, id: LoopId, ok: bool, u: TaskId)
    requires t in s.tasks && id in s.objs && u != t && (u in s.tasks ==> u < s.next)
    ensures KeepsPc(s, CloseWindow(s, t, id, ok), u)
  {
    var d := s.(firing := s.firing - {id}, rearm := s.rearm - {id});
    ArmKeepsPc(d, id, s.objs[id].idle, Some(t), u);
  }

  lemma RearmCloseKeepsPc(s: State, t: TaskId, id: LoopId, delay: int, u: TaskId)
    requires t in s.tasks && t < s.next && id in s.objs && u != t && (u in s.tasks ==> u < s.next)
    ensures t in ArmTimer(s, id, delay, Some(t)).tasks
    ensures KeepsPc(s, CloseWindow(ArmTimer(s, id, delay, Some(t)), t, id, true), u)
  {
    ArmKeepsPc(s, id, delay, Some(t), u);
    CloseKeepsPc(ArmTimer(s, id, delay, Some(t)), t, id, true, u);
  }

  lemma FireEndsKeepPc(s: State, l: Label, u: TaskId)
    requires Inv(s) && Enabled(s, l) && Actor(l) != Some(u) && (l.PersistFinish? || l.CallbackReturns? || l.DeliverCancel?)
    ensures KeepsPc(s, Apply(s, l), u)
  {
    hide Core, Store, CloseWindow, ArmTimer;
    UseCore(s, u, 0);
    UseCore(s, l.t, 0);
    if l.PersistFinish? {
      var id := s.tasks[l.t].kind.loop;
      RearmCloseKeepsPc(Release(s), l.t, id, s.objs[id].idle, u);
      CloseKeepsPc(Release(s), l.t, id, !s.writes[s.tasks[l.t].pc.w].Failed?, u);
    } else if l.CallbackReturns? {
      CallbackKeepsPc(s, l, u);
    } else if s.tasks[l.t].pc.PersistWait? || s.tasks[l.t].pc.PersistWrite? {
      DeliverClosesIs(s, l);
      CloseKeepsPc(LetGo(s, l.t), l.t, s.tasks[l.t].kind.loop, false, u);
    } else {
      DeliverKeepsPc(s, l, u);
    }
  }

  lemma DeliverKeepsPc(s: State, l: Label, u: TaskId)
    requires Inv(s) && Enabled(s, l) && l.DeliverCancel? && l.t != u && !s.tasks[l.t].pc.PersistWait? && !s.tasks[l.t].pc.PersistWrite?
    ensures KeepsPc(s, Apply(s, l), u)
  {
    hide Core, Store, CloseWindow, ArmTimer;
    UseCore(s, l.t, 0);
    if s.tasks[l.t].pc.RemoveWrite? {
      assert Apply(s, l) == SetPc(s, l.t, RemoveDrain(s.tasks[l.t].pc.w, s.tasks[l.t].pc.nested));
    } else if s.tasks[l.t].pc.RemoveDrain? {
      DrainEndsIs(s, l);
    } else {
      CancelledHoldsNothing(s, l.t);
      DeliverInPlaceIs(s, l);
    }
  }

  lemma CallbackKeepsPc(s: State, l: Label, u: TaskId)
    requires Core(s) && Enabled(s, l) && Actor(l) != Some(u) && l.CallbackReturns?
    ensures KeepsPc(s, Apply(s, l), u)
  {
    if l.outcome.Undelivered? {
      UndeliveredKeepsPc(s, l, u);
    } else {
      hide CloseWindow, ArmTimer, Backoff;
      UseCore(s, u, 0);
      UseCore(s, l.t, 0);
      if l.outcome.RaisedCancelled? { CloseKeepsPc(s, l.t, s.tasks[l.t].kind.loop, false, u); }
    }
  }

  lemma UndeliveredKeepsPc(s: State, l: Label, u: TaskId)
    requires Core(s) && Enabled(s, l) && Actor(l) != Some(u) && l.CallbackReturns? && l.outcome.Undelivered?
    ensures KeepsPc(s, Apply(s, l), u)
  {
    hide CloseWindow, ArmTimer, Backoff, Core, Apply, Enabled;
    CallbackIs(s, l);
    UseCore(s, u, 0);
    UseCore(s, l.t, 0);
    var id := s.tasks[l.t].kind.loop;
    if id !in s.reg || !s.objs[id].active {
      CloseKeepsPc(s.(fails := s.fails - {id}), l.t, id, true, u);
    } else {
      var n := (if id in s.fails then s.fails[id] else 0) + 1;
      RearmCloseKeepsPc(s.(fails := s.fails[id := n]), l.t, id, Backoff(n, s.objs[id].idle), u);
    }
  }

  lemma UpdateFinishKeepsPc(s: State, l: Label, u: TaskId)
    requires Inv(s) && Enabled(s, l) && l.UpdateFinish? && l.t != u
    ensures KeepsPc(s, Apply(s, l), u)
  {
    UseCore(s, u, 0);
    if !s.writes[s.tasks[l.t].pc.w].Failed? && s.tasks[l.t].pc.id !in s.firing {
      UpdateRestarts(s, l);
      var id := s.tasks[l.t].pc.id;
      CancelKeepsPc(s, id, None, u);
      var m := SetPc(Release(CancelTimer(s, id, None)), l.t, Finished(true));
      ArmKeepsPc(m, id, s.objs[id].idle, None, u);
    }
  }

  lemma BeginsKeepPc(s: State, l: Label, u: TaskId)
    requires Inv(s) && Enabled(s, l) && Actor(l) != Some(u) && (l.AddBegin? || l.RemoveBegin?)
    ensures KeepsPc(s, Apply(s, l), u)
  {
    hide Core, Store, RemoveSync;
    if l.RemoveBegin? {
      RemovalKeepsPcs(s, Some(s.tasks[l.t].pc.target), l.t);
    } else {
      RemovalKeepsPcs(s, l.existing, l.t);
    }
  }

  lemma UpdateBeginKeepsPc(s: State, l: Label, u: TaskId)
    requires Inv(s) && Enabled(s, l) && l.UpdateBegin? && l.t != u
    ensures KeepsPc(s, Apply(s, l), u)
  {
  }

  lemma AddFinishKeepsPc(s: State, l: Label, u: TaskId)
    requires Inv(s) && Enabled(s, l) && l.AddFinish? && l.t != u
    ensures KeepsPc(s, Apply(s, l), u)
  {
    hide Core, Store, TimerOk, LoopOk, HolderOk, MirrorOk, LockOk, ArmTimer, CancelTimer;
    UseCore(s, u, 0);
    if !s.writes[s.tasks[l.t].pc.w].Failed? {
      AddFinishIs(s, l);
      var id := s.tasks[l.t].pc.id;
      ArmKeepsPc(Noted(SetPc(Release(s), l.t, Finished(true)), id), id, s.objs[id].idle, None, u);
    }
  }

  lemma NotifyKeepsPc(s: State, l: Label, u: TaskId)
    requires Inv(s) && Enabled(s, l) && (l.NotifyTurn? || l.NotifyInput?)
    ensures KeepsPc(s, Apply(s, l), u)
  {
    UseCore(s, u, 0);
    if l.hit.Some? && l.hit.value !in s.firing {
      CancelKeepsPc(s, l.hit.value, None, u);
      ArmKeepsPc(s, l.hit.value, if l.hit.value in s.objs then s.objs[l.hit.value].idle else 0, None, u);
    }
  }

  lemma CallsKeepPc(s: State, l: Label, u: TaskId)
    requires Inv(s) && Enabled(s, l) && (l.AddCall? || l.UpdateCall? || l.RemoveCall? || l.CancelCaller?)
    ensures KeepsPc(s, Apply(s, l), u)
  {
    UseCore(s, u, 0);
  }

  lemma ParkKeepsPc(s: State, l: Label, u: TaskId)
    requires Inv(s) && Enabled(s, l) && Actor(l) != Some(u) && (l.RemoveFinish? || l.PersistBegin? || l.InnerDone?)
    ensures KeepsPc(s, Apply(s, l), u)
  {
  }

  lemma PlainKeepsPc(s: State, l: Label, u: TaskId)
    requires Inv(s) && Enabled(s, l) && Actor(l) != Some(u)
    requires l.WriteLands? || l.WriteFails? || l.CallbackRemoves?
    ensures KeepsPc(s, Apply(s, l), u)
  {
  }

  lemma WakeKeepsPc(s: State, l: Label, u: TaskId)
    requires Inv(s) && Enabled(s, l) && l.TimerWake? && l.t != u
    ensures KeepsPc(s, Apply(s, l), u)
  {
    hide Core, Store, AtCapNow, Finds;
    UseCore(s, u, 0);
    var id := s.tasks[l.t].kind.loop;
    if l.env.Run? && AtCapNow(s.objs[id]) {
      UseCore(s, l.t, 0);
      assert Apply(s, l) == SetPc(Spawn(s, Task(Inner, UpdateWait(id, DEACTIVATE), false)), l.t, AtCap(s.next));
    }
  }

  /** A step moves no task but the one whose code it runs. */
  lemma OnlyActorMoves(s: State, l: Label, u: TaskId)
    requires Inv(s) && Enabled(s, l) && Actor(l) != Some(u)
    ensures KeepsPc(s, Apply(s, l), u)
  {
    hide Core, Store, Apply, KeepsPc, Enabled;
    match l
    case AddBegin(_, _, _) => BeginsKeepPc(s, l, u);
    case RemoveBegin(_) => BeginsKeepPc(s, l, u);
    case UpdateBegin(_) => UpdateBeginKeepsPc(s, l, u);
    case AddFinish(_) => AddFinishKeepsPc(s, l, u);
    case UpdateFinish(_) => UpdateFinishKeepsPc(s, l, u);
    case PersistFinish(_) => FireEndsKeepPc(s, l, u);
    case CallbackReturns(_, _) => FireEndsKeepPc(s, l, u);
    case DeliverCancel(_) => FireEndsKeepPc(s, l, u);
    case NotifyTurn(_, _) => NotifyKeepsPc(s, l, u);
    case NotifyInput(_, _) => NotifyKeepsPc(s, l, u);
    case AddCall(_) => CallsKeepPc(s, l, u);
    case UpdateCall(_, _) => CallsKeepPc(s, l, u);
    case RemoveCall(_) => CallsKeepPc(s, l, u);
    case CancelCaller(_) => CallsKeepPc(s, l, u);
    case RemoveFinish(_) => ParkKeepsPc(s, l, u);
    case PersistBegin(_) => ParkKeepsPc(s, l, u);
    case InnerDone(_) => ParkKeepsPc(s, l, u);
    case TimerWake(_, _) => WakeKeepsPc(s, l, u);
    case _ => PlainKeepsPc(s, l, u);
  }

  /** The acting task ends up with an unreported callback only if it had one, or wakes below the cap. */
  ghost predicate ActorDecides(s: State, l: Label, u: TaskId)
    requires Enabled(s, l)
  {
    var r := Apply(s, l);
    u in s.tasks && u in r.tasks && r.tasks[u].kind.Timer? && Undecided(r.tasks[u].pc) ==>
      || (Undecided(s.tasks[u].pc) && !(l.CallbackReturns? && l.t == u))
      || (l.TimerWake? && l.t == u && s.tasks[u].kind.Timer? && s.tasks[u].kind.loop in s.objs && !AtCapNow(s.objs[s.tasks[u].kind.loop]))
  }

  lemma CloseEnds(s: State, t: TaskId, id: LoopId, ok: bool)
    requires t in s.tasks && id in s.objs
    ensures t in CloseWindow(s, t, id, ok).tasks && CloseWindow(s, t, id, ok).tasks[t].pc.Finished?
  {
  }

  lemma ArmThenCloseEnds(s: State, t: TaskId, id: LoopId, delay: int)
    requires t in s.tasks && id in s.objs
    ensures t in ArmTimer(s, id, delay, Some(t)).tasks && ArmTimer(s, id, delay, Some(t)).objs == s.objs
    ensures var r := CloseWindow(ArmTimer(s, id, delay, Some(t)), t, id, true); t in r.tasks && r.tasks[t].pc.Finished?
  {
    hide CloseWindow;
    CloseEnds(ArmTimer(s, id, delay, Some(t)), t, id, true);
  }

  lemma PersistEnds(s: State, l: Label, u: TaskId)
    requires Enabled(s, l) && l == PersistFinish(u)
    ensures u in Apply(s, l).tasks && !Undecided(Apply(s, l).tasks[u].pc)
  {
    hide CloseWindow, ArmTimer;
    var id := s.tasks[u].kind.loop;
    CloseEnds(Release(s), u, id, false);
    CloseEnds(Release(s), u, id, true);
    ArmThenCloseEnds(Release(s), u, id, s.objs[id].idle);
  }

  lemma UndeliveredEnds(s: State, l: Label, u: TaskId)
    requires Enabled(s, l) && l == CallbackReturns(u, Undelivered)
    ensures u in Apply(s, l).tasks && !Undecided(Apply(s, l).tasks[u].pc)
  {
    hide CloseWindow, ArmTimer, Backoff;
    var id := s.tasks[u].kind.loop;
    var n := (if id in s.fails then s.fails[id] else 0) + 1;
    CloseEnds(s.(fails := s.fails - {id}), u, id, true);
    ArmThenCloseEnds(s.(fails := s.fails[id := n]), u, id, Backoff(n, s.objs[id].idle));
  }

  lemma FireEnds(s: State, l: Label, u: TaskId)
    requires Enabled(s, l) && Actor(l) == Some(u) && (l.PersistFinish? || l.CallbackReturns?)
    ensures u in Apply(s, l).tasks && !Undecided(Apply(s, l).tasks[u].pc)
  {
    hide CloseWindow, ArmTimer, Backoff;
    if l.PersistFinish? {
      PersistEnds(s, l, u);
    } else if l.outcome.Undelivered? {
      UndeliveredEnds(s, l, u);
    } else if l.outcome.RaisedCancelled? {
      CloseEnds(s, u, s.tasks[u].kind.loop, false);
    }
  }

  lemma DeliverDecides(s: State, l: Label, u: TaskId)
    requires Inv(s) && Enabled(s, l) && l == DeliverCancel(u)
    ensures ActorDecides(s, l, u)
  {
    if s.tasks[u].pc.PersistWait? || s.tasks[u].pc.PersistWrite? {
      DeliverClosesIs(s, l);
      CloseEnds(LetGo(s, u), u, s.tasks[u].kind.loop, false);
    } else if s.tasks[u].pc.RemoveDrain? {
      DrainEndsIs(s, l);
    } else if !s.tasks[u].pc.RemoveWrite? {
      CancelledHoldsNothing(s, u);
      DeliverInPlaceIs(s, l);
    }
  }

  lemma RemovalDecides(s: State, l: Label, u: TaskId)
    requires Inv(s) && Enabled(s, l) && (l == RemoveBegin(u) || l == RemoveFinish(u) || l == PersistBegin(u) || l == InnerDone(u))
    ensures ActorDecides(s, l, u)
  {
    hide Core, Store, RemoveSync, Finds;
    if l.RemoveBegin? { RemovalKeepsPcs(s, Some(s.tasks[u].pc.target), u); }
  }

  lemma InnerDecides(s: State, l: Label, u: TaskId)
    requires Inv(s) && Enabled(s, l) && Actor(l) == Some(u) && (l.AddBegin? || l.AddFinish? || l.UpdateBegin? || l.UpdateFinish?)
    ensures ActorDecides(s, l, u)
  {
    UseCore(s, u, 0);
    StepMoves(s, l, 0, u);
  }

  lemma WakeDecides(s: State, l: Label, u: TaskId)
    requires Inv(s) && Enabled(s, l) && Actor(l) == Some(u) && (l.TimerWake? || l.CallbackRemoves?)
    ensures ActorDecides(s, l, u)
  {
    UseCore(s, u, 0);
  }

  lemma ActorOutcome(s: State, l: Label, u: TaskId)
    requires Inv(s) && Enabled(s, l) && Actor(l) == Some(u)
    ensures ActorDecides(s, l, u)
  {
    match l
    case RemoveBegin(_) => RemovalDecides(s, l, u);
    case RemoveFinish(_) => RemovalDecides(s, l, u);
    case PersistBegin(_) => RemovalDecides(s, l, u);
    case InnerDone(_) => RemovalDecides(s, l, u);
    case AddBegin(_, _, _) => InnerDecides(s, l, u);
    case AddFinish(_) => InnerDecides(s, l, u);
    case UpdateBegin(_) => InnerDecides(s, l, u);
    case UpdateFinish(_) => InnerDecides(s, l, u);
    case PersistFinish(_) => FireEnds(s, l, u);
    case CallbackReturns(_, _) => FireEnds(s, l, u);
    case DeliverCancel(_) => DeliverDecides(s, l, u);
    case TimerWake(_, _) => WakeDecides(s, l, u);
    case CallbackRemoves(_, _) => WakeDecides(s, l, u);
    case _ =>
  }

  predicate Room(l: NudgeLoop) {
    l.maxCycles == 0 || l.cycles < l.maxCycles
  }

  /** A callback that has yet to report afterwards was already running, or starts below the cap; no
      delivery of the loop is counted in that step. */
  lemma OpenWindowHasRoom(s: State, l: Label, id: LoopId, u: TaskId)
    requires Inv(s) && Enabled(s, l) && Core(Apply(s, l)) && WithinCap(s, id) && id in s.objs && id !in s.doubled
    requires IsTimer(Apply(s, l), u, id) && Undecided(Apply(s, l).tasks[u].pc)
    ensures Room(s.objs[id]) && !Delivers(s, l, id)
  {
    UseCore(s, u, id);
    WindowWas(s, l, id, u);
    if Delivers(s, l, id) {
      UseCore(s, l.t, id);
    }
  }

  lemma WindowWas(s: State, l: Label, id: LoopId, u: TaskId)
    requires Inv(s) && Enabled(s, l) && id in s.objs
    requires IsTimer(Apply(s, l), u, id) && Undecided(Apply(s, l).tasks[u].pc)
    ensures IsTimer(s, u, id)
    ensures
      || (Undecided(s.tasks[u].pc) && !(l.CallbackReturns? && l.t == u))
      || (l.TimerWake? && l.t == u && !AtCapNow(s.objs[id]))
  {
    StepMoves(s, l, id, u);
    if Actor(l) == Some(u) {
      ActorOutcome(s, l, u);
    } else {
      OnlyActorMoves(s, l, u);
    }
  }

  /** No fire of a loop that is not doubled is delivered at the cap, so its counter stays within a cap that is
      never lowered. */
  lemma CapStep(s: State, l: Label, id: LoopId)
    requires id !in s.doubled
    requires Inv(s) && Enabled(s, l) && Inv(Apply(s, l)) && WithinCap(s, id) && !LowersCap(s, l, id) && id in s.objs
    ensures WithinCap(Apply(s, l), id)
  {
    StepMoves(s, l, id, 0);
    if id in Apply(s, l).firing {
      UseCore(Apply(s, l), 0, id);
      if Undecided(Apply(s, l).tasks[Apply(s, l).firing[id]].pc) {
        OpenWindowHasRoom(s, l, id, Apply(s, l).firing[id]);
      }
    }
    if Delivers(s, l, id) {
      UseCore(s, l.t, id);
    }
    if Updates(s, l, id) {
      UpdatedCap(s, l, id);
    }
  }

  lemma UpdatedCap(s: State, l: Label, id: LoopId)
    requires Core(s) && Enabled(s, l) && Updates(s, l, id) && id in s.objs
    ensures id in Apply(s, l).objs && Apply(s, l).objs[id] == ApplyChange(s.objs[id], s.tasks[l.t].pc.change)
  {
  }

  /** Until the loop is doubled the counter stays within the cap over every run in which the cap is not
      lowered. */
  lemma {:induction false} CyclesWithinCap(ss: seq<State>, ls: seq<Label>, id: LoopId, i: nat, k: nat)
    requires IsRun(ss, ls) && i <= k <= |ls| && id in ss[i].objs && WithinCap(ss[i], id)
    requires forall j :: i <= j < k ==> id !in ss[j].doubled
    requires forall j :: i <= j < k ==> Enabled(ss[j], ls[j]) && !LowersCap(ss[j], ls[j], id)
    ensures id in ss[k].objs && WithinCap(ss[k], id)
    decreases k
  {
    hide Inv, WithinCap, LowersCap;
    if k > i {
      CyclesWithinCap(ss, ls, id, i, k - 1);
      Reachable(ss, ls, k - 1);
      Reachable(ss, ls, k);
      StepOf(ss, ls, k - 1);
      CapStep(ss[k - 1], ls[k - 1], id);
      StepMoves(ss[k - 1], ls[k - 1], id, 0);
    }
  }
}

/** What one step can do to a single loop and to a single task. */
module AutoNudgeFacts {
  import opened Options
  import opened AutoNudgeProtocol
  import opened AutoNudgeInvariant
  import opened AutoNudgeTasks
  import opened AutoNudgeSteps
  import opened AutoNudgeStoreSteps

  /** A queued update that would switch the loop back on takes effect. */
  ghost predicate Reactivates(s: State, l: Label, id: LoopId)
    requires Enabled(s, l)
  {
    l.UpdateBegin? && s.tasks[l.t].pc.id == id && s.tasks[l.t].pc.change.active == Some(true)
  }

  /** The fire callback of loop `id` reports delivery. */
  ghost predicate Delivers(s: State, l: Label, id: LoopId)
    requires Enabled(s, l)
  {
    l.CallbackReturns? && l.outcome.Delivered? && s.tasks[l.t].kind.loop == id
  }

  /** Loop `id` afterwards: `changed` tells that an update() of it took effect. */
  ghost predicate LoopMoves(s: State, r: State, id: LoopId, changed: bool, delivered: bool) {
    id in s.objs ==>
      && id in r.objs
      && (id !in s.reg ==> id !in r.reg)
      && r.objs[id].cycles == s.objs[id].cycles + (if delivered then 1 else 0)
      && r.objs[id].slot == s.objs[id].slot
      && (!changed ==> r.objs[id].active == s.objs[id].active && r.objs[id].maxCycles == s.objs[id].maxCycles)
  }

  /** The armed timer of `id` afterwards is the old one, or a new one of a loop that is active. */
  ghost predicate TimerMoves(s: State, r: State, id: LoopId) {
    id in r.timers ==>
      || (id in s.timers && r.timers[id] == s.timers[id])
      || (r.timers[id] >= s.next && id in r.objs && r.objs[id].active)
  }

  /** No task that exists goes back to sleep. */
  ghost predicate TaskMoves(s: State, r: State, t: TaskId) {
    t in s.tasks ==> t in r.tasks && r.tasks[t].kind == s.tasks[t].kind && (r.tasks[t].pc.Sleeping? ==> s.tasks[t].pc.Sleeping?)
  }

  ghost predicate Updates(s: State, l: Label, id: LoopId)
    requires Enabled(s, l)
  {
    l.UpdateBegin? && s.tasks[l.t].pc.id == id && id in s.reg
  }

  lemma CancelMoves(s: State, id: LoopId, cur: Option<TaskId>, j: LoopId, t: TaskId)
    ensures var r := CancelTimer(s, id, cur); LoopMoves(s, r, j, false, false) && TimerMoves(s, r, j) && TaskMoves(s, r, t) && r.next == s.next
  {
  }

  lemma ArmMoves(s: State, id: LoopId, delay: int, cur: Option<TaskId>, j: LoopId, t: TaskId)
    requires id in s.objs && s.objs[id].active && (t in s.tasks ==> t < s.next)
    ensures var r := ArmTimer(s, id, delay, cur); LoopMoves(s, r, j, false, false) && TimerMoves(s, r, j) && TaskMoves(s, r, t) && r.next == s.next + 1
  {
  }

  lemma CloseMoves(s: State, t: TaskId, id: LoopId, ok: bool, j: LoopId, u: TaskId)
    requires t in s.tasks && id in s.objs && (u in s.tasks ==> u < s.next)
    ensures var r := CloseWindow(s, t, id, ok); LoopMoves(s, r, j, false, false) && TimerMoves(s, r, j) && TaskMoves(s, r, u)
  {
    if id in s.rearm && s.objs[id].active && id in s.reg {
      ArmMoves(s.(firing := s.firing - {id}, rearm := s.rearm - {id}), id, s.objs[id].idle, Some(t), j, u);
    }
  }

  lemma RemoveMoves(s: State, id: LoopId, cur: Option<TaskId>, j: LoopId, t: TaskId)
    ensures var r := RemoveSync(s, id, cur); LoopMoves(s, r, j, false, false) && TimerMoves(s, r, j) && TaskMoves(s, r, t)
    ensures RemoveSync(s, id, cur).next == s.next
  {
    if id in s.reg {
      var g := s.(reg := s.reg - {id});
      CancelMoves(g, id, cur, j, t);
      var c := CancelTimer(g, id, cur);
      assert RemoveSync(s, id, cur) == c.(fails := c.fails - {id}, rearm := c.rearm - {id});
    }
  }

  ghost predicate Moves(s: State, l: Label, j: LoopId, t: TaskId)
    requires Enabled(s, l)
  {
    && LoopMoves(s, Apply(s, l), j, Updates(s, l, j), Delivers(s, l, j))
    && TimerMoves(s, Apply(s, l), j)
    && TaskMoves(s, Apply(s, l), t)
  }

  lemma CallsMove(s: State, l: Label, j: LoopId, t: TaskId)
    requires Core(s) && Enabled(s, l) && (l.AddCall? || l.UpdateCall? || l.RemoveCall? || l.CancelCaller?)
    ensures Moves(s, l, j, t)
  {
    hide Core;
    UseCore(s, t, j);
    UseCore(s, s.next, j);
    UseCore(s, s.next + 1, j);
  }

  lemma SettlesMove(s: State, l: Label, j: LoopId, t: TaskId)
    requires Core(s) && Enabled(s, l) && (l.WriteLands? || l.WriteFails? || l.InnerDone? || l.CallbackRemoves?)
    ensures Moves(s, l, j, t)
  {
    hide Core;
    UseCore(s, t, j);
    if l.InnerDone? || l.CallbackRemoves? { ParkedMoves(s, Apply(s, l), l.t, j, t); }
  }

  lemma NotifyIs(s: State, l: Label)
    requires Enabled(s, l) && (l.NotifyTurn? || l.NotifyInput?)
    ensures l.hit.Some? ==> l.hit.value in s.reg && l.hit.value in s.objs
    ensures Apply(s, l) == if l.NotifyTurn? then DoNotifyTurn(s, l.hit) else DoNotifyInput(s, l.hit)
  {
  }

  lemma NotifyMoves(s: State, l: Label, j: LoopId, t: TaskId)
    requires Core(s) && Enabled(s, l) && (l.NotifyTurn? || l.NotifyInput?)
    ensures Moves(s, l, j, t)
  {
    hide Core, ArmTimer, CancelTimer, Apply, Enabled;
    NotifyIs(s, l);
    UseCore(s, t, j);
    if l.hit.Some? && l.hit.value !in s.firing {
      CancelMoves(s, l.hit.value, None, j, t);
      if l.NotifyTurn? && s.objs[l.hit.value].active {
        ArmMoves(s, l.hit.value, s.objs[l.hit.value].idle, None, j, t);
      }
    }
  }

  lemma AddBeginIs(s: State, l: Label)
    requires Enabled(s, l) && l.AddBegin?
    ensures l.t in s.tasks && s.tasks[l.t].pc.AddWait? && Finds(s, s.tasks[l.t].pc.args.slot, l.existing) && l.id !in s.objs
    ensures var m := if l.existing.Some? then RemoveSync(s, l.existing.value, Some(l.t)) else s;
      Apply(s, l) == Submit(m.(objs := m.objs[l.id := NewLoop(s.tasks[l.t].pc.args)], reg := m.reg + {l.id}), l.t, AddWrite(|s.snaps|, l.id))
  {
  }

  lemma AddBeginMoves(s: State, l: Label, j: LoopId, t: TaskId)
    requires Core(s) && Enabled(s, l) && l.AddBegin?
    ensures Moves(s, l, j, t)
  {
    hide Core, RemoveSync, Finds, Apply, Enabled;
    AddBeginIs(s, l);
    UseCore(s, t, j);
    if l.existing.Some? {
      RemoveMoves(s, l.existing.value, Some(l.t), j, t);
      RemoveMoves(s, l.existing.value, Some(l.t), j, l.t);
    }
  }

  /** A change of locks, logs, windows or of one task's program point comes before or after. */
  lemma ChainMoves(s: State, m: State, r: State, j: LoopId, t: TaskId)
    requires LoopMoves(s, m, j, false, false) && TimerMoves(s, m, j) && TaskMoves(s, m, t) && s.next <= m.next
    requires LoopMoves(m, r, j, false, false) && TimerMoves(m, r, j) && TaskMoves(m, r, t)
    ensures LoopMoves(s, r, j, false, false) && TimerMoves(s, r, j) && TaskMoves(s, r, t)
  {
  }

  /** `u` parks elsewhere than in a sleep; no loop and no timer entry changes. */
  lemma ParkedMoves(s: State, r: State, u: TaskId, j: LoopId, t: TaskId)
    requires u in s.tasks && u in r.tasks && r.tasks == s.tasks[u := r.tasks[u]] && r.tasks[u].kind == s.tasks[u].kind
    requires !r.tasks[u].pc.Sleeping? && r.objs == s.objs && r.reg == s.reg && r.timers == s.timers
    ensures LoopMoves(s, r, j, false, false) && TimerMoves(s, r, j) && TaskMoves(s, r, t)
  {
  }

  lemma AddFinishMoves(s: State, l: Label, j: LoopId, t: TaskId)
    requires Core(s) && Store(s) && Enabled(s, l) && l.AddFinish?
    ensures Moves(s, l, j, t)
  {
    hide ArmTimer, CancelTimer;
    UseCore(s, t, j);
    UseStore(s, l.t, j);
    var f := s.writes[s.tasks[l.t].pc.w].Failed?;
    var id := s.tasks[l.t].pc.id;
    var p := SetPc(Release(s), l.t, Finished(!f));
    var m := if f then p else Noted(p, id);
    ParkedMoves(s, m, l.t, j, t);
    if !f {
      AddFinishIs(s, l);
      ArmMoves(m, id, s.objs[id].idle, None, j, t);
      ChainMoves(s, m, Apply(s, l), j, t);
    }
  }

  lemma UpdateBeginMoves(s: State, l: Label, j: LoopId, t: TaskId)
    requires Core(s) && Enabled(s, l) && l.UpdateBegin?
    ensures Moves(s, l, j, t)
  {
    var id, change := s.tasks[l.t].pc.id, s.tasks[l.t].pc.change;
    UseCore(s, t, id);
    if id in s.reg {
      var r := Submit(s.(objs := s.objs[id := ApplyChange(s.objs[id], change)]), l.t, UpdateWrite(|s.snaps|, id, change));
      assert Apply(s, l) == r;
      ChangeKeeps(s.objs[id], change);
    } else {
      ParkedMoves(s, Apply(s, l), l.t, j, t);
    }
  }

  lemma ChangeKeeps(l: NudgeLoop, c: Change)
    ensures ApplyChange(l, c).cycles == l.cycles && ApplyChange(l, c).slot == l.slot
    ensures ApplyChange(l, c).active == if c.active.Some? then c.active.value else l.active
  {
  }

  /** Only a reactivating update switches a loop on. */
  lemma SwitchesOn(s: State, l: Label, j: LoopId)
    requires Inv(s) && Enabled(s, l) && j in s.objs && !s.objs[j].active
    requires j in Apply(s, l).objs && Apply(s, l).objs[j].active
    ensures Reactivates(s, l, j)
  {
    StepMoves(s, l, j, 0);
    var id, change := s.tasks[l.t].pc.id, s.tasks[l.t].pc.change;
    UseCore(s, l.t, id);
    ChangeKeeps(s.objs[id], change);
    var r := Submit(s.(objs := s.objs[id := ApplyChange(s.objs[id], change)]), l.t, UpdateWrite(|s.snaps|, id, change));
    assert Apply(s, l) == r;
  }

  lemma UpdateFinishMoves(s: State, l: Label, j: LoopId, t: TaskId)
    requires Core(s) && Enabled(s, l) && l.UpdateFinish?
    ensures Moves(s, l, j, t)
  {
    hide Core, LoopMoves, TimerMoves, TaskMoves;
    UseCore(s, t, j);
    var id := s.tasks[l.t].pc.id;
    if s.writes[s.tasks[l.t].pc.w].Failed? || id in s.firing {
      ParkedMoves(s, Apply(s, l), l.t, j, t);
    } else {
      UpdateRestarts(s, l);
      StoppedMoves(s, l.t, id, j, t);
      var m := SetPc(Release(CancelTimer(s, id, None)), l.t, Finished(true));
      if s.objs[id].active {
        UseCore(s, l.t, j);
        ArmMoves(m, id, s.objs[id].idle, None, j, t);
        ChainMoves(s, m, ArmTimer(m, id, s.objs[id].idle, None), j, t);
      }
    }
  }

  lemma StoppedMoves(s: State, u: TaskId, id: LoopId, j: LoopId, t: TaskId)
    requires u in s.tasks
    ensures var m := SetPc(Release(CancelTimer(s, id, None)), u, Finished(true));
            LoopMoves(s, m, j, false, false) && TimerMoves(s, m, j) && TaskMoves(s, m, t) && m.next == s.next
  {
    var c := CancelTimer(s, id, None);
    CancelMoves(s, id, None, j, t);
    var m := SetPc(Release(c), u, Finished(true));
    ParkedMoves(c, m, u, j, t);
    ChainMoves(s, c, m, j, t);
  }

  lemma RemoveBeginMoves(s: State, l: Label, j: LoopId, t: TaskId)
    requires Core(s) && Enabled(s, l) && l.RemoveBegin?
    ensures Moves(s, l, j, t)
  {
    var target := s.tasks[l.t].pc.target;
    if target in s.reg {
      RemoveMoves(s, target, Some(l.t), j, t);
      RemovalKeepsRunner(s, target, l.t);
      var m := RemoveSync(s, target, Some(l.t));
      ParkedMoves(m, Apply(s, l), l.t, j, t);
      ChainMoves(s, m, Apply(s, l), j, t);
    } else {
      ParkedMoves(s, Apply(s, l), l.t, j, t);
    }
  }

  lemma ParkMoves(s: State, l: Label, j: LoopId, t: TaskId)
    requires Core(s) && Enabled(s, l) && (l.RemoveFinish? || l.PersistBegin?)
    ensures Moves(s, l, j, t)
  {
  }

  lemma WakeMoves(s: State, l: Label, j: LoopId, t: TaskId)
    requires Core(s) && Enabled(s, l) && l.TimerWake?
    ensures Moves(s, l, j, t)
  {
    hide Core, LoopMoves, TimerMoves, TaskMoves, AtCapNow;
    UseCore(s, t, j);
    if l.env.Run? && AtCapNow(s.objs[s.tasks[l.t].kind.loop]) {
      WakeAtCapMoves(s, l, j, t);
    } else {
      ParkedMoves(s, Apply(s, l), l.t, j, t);
    }
  }

  lemma WakeAtCapMoves(s: State, l: Label, j: LoopId, t: TaskId)
    requires Core(s) && Enabled(s, l) && l.TimerWake? && l.env.Run? && AtCapNow(s.objs[s.tasks[l.t].kind.loop])
    ensures Moves(s, l, j, t)
  {
    hide Core, AtCapNow;
    var id := s.tasks[l.t].kind.loop;
    UseCore(s, t, j);
    UseCore(s, s.next, j);
    UseCore(s, l.t, j);
    var p := Spawn(s, Task(Inner, UpdateWait(id, DEACTIVATE), false));
    ParkedMoves(p, SetPc(p, l.t, AtCap(s.next)), l.t, j, t);
    ChainMoves(s, p, Apply(s, l), j, t);
  }

  lemma PersistFinishIs(s: State, l: Label)
    requires Enabled(s, l) && l.PersistFinish?
    ensures LoopKnown(s, l.t) && s.tasks[l.t].pc.PersistWrite? && Settled(s, s.tasks[l.t].pc.w)
    ensures Apply(s, l) == DoPersistFinish(s, l.t)
  {
  }

  lemma PersistFinishMoves(s: State, l: Label, j: LoopId, t: TaskId)
    requires Core(s) && Enabled(s, l) && l.PersistFinish?
    ensures Moves(s, l, j, t)
  {
    hide Core, CloseWindow, ArmTimer, Apply, Enabled;
    PersistFinishIs(s, l);
    UseCore(s, t, j);
    UseCore(s, l.t, j);
    var id := s.tasks[l.t].kind.loop;
    var r := Release(s);
    if !s.writes[s.tasks[l.t].pc.w].Failed? && IsChannelKey(s.objs[id].slot) && s.objs[id].active && id in s.reg {
      RearmCloseMoves(r, l.t, id, s.objs[id].idle, j, t);
    } else {
      CloseMoves(r, l.t, id, !s.writes[s.tasks[l.t].pc.w].Failed?, j, t);
    }
  }

  lemma RearmCloseMoves(s: State, u: TaskId, id: LoopId, delay: int, j: LoopId, t: TaskId)
    requires u in s.tasks && u < s.next && id in s.objs && s.objs[id].active && (t in s.tasks ==> t < s.next)
    ensures u in ArmTimer(s, id, delay, Some(u)).tasks
    ensures var r := CloseWindow(ArmTimer(s, id, delay, Some(u)), u, id, true); LoopMoves(s, r, j, false, false) && TimerMoves(s, r, j) && TaskMoves(s, r, t)
  {
    var a := ArmTimer(s, id, delay, Some(u));
    ArmMoves(s, id, delay, Some(u), j, t);
    CloseMoves(a, u, id, true, j, t);
  }

  lemma CallbackReturnsMoves(s: State, l: Label, j: LoopId, t: TaskId)
    requires Core(s) && Enabled(s, l) && l.CallbackReturns?
    ensures Moves(s, l, j, t)
  {
    hide Core, Moves;
    match l.outcome
    case RaisedCancelled => RaisedMoves(s, l, j, t);
    case Undelivered => UndeliveredMoves(s, l, j, t);
    case Delivered(_) => DeliveredMoves(s, l, j, t);
  }

  lemma RaisedMoves(s: State, l: Label, j: LoopId, t: TaskId)
    requires Core(s) && Enabled(s, l) && l.CallbackReturns? && l.outcome.RaisedCancelled?
    ensures Moves(s, l, j, t)
  {
    hide Core, CloseWindow, ArmTimer, LoopMoves, TimerMoves, TaskMoves;
    UseCore(s, t, j);
    UseCore(s, l.t, j);
    CloseMoves(s, l.t, s.tasks[l.t].kind.loop, false, j, t);
  }

  lemma CallbackIs(s: State, l: Label)
    requires Enabled(s, l) && l.CallbackReturns?
    ensures LoopKnown(s, l.t) && Apply(s, l) == DoCallbackReturns(s, l.t, l.outcome)
  {
  }

  lemma UndeliveredMoves(s: State, l: Label, j: LoopId, t: TaskId)
    requires Core(s) && Enabled(s, l) && l.CallbackReturns? && l.outcome.Undelivered?
    ensures Moves(s, l, j, t)
  {
    hide Core, CloseWindow, ArmTimer, Backoff, Apply, Enabled;
    CallbackIs(s, l);
    UseCore(s, t, j);
    UseCore(s, l.t, j);
    var id := s.tasks[l.t].kind.loop;
    if id !in s.reg || !s.objs[id].active {
      CloseMoves(s.(fails := s.fails - {id}), l.t, id, true, j, t);
    } else {
      var n := (if id in s.fails then s.fails[id] else 0) + 1;
      RearmCloseMoves(s.(fails := s.fails[id := n]), l.t, id, Backoff(n, s.objs[id].idle), j, t);
    }
  }

  lemma DeliveredMoves(s: State, l: Label, j: LoopId, t: TaskId)
    requires Core(s) && Enabled(s, l) && l.CallbackReturns? && l.outcome.Delivered?
    ensures Moves(s, l, j, t)
  {
    UseCore(s, t, j);
  }

  lemma DeliverMoves(s: State, l: Label, j: LoopId, t: TaskId)
    requires Inv(s) && Enabled(s, l) && l.DeliverCancel?
    ensures Moves(s, l, j, t)
  {
    if s.tasks[l.t].pc.PersistWait? || s.tasks[l.t].pc.PersistWrite? {
      DeliverCloses(s, l, j, t);
    } else {
      DeliverParks(s, l, j, t);
    }
  }

  lemma DeliverCloses(s: State, l: Label, j: LoopId, t: TaskId)
    requires Inv(s) && Enabled(s, l) && l.DeliverCancel? && (s.tasks[l.t].pc.PersistWait? || s.tasks[l.t].pc.PersistWrite?)
    ensures Moves(s, l, j, t)
  {
    hide Core, Store, CloseWindow, Apply, Enabled;
    DeliverClosesIs(s, l);
    UseCore(s, t, j);
    CloseMoves(LetGo(s, l.t), l.t, s.tasks[l.t].kind.loop, false, j, t);
  }

  lemma DeliverParks(s: State, l: Label, j: LoopId, t: TaskId)
    requires Inv(s) && Enabled(s, l) && l.DeliverCancel? && !s.tasks[l.t].pc.PersistWait? && !s.tasks[l.t].pc.PersistWrite?
    ensures Moves(s, l, j, t)
  {
    hide Core, Store, CloseWindow, LoopMoves, TimerMoves, TaskMoves;
    var pc := s.tasks[l.t].pc;
    if pc.RemoveWrite? {
      ParkedMoves(s, Apply(s, l), l.t, j, t);
    } else if pc.RemoveDrain? {
      DrainEndsIs(s, l);
      ParkedMoves(s, Apply(s, l), l.t, j, t);
    } else {
      CancelledHoldsNothing(s, l.t);
      DeliverInPlaceIs(s, l);
      ParkedMoves(s, SetPc(s, l.t, DeliveredPc(pc)), l.t, j, t);
    }
  }

  /** Every step moves loops, timers and tasks only in these ways. */
  lemma StepMoves(s: State, l: Label, j: LoopId, t: TaskId)
    requires Inv(s) && Enabled(s, l)
    ensures Moves(s, l, j, t)
  {
    match l
    case AddCall(_) => CallsMove(s, l, j, t);
    case UpdateCall(_, _) => CallsMove(s, l, j, t);
    case RemoveCall(_) => CallsMove(s, l, j, t);
    case CancelCaller(_) => CallsMove(s, l, j, t);
    case NotifyTurn(_, _) => NotifyMoves(s, l, j, t);
    case NotifyInput(_, _) => NotifyMoves(s, l, j, t);
    case AddBegin(_, _, _) => AddBeginMoves(s, l, j, t);
    case AddFinish(_) => AddFinishMoves(s, l, j, t);
    case UpdateBegin(_) => UpdateBeginMoves(s, l, j, t);
    case UpdateFinish(_) => UpdateFinishMoves(s, l, j, t);
    case RemoveBegin(_) => RemoveBeginMoves(s, l, j, t);
    case RemoveFinish(_) => ParkMoves(s, l, j, t);
    case PersistBegin(_) => ParkMoves(s, l, j, t);
    case PersistFinish(_) => PersistFinishMoves(s, l, j, t);
    case WriteLands(_) => SettlesMove(s, l, j, t);
    case WriteFails(_) => SettlesMove(s, l, j, t);
    case TimerWake(_, _) => WakeMoves(s, l, j, t);
    case CallbackRemoves(_, _) => SettlesMove(s, l, j, t);
    case CallbackReturns(_, _) => CallbackReturnsMoves(s, l, j, t);
    case InnerDone(_) => SettlesMove(s, l, j, t);
    case DeliverCancel(_) => DeliverMoves(s, l, j, t);
  }
}

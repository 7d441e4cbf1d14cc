/** The service object.  Each method is the code of the source between two awaits, over the
    object's own mutable fields; its contract is the step of the protocol it performs. */
module AutoNudgeServices {
  import opened Options
  import opened AutoNudgeProtocol
  import opened AutoNudgeInvariant
  import opened AutoNudgeSteps
  import opened AutoNudgeTasks
  import opened AutoNudgeLog
  import opened AutoNudgeFacts
  import opened AutoNudgeTheorems
  import opened AutoNudgeRearm
  import opened AutoNudgeEffects
  import opened AutoNudgeSlots

  class AutoNudgeService {
    // _loops: the loop objects, and which of them are still keys of the dictionary
    var loops: map<LoopId, NudgeLoop>
    var registered: set<LoopId>
    var timers: map<LoopId, TaskId>
    var firing: map<LoopId, TaskId>
    var rearmPending: set<LoopId>
    var rearmFailCount: map<LoopId, nat>
    var lock: Option<TaskId>
    // the event loop's task table
    var tasks: map<TaskId, Task>
    var nextTask: TaskId
    // the store file and the writes handed to the executor
    var snapshots: seq<Payload>
    var writes: seq<WriteStatus>
    var landed: seq<nat>
    var file: Payload

    /** History: the loops whose add() completed over a fire window of their own. */
    ghost var doubled: set<LoopId>

    ghost function View(): State
      reads this
    {
      State(loops, registered, timers, firing, rearmPending, rearmFailCount, lock, tasks, nextTask,
            snapshots, writes, landed, file, doubled)
    }

    /** `_find_by_slot`: an exact match wins; the tab name of a channel loop is the fallback. */
    method FindBySlot(slot: string) returns (hit: Option<LoopId>)
      requires registered <= loops.Keys
      ensures Finds(View(), slot, hit)
    {
      var todo := registered;
      while todo != {}
        invariant todo <= registered
        invariant forall j :: j in registered - todo ==> !ExactMatch(View(), slot, j)
        decreases todo
      {
        var id :| id in todo;
        if loops[id].slot == slot {
          assert ExactMatch(View(), slot, id);
          return Some(id);
        }
        todo := todo - {id};
      }
      assert forall j :: !ExactMatch(View(), slot, j);
      if slot == "" || IsChannelKey(slot) {
        return None;
      }
      todo := registered;
      while todo != {}
        invariant todo <= registered
        invariant forall j :: j in registered - todo ==> !TabMatch(View(), slot, j)
        decreases todo
      {
        var id :| id in todo;
        if IsChannelKey(loops[id].slot) && loops[id].tab == slot {
          assert TabMatch(View(), slot, id);
          return Some(id);
        }
        todo := todo - {id};
      }
      return None;
    }

    method Cancel(t: TaskId)
      modifies this`tasks
      ensures View() == RequestCancel(old(View()), t)
    {
      if t in tasks && !tasks[t].pc.Finished? {
        tasks := tasks[t := tasks[t].(cancel := true)];
      }
    }

    method CancelTimer(id: LoopId, current: Option<TaskId>)
      modifies this
      ensures View() == AutoNudgeProtocol.CancelTimer(old(View()), id, current)
    {
      if id in timers {
        var t := timers[id];
        timers := timers - {id};
        if current != Some(t) {
          Cancel(t);
        }
      }
    }

    method ArmTimer(id: LoopId, delay: int, current: Option<TaskId>)
      modifies this
      ensures View() == AutoNudgeProtocol.ArmTimer(old(View()), id, delay, current)
    {
      CancelTimer(id, current);
      tasks := tasks[nextTask := Task(Timer(id), Sleeping(delay), false)];
      timers := timers[id := nextTask];
      nextTask := nextTask + 1;
    }

    method Park(t: TaskId, pc: Pc)
      requires t in tasks
      modifies this`tasks
      ensures View() == SetPc(old(View()), t, pc)
    {
      tasks := tasks[t := tasks[t].(pc := pc, cancel := false)];
    }

    method RemoveSync(id: LoopId, current: Option<TaskId>)
      modifies this
      ensures View() == AutoNudgeProtocol.RemoveSync(old(View()), id, current)
    {
      if id in registered {
        registered := registered - {id};
        CancelTimer(id, current);
        rearmFailCount := rearmFailCount - {id};
        rearmPending := rearmPending - {id};
      }
    }

    /** `_serialize_state`: exactly the registered loops, as they are now. Between two steps that is what was
        snapshotted last, unless a delivered fire waits for the lock or a registered loop is doubled. */
    method SerializeState() returns (payload: Payload)
      ensures payload == Live(View())
      ensures Inv(View()) ==> payload.Keys == registered
      ensures Inv(View()) && Committed(View()) && doubled !! registered ==>
        |snapshots| >= 1 && payload == snapshots[|snapshots| - 1]
    {
      payload := map id | id in registered && id in loops :: loops[id];
      if Inv(View()) {
        SerializedIsRegistered();
        if Committed(View()) && doubled !! registered { SerializedIsLatest(); }
      }
    }

    lemma SerializedIsRegistered()
      requires Inv(View())
      ensures Live(View()).Keys == registered
    {
      forall id ensures id in Live(View()) <==> id in registered { UseCore(View(), 0, id); }
    }

    lemma SerializedIsLatest()
      requires Inv(View()) && Committed(View()) && doubled !! registered
      ensures |snapshots| >= 1 && Live(View()) == snapshots[|snapshots| - 1]
    {
      UseStore(View(), 0, 0);
      var last := snapshots[|snapshots| - 1];
      forall id ensures id in last <==> id in Live(View()) { UseStore(View(), 0, id); UseCore(View(), 0, id); }
      forall id | id in last ensures last[id] == Live(View())[id] { UseStore(View(), 0, id); UseCore(View(), 0, id); }
    }

    /** The fields given are set, the idle time and the cap forced into their ranges; nothing else changes. */
    method ChangeLoop(l: NudgeLoop, change: Change) returns (r: NudgeLoop)
      ensures r == ApplyChange(l, change)
      ensures r == l.(message := r.message, idle := r.idle, maxCycles := r.maxCycles, active := r.active)
      ensures change.idle == None ==> r.idle == l.idle
      ensures change.idle.Some? ==> MIN_IDLE_SECS <= r.idle <= MAX_IDLE_SECS
      ensures change.idle.Some? && MIN_IDLE_SECS <= change.idle.value <= MAX_IDLE_SECS ==> r.idle == change.idle.value
      ensures change.maxCycles.Some? ==> r.maxCycles >= 0 && (change.maxCycles.value >= 0 ==> r.maxCycles == change.maxCycles.value)
      ensures ApplyChange(r, change) == r
    {
      r := l;
      if change.message.Some? { r := r.(message := change.message.value); }
      if change.idle.Some? { r := r.(idle := Clamp(change.idle.value)); }
      if change.maxCycles.Some? { r := r.(maxCycles := if change.maxCycles.value < 0 then 0 else change.maxCycles.value); }
      if change.active.Some? { r := r.(active := change.active.value); }
    }

    /** Snapshot under the lock and hand the write to the executor. From then on `t` holds the lock across a
        write of the loops as they are, the only one in flight if none was. */
    method Submit(t: TaskId, pc: Pc)
      requires t in tasks
      modifies this
      ensures View() == AutoNudgeProtocol.Submit(old(View()), t, pc)
      ensures old(MayWrite(View(), pc)) ==> WriteHeld(View(), t) && (old(AllSettled(View())) ==> OnlyWrite(View(), t))
    {
      hide Inv, WriteHeld, OnlyWrite, AllSettled, Committed, MayWrite;
      ghost var before := View();
      var payload := SerializeState();
      Park(t, pc);
      lock := Some(t);
      snapshots := snapshots + [payload];
      writes := writes + [Pending];
      SubmittedHolds(before, t, pc);
    }

    method NotifyTurnComplete(slot: string)
      requires registered <= loops.Keys
      modifies this
      ensures exists hit :: Finds(old(View()), slot, hit) && View() == DoNotifyTurn(old(View()), hit)
      ensures old(Inv(View())) ==> Inv(View()) && OneTimer(View()) && FiresSpared(old(View()), View())
    {
      hide Inv, OneTimer, FiresSpared;
      ghost var before := View();
      var hit := FindBySlot(slot);
      if hit.Some? && loops[hit.value].active {
        if hit.value in firing {
          rearmPending := rearmPending + {hit.value};
        } else {
          ArmTimer(hit.value, loops[hit.value].idle, None);
        }
      }
      assert View() == DoNotifyTurn(before, hit);
      Notified(before, NotifyTurn(slot, hit));
    }

    method NotifyUserInput(slot: string)
      requires registered <= loops.Keys
      modifies this
      ensures exists hit :: Finds(old(View()), slot, hit) && View() == DoNotifyInput(old(View()), hit)
      ensures old(Inv(View())) ==> Inv(View()) && OneTimer(View()) && FiresSpared(old(View()), View())
    {
      hide Inv, OneTimer, FiresSpared;
      ghost var before := View();
      var hit := FindBySlot(slot);
      if hit.Some? {
        if hit.value in firing {
          rearmPending := rearmPending - {hit.value};
        } else {
          CancelTimer(hit.value, None);
        }
      }
      assert View() == DoNotifyInput(before, hit);
      Notified(before, NotifyInput(slot, hit));
    }

    /** `_add_locked` up to its write; `id` is the new loop's fresh id. The loop found on the slot is gone with its
        timer, every other loop is as it was, and one loop per slot stays one loop per slot. */
    method AddBegin(t: TaskId, id: LoopId)
      requires registered <= loops.Keys && t in tasks && tasks[t].pc.AddWait? && !tasks[t].cancel && lock.None? && id !in loops
      modifies this
      ensures exists existing ::
        && Finds(old(View()), old(tasks[t].pc.args.slot), existing) && View() == DoAddBegin(old(View()), t, existing, id)
        && (old(Inv(View())) ==> Replaces(old(View()), View(), existing, id))
      ensures id in registered && id in loops && MadeFrom(loops[id], old(tasks[t].pc.args))
      ensures old(Inv(View()) && SlotsApart(View())) ==> SlotsApart(View()) && OnlyOn(View(), old(tasks[t].pc.args.slot), id)
      ensures old(Inv(View())) ==> Inv(View()) && OneTimer(View()) && WriteHeld(View(), t)
      ensures old(Inv(View()) && AllSettled(View())) ==> OnlyWrite(View(), t)
    {
      hide Inv, OneTimer, WriteHeld, OnlyWrite, AllSettled, Store, Finds, AutoNudgeProtocol.RemoveSync, SlotsApart, OnlyOn, Replaces,
        MadeFrom, Enabled, Apply;
      ghost var before := View();
      var args := tasks[t].pc.args;
      var existing := FindBySlot(args.slot);
      AddMayBegin(before, t, existing, id);
      RemovalKeepsPcs(before, existing, t);
      if existing.Some? {
        RemoveSync(existing.value, Some(t));
      }
      loops := loops[id := NewLoop(args)];
      registered := registered + {id};
      Submit(t, AddWrite(|snapshots|, id));
      assert View() == DoAddBegin(before, t, existing, id);
      AddBegun(before, t, existing, id);
    }

    /** `_add_locked` after its write. */
    method AddFinish(t: TaskId)
      requires Enabled(View(), Label.AddFinish(t))
      modifies this
      ensures View() == DoAddFinish(old(View()), t)
      ensures old(Inv(View())) ==> Inv(View()) && OneTimer(View())
    {
      hide Inv, OneTimer, Enabled, Apply, AutoNudgeProtocol.ArmTimer;
      ghost var before := View();
      AdderIsKnown(before, t);
      var id, failed := tasks[t].pc.id, writes[tasks[t].pc.w].Failed?;
      lock := None;
      if failed {
        Park(t, Finished(false));
      } else {
        if id in firing {
          doubled := doubled + {id};
        }
        ArmTimer(id, loops[id].idle, Some(t));
        Park(t, Finished(true));
      }
      if Inv(before) { StepKeeps(before, Label.AddFinish(t)); }
    }

    /** `_update_locked` up to its write. */
    method UpdateBegin(t: TaskId)
      requires Enabled(View(), Label.UpdateBegin(t))
      modifies this
      ensures View() == DoUpdateBegin(old(View()), t)
      ensures old(Inv(View())) ==> Inv(View()) && OneTimer(View()) && WriteHeld(View(), t)
      ensures old(Inv(View()) && AllSettled(View())) ==> OnlyWrite(View(), t)
    {
      hide Inv, OneTimer, WriteHeld, OnlyWrite, AllSettled, Store;
      ghost var before := View();
      var id, change := tasks[t].pc.id, tasks[t].pc.change;
      if id !in registered || id !in loops {
        Park(t, Finished(true));
      } else {
        var l := ChangeLoop(loops[id], change);
        loops := loops[id := l];
        Submit(t, UpdateWrite(|snapshots|, id, change));
      }
      Begun(before, Label.UpdateBegin(t));
    }

    /** `_update_locked` after its write. */
    method UpdateFinish(t: TaskId)
      requires Enabled(View(), Label.UpdateFinish(t))
      modifies this
      ensures View() == DoUpdateFinish(old(View()), t)
      ensures old(Inv(View())) ==> Inv(View()) && OneTimer(View()) && FiresSpared(old(View()), View())
    {
      hide Inv, OneTimer, FiresSpared;
      ghost var before := View();
      var id, failed := tasks[t].pc.id, writes[tasks[t].pc.w].Failed?;
      lock := None;
      if !failed && id !in firing {
        CancelTimer(id, Some(t));
        if loops[id].active {
          ArmTimer(id, loops[id].idle, Some(t));
        }
      }
      Park(t, Finished(!failed));
      Notified(before, Label.UpdateFinish(t));
    }

    /** remove() up to its write. */
    method RemoveBegin(t: TaskId)
      requires Enabled(View(), Label.RemoveBegin(t))
      modifies this
      ensures View() == DoRemoveBegin(old(View()), t)
      ensures old(Inv(View())) ==> Inv(View()) && OneTimer(View()) && WriteHeld(View(), t)
      ensures old(Inv(View()) && AllSettled(View())) ==> OnlyWrite(View(), t)
    {
      hide Inv, OneTimer, WriteHeld, OnlyWrite, AllSettled, Store;
      ghost var before := View();
      var target, nested := tasks[t].pc.target, tasks[t].pc.nested;
      var existed := target in registered;
      RemoveSync(target, Some(t));
      if existed {
        Submit(t, RemoveWrite(|snapshots|, nested));
      } else {
        Park(t, if nested then InCallback else Finished(true));
      }
      Begun(before, Label.RemoveBegin(t));
    }

    /** The `finally` of `_timer`. */
    method CloseWindow(t: TaskId, id: LoopId, ok: bool)
      requires t in tasks && id in loops
      modifies this
      ensures View() == AutoNudgeProtocol.CloseWindow(old(View()), t, id, ok)
    {
      firing := firing - {id};
      if id in rearmPending {
        rearmPending := rearmPending - {id};
        if loops[id].active && id in registered {
          ArmTimer(id, loops[id].idle, Some(t));
        }
      }
      Park(t, Finished(ok));
    }

    /** `update(loop_id, active=False)` awaited at the cap: the update runs as a task of its own. */
    method AwaitDeactivation(t: TaskId, id: LoopId)
      requires t in tasks
      modifies this
      ensures View() == SetPc(Spawn(old(View()), Task(Inner, UpdateWait(id, DEACTIVATE), false)), t, AtCap(old(nextTask)))
    {
      var inner := nextTask;
      tasks := tasks[inner := Task(Inner, UpdateWait(id, DEACTIVATE), false)];
      nextTask := nextTask + 1;
      Park(t, AtCap(inner));
    }

    /** `_timer` from its sleep to the next await. */
    method TimerWake(t: TaskId, env: WakeEnv)
      requires Enabled(View(), Label.TimerWake(t, env))
      modifies this
      ensures View() == DoTimerWake(old(View()), t, env)
      ensures old(Inv(View())) ==> Inv(View()) && OneTimer(View())
      ensures old(Inv(View())) ==> FiresWithinCap(View(), t)
    {
      hide Inv, OneTimer, FiresWithinCap;
      ghost var before := View();
      var id := tasks[t].kind.loop;
      if env.Shutdown? {
        Park(t, Finished(true));
      } else if env.SentinelSeen? {
        Park(t, RemoveWait(id, false));
      } else if loops[id].maxCycles != 0 && loops[id].cycles >= loops[id].maxCycles {
        AwaitDeactivation(t, id);
      } else if !env.hasCallback {
        Park(t, Finished(true));
      } else {
        firing := firing[id := t];
        Park(t, InCallback);
      }
      WakesWithinCap(before, t, env);
    }

    /** Counts an undelivered fire and arms the retry. */
    method RetryLater(t: TaskId, id: LoopId)
      requires t in tasks && id in loops
      modifies this
      ensures var n := (if id in old(rearmFailCount) then old(rearmFailCount)[id] else 0) + 1;
        View() == AutoNudgeProtocol.ArmTimer(old(View()).(fails := old(rearmFailCount)[id := n]), id,
                                             Backoff(n, old(loops)[id].idle), Some(t))
      ensures t in tasks && id in loops
    {
      var n := (if id in rearmFailCount then rearmFailCount[id] else 0) + 1;
      rearmFailCount := rearmFailCount[id := n];
      ArmTimer(id, Backoff(n, loops[id].idle), Some(t));
    }

    /** `_run_fire_cycle` once the callback has reported. */
    method CallbackReturns(t: TaskId, outcome: Outcome)
      requires Enabled(View(), Label.CallbackReturns(t, outcome))
      modifies this
      ensures View() == DoCallbackReturns(old(View()), t, outcome)
      ensures old(Inv(View())) ==> Inv(View()) && OneTimer(View())
      ensures old(Inv(View())) && !outcome.Delivered? ==> WindowClosed(old(View()), View(), t, outcome.Undelivered?)
    {
      hide Inv, OneTimer, WindowClosed, AutoNudgeProtocol.CloseWindow, Backoff, Enabled, Apply;
      ghost var before := View();
      ReturnerIsKnown(before, t, outcome);
      var id := tasks[t].kind.loop;
      match outcome {
        case RaisedCancelled =>
          CloseWindow(t, id, false);
        case Undelivered =>
          if id !in registered || !loops[id].active {
            rearmFailCount := rearmFailCount - {id};
          } else {
            RetryLater(t, id);
          }
          CloseWindow(t, id, true);
        case Delivered(now) =>
          rearmFailCount := rearmFailCount - {id};
          loops := loops[id := loops[id].(cycles := loops[id].cycles + 1, lastFire := now)];
          Park(t, PersistWait);
      }
      CallbackRearms(before, t, outcome);
    }

    /** `_persist_locked` once the lock is free, inside the fire window. */
    method PersistBegin(t: TaskId)
      requires Enabled(View(), Label.PersistBegin(t))
      modifies this
      ensures View() == AutoNudgeProtocol.Submit(old(View()), t, PersistWrite(|old(snapshots)|))
      ensures old(Inv(View())) ==> Inv(View()) && OneTimer(View()) && WriteHeld(View(), t)
      ensures old(Inv(View()) && AllSettled(View())) ==> OnlyWrite(View(), t)
    {
      hide Inv, OneTimer, WriteHeld, OnlyWrite, AllSettled, Store;
      ghost var before := View();
      Submit(t, PersistWrite(|snapshots|));
      Begun(before, Label.PersistBegin(t));
    }

    /** The rest of `_run_fire_cycle` after the post-fire write. */
    method PersistFinish(t: TaskId)
      requires Enabled(View(), Label.PersistFinish(t))
      modifies this
      ensures View() == DoPersistFinish(old(View()), t)
      ensures old(Inv(View())) ==> Inv(View()) && OneTimer(View())
      ensures old(Inv(View())) ==> WindowClosed(old(View()), View(), t, old(ArmsItself(View(), t)))
    {
      hide Inv, OneTimer, WindowClosed, AutoNudgeProtocol.CloseWindow;
      ghost var before := View();
      var id, failed := tasks[t].kind.loop, writes[tasks[t].pc.w].Failed?;
      lock := None;
      if !failed && IsChannelKey(loops[id].slot) && loops[id].active && id in registered {
        ArmTimer(id, loops[id].idle, Some(t));
      }
      CloseWindow(t, id, !failed);
      PersistRearms(before, t);
    }
  }

  /** No delivered fire waits for the lock. */
  ghost predicate Committed(s: State) {
    forall id {:trigger Uncommitted(s, id)} :: !Uncommitted(s, id)
  }

  /** `pc` awaits the next write, and the lock is free for it. */
  ghost predicate MayWrite(s: State, pc: Pc) {
    Store(s) && s.lock.None? && WritePc(pc) && pc.w == |s.snaps|
  }

  lemma SubmittedHolds(s: State, t: TaskId, pc: Pc)
    requires t in s.tasks
    ensures var r := AutoNudgeProtocol.Submit(s, t, pc);
      MayWrite(s, pc) ==> WriteHeld(r, t) && (AllSettled(s) ==> OnlyWrite(r, t))
  {
    hide Store, WriteHeld, OnlyWrite, AllSettled, AutoNudgeProtocol.Submit;
    if MayWrite(s, pc) { SubmitHolds(s, s, t, pc); }
  }

  lemma Notified(s: State, l: Label)
    requires Enabled(s, l) && (l.UpdateFinish? || l.NotifyTurn? || l.NotifyInput?)
    ensures Inv(s) ==> Inv(Apply(s, l)) && OneTimer(Apply(s, l)) && FiresSpared(s, Apply(s, l))
  {
    hide Inv, OneTimer, FiresSpared;
    if Inv(s) {
      StepKeeps(s, l);
      NotificationsSpareFires(s, l);
    }
  }

  /** The loop found is out of the registry and of the timer table, and every loop but it and the new one is as it
      was. */
  ghost predicate Replaces(s: State, r: State, existing: Option<LoopId>, id: LoopId) {
    && (existing.Some? ==> existing.value !in r.reg && existing.value !in r.timers)
    && OthersSame(s, r, {id} + if existing.Some? then {existing.value} else {})
  }

  /** `id` is the only registered loop of the slot. */
  ghost predicate OnlyOn(s: State, slot: string, id: LoopId) {
    forall j :: j in s.reg && j in s.objs && s.objs[j].slot == slot ==> j == id
  }

  lemma AddedInPlace(s: State, l: Label)
    requires Enabled(s, l) && l.AddBegin?
    ensures Inv(s) ==> Replaces(s, Apply(s, l), l.existing, l.id)
    ensures l.id in Apply(s, l).reg && l.id in Apply(s, l).objs && MadeFrom(Apply(s, l).objs[l.id], s.tasks[l.t].pc.args)
    ensures Inv(s) && SlotsApart(s) ==> SlotsApart(Apply(s, l)) && OnlyOn(Apply(s, l), s.tasks[l.t].pc.args.slot, l.id)
  {
    hide Apply, Enabled, Core, Store, SlotsApart;
    AddBeginIs(s, l);
    NewLoopIs(s.tasks[l.t].pc.args);
    if Inv(s) {
      AddBeginEffect(s, l);
      assert Existing(l) + {l.id} == {l.id} + if l.existing.Some? then {l.existing.value} else {};
      if SlotsApart(s) { AddReplaces(s, l); }
    }
  }

  lemma AddMayBegin(s: State, t: TaskId, existing: Option<LoopId>, id: LoopId)
    requires t in s.tasks && s.tasks[t].pc.AddWait? && !s.tasks[t].cancel && s.lock.None? && id !in s.objs
    requires Finds(s, s.tasks[t].pc.args.slot, existing)
    ensures Enabled(s, Label.AddBegin(t, existing, id))
  {
  }

  /** All that holds when add() has begun its write. */
  lemma AddBegun(s: State, t: TaskId, existing: Option<LoopId>, id: LoopId)
    requires Enabled(s, Label.AddBegin(t, existing, id))
    ensures var r := DoAddBegin(s, t, existing, id);
      && (Inv(s) ==> Replaces(s, r, existing, id) && Inv(r) && OneTimer(r) && WriteHeld(r, t))
      && id in r.reg && id in r.objs && MadeFrom(r.objs[id], s.tasks[t].pc.args)
      && (Inv(s) && SlotsApart(s) ==> SlotsApart(r) && OnlyOn(r, s.tasks[t].pc.args.slot, id))
      && (Inv(s) && AllSettled(s) ==> OnlyWrite(r, t))
  {
    hide Inv, OneTimer, WriteHeld, OnlyWrite, AllSettled, SlotsApart, OnlyOn, Replaces, MadeFrom, DoAddBegin, Finds;
    Begun(s, Label.AddBegin(t, existing, id));
    AddedInPlace(s, Label.AddBegin(t, existing, id));
  }

  lemma Begun(s: State, l: Label)
    requires Enabled(s, l) && (l.AddBegin? || l.UpdateBegin? || l.RemoveBegin? || l.PersistBegin?)
    ensures Inv(s) ==> Inv(Apply(s, l)) && OneTimer(Apply(s, l)) && WriteHeld(Apply(s, l), l.t)
    ensures Inv(s) && AllSettled(s) ==> OnlyWrite(Apply(s, l), l.t)
  {
    hide Inv, OneTimer, WriteHeld, OnlyWrite, AllSettled;
    if Inv(s) {
      StepKeeps(s, l);
      BeginHoldsLock(s, l);
    }
  }

  /** A task that has just opened a fire window does so for a registered loop below its cap, in a window of
      its own. */
  ghost predicate FiresWithinCap(s: State, t: TaskId) {
    t in s.tasks && s.tasks[t].pc.InCallback? ==>
      && LoopKnown(s, t) && s.tasks[t].kind.loop in s.reg && !AtCapNow(s.objs[s.tasks[t].kind.loop])
      && s.tasks[t].kind.loop in s.firing && s.firing[s.tasks[t].kind.loop] == t
  }

  lemma WakesWithinCap(s: State, t: TaskId, env: WakeEnv)
    requires Enabled(s, Label.TimerWake(t, env))
    ensures var r := Apply(s, Label.TimerWake(t, env)); Inv(s) ==> Inv(r) && OneTimer(r) && FiresWithinCap(r, t)
  {
    hide Core, Store, OneTimer;
    if Inv(s) {
      StepKeeps(s, Label.TimerWake(t, env));
      WakerIsRegistered(s, t);
    }
  }

  /** `t` has closed its loop's window: the loop, unless doubled, is armed exactly when it is registered, active and either a
      turn asked for it during the window or the fire itself does (`again`). */
  ghost predicate WindowClosed(s: State, r: State, t: TaskId, again: bool) {
    LoopKnown(s, t) && s.tasks[t].kind.loop !in s.doubled ==>
      var id := s.tasks[t].kind.loop;
      id !in r.firing && (Armed(r, id) <==> (id in s.reg && s.objs[id].active && (id in s.rearm || again)))
  }

  /** A recorded fire of a channel loop arms the next one itself. */
  predicate ArmsItself(s: State, t: TaskId)
    requires LoopKnown(s, t) && s.tasks[t].pc.PersistWrite? && Settled(s, s.tasks[t].pc.w)
  {
    s.writes[s.tasks[t].pc.w].Landed? && IsChannelKey(s.objs[s.tasks[t].kind.loop].slot)
  }

  /** The window of a callback that returns is its own. */
  lemma OwnWindow(s: State, t: TaskId)
    requires Inv(s) && LoopKnown(s, t) && FirePc(s.tasks[t].pc) && s.tasks[t].kind.loop !in s.doubled
    ensures s.tasks[t].kind.loop in s.firing && s.firing[s.tasks[t].kind.loop] == t
  {
    UseCore(s, t, 0);
  }

  lemma AdderIsKnown(s: State, t: TaskId)
    requires Enabled(s, Label.AddFinish(t))
    ensures t in s.tasks && s.tasks[t].pc.AddWrite? && Settled(s, s.tasks[t].pc.w) && s.tasks[t].pc.id in s.objs
    ensures Apply(s, Label.AddFinish(t)) == DoAddFinish(s, t)
  {
  }

  lemma ReturnerIsKnown(s: State, t: TaskId, outcome: Outcome)
    requires Enabled(s, Label.CallbackReturns(t, outcome))
    ensures LoopKnown(s, t) && Apply(s, Label.CallbackReturns(t, outcome)) == DoCallbackReturns(s, t, outcome)
  {
  }

  lemma CallbackRearms(s: State, t: TaskId, outcome: Outcome)
    requires Enabled(s, Label.CallbackReturns(t, outcome))
    ensures var r := Apply(s, Label.CallbackReturns(t, outcome)); Inv(s) ==> Inv(r) && OneTimer(r)
    ensures Inv(s) && !outcome.Delivered? ==> WindowClosed(s, Apply(s, Label.CallbackReturns(t, outcome)), t, outcome.Undelivered?)
  {
    hide Inv, OneTimer, Armed;
    if Inv(s) {
      StepKeeps(s, Label.CallbackReturns(t, outcome));
      if !outcome.Delivered? && s.tasks[t].kind.loop !in s.doubled {
        OwnWindow(s, t);
        CloseRearmsIff(s, Label.CallbackReturns(t, outcome), s.tasks[t].kind.loop);
      }
    }
  }

  lemma PersistRearms(s: State, t: TaskId)
    requires Enabled(s, Label.PersistFinish(t))
    ensures var r := Apply(s, Label.PersistFinish(t)); Inv(s) ==> Inv(r) && OneTimer(r) && WindowClosed(s, r, t, ArmsItself(s, t))
  {
    hide Inv, OneTimer, Armed;
    if Inv(s) {
      StepKeeps(s, Label.PersistFinish(t));
      if s.tasks[t].kind.loop !in s.doubled {
        OwnWindow(s, t);
        CloseRearmsIff(s, Label.PersistFinish(t), s.tasks[t].kind.loop);
      }
    }
  }
}

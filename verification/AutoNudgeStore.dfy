/** Every step keeps the lock across a write and the mirror between memory and the latest snapshot. */
module AutoNudgeStore {
  import opened Options
  import opened AutoNudgeProtocol
  import opened AutoNudgeInvariant
  import opened AutoNudgeTasks
  import opened AutoNudgeSteps

  // ----- steps that write nothing -----

  predicate TaskQuiet(s: State, r: State, t: TaskId) {
    && (t in s.tasks && WritePc(s.tasks[t].pc) ==> t in r.tasks && r.tasks[t].pc == s.tasks[t].pc)
    && (t in r.tasks && WritePc(r.tasks[t].pc) ==>
      && t in s.tasks && r.tasks[t].pc == s.tasks[t].pc && r.tasks[t].kind == s.tasks[t].kind
      && (r.tasks[t].kind.Timer? && r.tasks[t].cancel ==>
        s.tasks[t].cancel || (FirePc(s.tasks[t].pc) && s.tasks[t].kind.loop in s.doubled)))
  }

  predicate LoopQuiet(s: State, r: State, id: LoopId) {
    id in s.reg && id !in s.doubled && Uncommitted(s, id) ==> Uncommitted(r, id)
  }

  ghost predicate Quiet(s: State, r: State) {
    && r == s.(timers := r.timers, firing := r.firing, rearm := r.rearm, fails := r.fails, tasks := r.tasks, next := r.next)
    && (forall t {:trigger TaskQuiet(s, r, t)} :: TaskQuiet(s, r, t))
    && (forall id {:trigger LoopQuiet(s, r, id)} :: LoopQuiet(s, r, id))
  }

  lemma UseQuiet(s: State, r: State, t: TaskId, id: LoopId)
    requires Quiet(s, r)
    ensures TaskQuiet(s, r, t) && LoopQuiet(s, r, id)
    ensures r == s.(timers := r.timers, firing := r.firing, rearm := r.rearm, fails := r.fails, tasks := r.tasks, next := r.next)
  {
  }

  lemma QuietStore(s: State, r: State)
    requires Store(s) && Quiet(s, r)
    ensures Store(r)
  {
    UseStore(s, 0, 0);
    UseQuiet(s, r, if s.lock.Some? then s.lock.value else 0, 0);
    forall t ensures HolderOk(r, t) {
      UseStore(s, t, 0);
      UseQuiet(s, r, t, 0);
    }
    forall id ensures MirrorOk(r, id) {
      UseStore(s, 0, id);
      UseQuiet(s, r, 0, id);
    }
  }

  lemma QuietTrans(s: State, m: State, r: State)
    requires Quiet(s, m) && Quiet(m, r)
    ensures Quiet(s, r)
  {
    UseQuiet(s, m, 0, 0);
    UseQuiet(m, r, 0, 0);
    forall t ensures TaskQuiet(s, r, t) {
      UseQuiet(s, m, t, 0);
      UseQuiet(m, r, t, 0);
    }
    forall id ensures LoopQuiet(s, r, id) {
      UseQuiet(s, m, 0, id);
      UseQuiet(m, r, 0, id);
    }
  }

  /** Outside its fire window a loop's registered timer never holds the lock, unless the loop is doubled. */
  lemma RegisteredIdle(s: State, id: LoopId)
    requires Core(s) && id in s.timers && (id !in s.firing || id in s.doubled)
    ensures s.timers[id] in s.tasks && s.tasks[s.timers[id]].kind == Timer(id)
    ensures WritePc(s.tasks[s.timers[id]].pc) ==> FirePc(s.tasks[s.timers[id]].pc) && id in s.doubled
  {
    UseCore(s, s.timers[id], id);
  }

  lemma CancelQuiet(s: State, id: LoopId)
    requires Core(s) && (id !in s.firing || id in s.doubled)
    ensures Quiet(s, CancelTimer(s, id, None))
  {
    var r := CancelTimer(s, id, None);
    if id in s.timers {
      RegisteredIdle(s, id);
      var u := s.timers[id];
      forall t ensures TaskQuiet(s, r, t) {
        assert t != u ==> (t in r.tasks <==> t in s.tasks) && (t in s.tasks ==> r.tasks[t] == s.tasks[t]);
      }
      forall j ensures LoopQuiet(s, r, j) {}
    } else {
      SelfQuiet(s);
    }
  }

  lemma SelfQuiet(s: State)
    ensures Quiet(s, s)
  {
    forall t ensures TaskQuiet(s, s, t) {}
    forall id ensures LoopQuiet(s, s, id) {}
  }

  lemma SpawnQuiet(s: State, r: State, task: Task)
    requires Core(s) && !WritePc(task.pc)
    requires r == Spawn(s, task).(timers := r.timers)
    ensures Quiet(s, r)
  {
    UseCore(s, s.next, 0);
    forall t ensures TaskQuiet(s, r, t) {}
    forall id ensures LoopQuiet(s, r, id) {}
  }

  lemma ArmQuiet(s: State, id: LoopId, delay: int)
    requires Core(s) && (id !in s.firing || id in s.doubled)
    ensures Quiet(s, ArmTimer(s, id, delay, None))
  {
    CancelQuiet(s, id);
    CancelCore(s, id);
    var c := CancelTimer(s, id, None);
    SpawnQuiet(c, ArmTimer(s, id, delay, None), Task(Timer(id), Sleeping(delay), false));
    QuietTrans(s, c, ArmTimer(s, id, delay, None));
  }

  /** One task that holds no lock moves to a program point that holds none. */
  lemma MoveQuiet(s: State, r: State, t: TaskId)
    requires Core(s) && t in s.tasks && t in r.tasks
    requires r == s.(tasks := s.tasks[t := r.tasks[t]], firing := r.firing, rearm := r.rearm, fails := r.fails)
    requires !WritePc(s.tasks[t].pc) && !WritePc(r.tasks[t].pc)
    requires r.firing == s.firing
      || (s.tasks[t].kind.Timer? && (s.tasks[t].kind.loop in s.firing ==> s.tasks[t].kind.loop in s.doubled)
        && r.firing == s.firing[s.tasks[t].kind.loop := t])
      || (s.tasks[t].kind.Timer? && r.firing == s.firing - {s.tasks[t].kind.loop})
    requires s.tasks[t].pc == PersistWait ==>
      s.tasks[t].kind.Timer? && (s.tasks[t].kind.loop !in s.reg || s.tasks[t].kind.loop in s.doubled)
    requires r.firing != s.firing && s.tasks[t].kind.loop in s.firing ==>
      s.firing[s.tasks[t].kind.loop] == t || s.tasks[t].kind.loop in s.doubled
    ensures Quiet(s, r)
  {
    forall u ensures TaskQuiet(s, r, u) {}
    forall id ensures LoopQuiet(s, r, id) {
      UseCore(s, t, id);
    }
  }

  // ----- steps that take the lock -----

  /** With the lock free no task is parked on a write. */
  lemma NobodyWrites(s: State, t: TaskId)
    requires Store(s) && s.lock.None? && t in s.tasks
    ensures !WritePc(s.tasks[t].pc)
  {
    UseStore(s, t, 0);
  }

  lemma SubmitStore(s: State, a: State, t: TaskId, pc: Pc)
    requires Store(s) && s.lock.None? && Core(a) && t in a.tasks
    requires a.snaps == s.snaps && a.writes == s.writes && a.lock == s.lock
    requires forall u :: u in a.tasks ==> !WritePc(a.tasks[u].pc)
    requires WritePc(pc) && pc.w == |s.snaps|
    requires HolderOk(Submit(a, t, pc), t)
    ensures Store(Submit(a, t, pc))
  {
    var r := Submit(a, t, pc);
    UseStore(s, 0, 0);
    forall u ensures HolderOk(r, u) {}
    forall id ensures MirrorOk(r, id) {
      UseCore(a, 0, id);
    }
  }

  // ----- steps that give the lock back -----

  lemma ReleasedStore(s: State, r: State)
    requires Store(s) && s.lock.Some? && r.lock.None?
    requires r.snaps == s.snaps && r.writes == s.writes && r.reg == s.reg && r.objs == s.objs && r.doubled == s.doubled
    requires forall u :: u in r.tasks ==> !WritePc(r.tasks[u].pc)
    requires forall id {:trigger LoopQuiet(s, r, id)} :: LoopQuiet(s, r, id)
    ensures Store(r)
  {
    UseStore(s, 0, 0);
    forall u ensures HolderOk(r, u) {}
    forall id ensures MirrorOk(r, id) {
      UseStore(s, 0, id);
      assert LoopQuiet(s, r, id);
    }
  }

  /** The lock holder leaves its write; nobody else is parked on one. */
  lemma HolderLeaves(s: State, r: State, t: TaskId)
    requires Core(s) && Store(s) && t in s.tasks && WritePc(s.tasks[t].pc) && t in r.tasks && !WritePc(r.tasks[t].pc)
    requires r == s.(lock := None, tasks := s.tasks[t := r.tasks[t]], firing := r.firing, rearm := r.rearm)
    requires r.firing == s.firing || (s.tasks[t].kind.Timer? && r.firing == s.firing - {s.tasks[t].kind.loop})
    requires r.firing != s.firing && s.tasks[t].kind.loop in s.firing ==>
      s.firing[s.tasks[t].kind.loop] == t || s.tasks[t].kind.loop in s.doubled
    ensures Store(r)
  {
    UseStore(s, t, 0);
    forall u | u in r.tasks ensures !WritePc(r.tasks[u].pc) {
      UseStore(s, u, 0);
    }
    forall id ensures LoopQuiet(s, r, id) {}
    ReleasedStore(s, r);
  }

  /** Noting a loop as doubled only weakens what is known, once nobody is parked on a write. */
  lemma NotedStore(s: State, id: LoopId)
    requires Store(s) && forall u :: u in s.tasks ==> !WritePc(s.tasks[u].pc)
    ensures Store(Noted(s, id))
  {
    var r := Noted(s, id);
    UseStore(s, 0, 0);
    forall t ensures HolderOk(r, t) { UseStore(s, t, 0); }
    forall j ensures MirrorOk(r, j) { UseStore(s, 0, j); }
  }
}

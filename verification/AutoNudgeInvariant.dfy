/** The inductive invariant of the protocol. */
module AutoNudgeInvariant {
  import opened Options
  import opened AutoNudgeProtocol

  predicate WritePc(pc: Pc) {
    pc.AddWrite? || pc.UpdateWrite? || pc.RemoveWrite? || pc.RemoveDrain? || pc.PersistWrite?
  }

  predicate TimerPc(pc: Pc, id: LoopId) {
    && (pc.RemoveWait? ==> pc.nested || pc.target == id)
    && (pc.RemoveDrain? ==> pc.nested) && !pc.Awaiting?
    && !pc.AddWait? && !pc.AddWrite? && !pc.UpdateWait? && !pc.UpdateWrite?
  }

  predicate InnerPc(pc: Pc) {
    pc.AddWait? || pc.AddWrite? || pc.UpdateWait? || pc.UpdateWrite? || pc.Finished?
  }

  predicate CallerPc(pc: Pc) {
    || pc.Awaiting? || pc.Finished?
    || ((pc.RemoveWait? || pc.RemoveWrite? || pc.RemoveDrain?) && !pc.nested)
  }

  predicate IsTimer(s: State, t: TaskId, id: LoopId) {
    t in s.tasks && s.tasks[t].kind == Timer(id)
  }

  /** A timer task that may still act on its loop: not told to stop, or inside its fire window. */
  predicate Strong(task: Task) {
    task.kind.Timer? && !task.pc.Finished? && (!task.cancel || FirePc(task.pc))
  }

  /** A timer parked at its cycle cap awaits a deactivating update of its own loop; should that
      update complete, the timer has been cancelled by it, unless its loop is doubled. */
  predicate CapPair(s: State, task: Task)
    requires task.kind.Timer? && task.pc.AtCap?
  {
    var n := task.pc.inner;
    && n in s.tasks && s.tasks[n].kind.Inner?
    && (s.tasks[n].pc.UpdateWait? || s.tasks[n].pc.UpdateWrite? || s.tasks[n].pc.Finished?)
    && (!s.tasks[n].pc.Finished? ==> s.tasks[n].pc.id == task.kind.loop && s.tasks[n].pc.change == DEACTIVATE)
    && (s.tasks[n].pc.Finished? && s.tasks[n].pc.ok && task.kind.loop !in s.doubled ==> task.cancel)
  }

  /** A timer in its fire window is the one the window belongs to and, while its loop is registered, the
      one in the timer table, with no cancellation pending. */
  predicate SoleFire(s: State, t: TaskId)
    requires t in s.tasks && s.tasks[t].kind.Timer?
  {
    var task, id := s.tasks[t], s.tasks[t].kind.loop;
    && id in s.firing && s.firing[id] == t
    && (id in s.reg ==> id in s.timers && s.timers[id] == t && !task.cancel)
  }

  predicate TimerOk(s: State, t: TaskId)
    requires t in s.tasks && s.tasks[t].kind.Timer?
  {
    var task, id := s.tasks[t], s.tasks[t].kind.loop;
    && id in s.objs && TimerPc(task.pc, id)
    && (FirePc(task.pc) && id !in s.doubled ==> SoleFire(s, t))
    && (Strong(task) && !FirePc(task.pc) ==>
      || (id in s.timers && s.timers[id] == t)
      || (id !in s.reg && !task.pc.Sleeping? && !task.pc.AtCap?))
    && (task.pc.AtCap? ==> CapPair(s, task))
    && (task.pc.RemoveWrite? && !task.pc.nested ==> id !in s.reg)
  }

  predicate TaskOk(s: State, t: TaskId) {
    t in s.tasks ==>
      && t < s.next
      && (s.tasks[t].kind.Timer? ==> TimerOk(s, t))
      && (s.tasks[t].kind.Inner? ==> !s.tasks[t].cancel && InnerPc(s.tasks[t].pc))
      && (s.tasks[t].kind.Caller? ==> CallerPc(s.tasks[t].pc))
  }

  predicate LoopOk(s: State, id: LoopId) {
    && (id in s.reg || id in s.doubled ==> id in s.objs)
    && (id in s.timers ==> id in s.reg && IsTimer(s, s.timers[id], id) && !s.tasks[s.timers[id]].cancel)
    && (id in s.firing ==> IsTimer(s, s.firing[id], id) && FirePc(s.tasks[s.firing[id]].pc))
    && (id in s.rearm ==> id in s.firing)
  }

  ghost predicate Core(s: State) {
    && (forall t {:trigger TaskOk(s, t)} :: TaskOk(s, t))
    && (forall id {:trigger LoopOk(s, id)} :: LoopOk(s, id))
  }

  // ----- the store -----

  /** A task parked on an executor write holds the lock, its write is the latest snapshot, and if
      it is a timer no cancellation is pending, except in the fire window of a doubled loop. */
  predicate HolderOk(s: State, t: TaskId) {
    t in s.tasks && WritePc(s.tasks[t].pc) ==>
      && s.lock == Some(t) && s.tasks[t].pc.w == |s.snaps| - 1
      && (s.tasks[t].kind.Timer? && s.tasks[t].cancel ==> FirePc(s.tasks[t].pc) && s.tasks[t].kind.loop in s.doubled)
      && (s.tasks[t].pc.AddWrite? ==>
        && s.tasks[t].pc.id in s.reg && s.tasks[t].pc.id in s.objs && s.tasks[t].pc.id !in s.doubled
        && s.objs[s.tasks[t].pc.id].active && s.objs[s.tasks[t].pc.id].cycles >= 0)
      && (s.tasks[t].pc.UpdateWrite? ==>
        && s.tasks[t].pc.id in s.reg && s.tasks[t].pc.id in s.objs
        && (s.tasks[t].pc.change.active.Some? ==>
          s.objs[s.tasks[t].pc.id].active == s.tasks[t].pc.change.active.value))
  }

  /** A delivered fire has been counted but its task has not yet got the lock to record it. */
  predicate Uncommitted(s: State, id: LoopId) {
    id in s.firing && s.firing[id] in s.tasks && s.tasks[s.firing[id]].pc == PersistWait
  }

  /** Memory agrees with the latest snapshot on which loops there are and, unless `id` is doubled, about
      `id` up to an uncommitted fire. */
  predicate MirrorOk(s: State, id: LoopId)
    requires |s.snaps| >= 1
  {
    var last := s.snaps[|s.snaps| - 1];
    && (id in last <==> id in s.reg)
    && (id in s.reg && id in s.objs && id in last && id !in s.doubled ==> last[id] == s.objs[id] || Uncommitted(s, id))
  }

  /** Every snapshot has its write, and the lock is held across a write. */
  predicate LockOk(s: State) {
    && |s.snaps| == |s.writes| >= 1
    && (s.lock.Some? ==> s.lock.value in s.tasks && WritePc(s.tasks[s.lock.value].pc))
  }

  ghost predicate Store(s: State) {
    && LockOk(s)
    && (forall t {:trigger HolderOk(s, t)} :: HolderOk(s, t))
    && (forall id {:trigger MirrorOk(s, id)} :: MirrorOk(s, id))
  }

  ghost predicate Inv(s: State) {
    Core(s) && Store(s)
  }

  lemma UseCore(s: State, t: TaskId, id: LoopId)
    requires Core(s)
    ensures TaskOk(s, t) && LoopOk(s, id)
  {
  }

  lemma UseStore(s: State, t: TaskId, id: LoopId)
    requires Store(s)
    ensures LockOk(s) && HolderOk(s, t) && MirrorOk(s, id)
  {
  }

  lemma InitInv(s: State)
    requires Init(s)
    ensures Inv(s)
  {
    forall t ensures TaskOk(s, t) && HolderOk(s, t) {}
    forall id ensures LoopOk(s, id) && MirrorOk(s, id) {}
  }
}

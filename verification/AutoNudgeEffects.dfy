/** What each operation of the service does to the loops and their timers, in terms of the state alone. */
module AutoNudgeEffects {
  import opened Options
  import opened AutoNudgeProtocol
  import opened AutoNudgeInvariant
  import opened AutoNudgeTasks
  import opened AutoNudgeSteps
  import opened AutoNudgeStoreSteps
  import opened AutoNudgeFacts
  import opened AutoNudgeTheorems
  import opened AutoNudgeRearm
  import opened AutoNudgeStreak

  // ----- the words -----

  /** Loop `j` is as it was, in every table. */
  predicate SameLoop(s: State, r: State, j: LoopId) {
    && (j in r.reg <==> j in s.reg)
    && (j in r.objs <==> j in s.objs) && (j in s.objs && j in r.objs ==> r.objs[j] == s.objs[j])
    && (j in r.timers <==> j in s.timers) && (j in s.timers && j in r.timers ==> r.timers[j] == s.timers[j])
    && (j in r.firing <==> j in s.firing) && (j in s.firing && j in r.firing ==> r.firing[j] == s.firing[j])
    && (j in r.fails <==> j in s.fails) && (j in s.fails && j in r.fails ==> r.fails[j] == s.fails[j])
    && (j in r.rearm <==> j in s.rearm)
  }

  ghost predicate OthersSame(s: State, r: State, ids: set<LoopId>) {
    forall j {:trigger SameLoop(s, r, j)} :: j !in ids ==> SameLoop(s, r, j)
  }

  ghost predicate TasksSame(s: State, r: State, except: set<TaskId>) {
    forall u :: u in s.tasks && u !in except ==> u in r.tasks && r.tasks[u] == s.tasks[u]
  }

  /** Task `u` has ended or is told to stop. */
  predicate Stopped(r: State, u: TaskId) {
    u in r.tasks && (r.tasks[u].pc.Finished? || r.tasks[u].cancel)
  }

  /** The task that the timer table names for the loop, if any. */
  function TimerOf(s: State, id: LoopId): set<TaskId> {
    if id in s.timers then {s.timers[id]} else {}
  }

  /** The loop has no entry in the timer table, and the task that was there, unless it is the running one, is
      told to stop. */
  ghost predicate Disarmed(s: State, r: State, id: LoopId, running: Option<TaskId>) {
    && id !in r.timers
    && (id in s.timers && s.timers[id] in s.tasks && running != Some(s.timers[id]) ==> Stopped(r, s.timers[id]))
  }

  /** A new task sleeps for the loop, `delay` long, and the task that was there is told to stop. */
  ghost predicate Rearmed(s: State, r: State, id: LoopId, delay: int, running: Option<TaskId>) {
    && ArmedFor(r, id, delay) && r.timers[id] == s.next
    && (id in s.timers && s.timers[id] in s.tasks && s.timers[id] != s.next && running != Some(s.timers[id]) ==>
      Stopped(r, s.timers[id]))
  }

  /** The loop, its registration and its window stay; its entry in the timer table may change. */
  predicate OnlyTimer(s: State, r: State, id: LoopId) {
    r.objs == s.objs && r.reg == s.reg && r.firing == s.firing && r.rearm == s.rearm && r.fails == s.fails
  }

  lemma CancelEffect(s: State, id: LoopId, cur: Option<TaskId>)
    ensures var r := CancelTimer(s, id, cur);
      && Disarmed(s, r, id, cur) && OthersSame(s, r, {id}) && TasksSame(s, r, TimerOf(s, id)) && OnlyTimer(s, r, id) && r.lock == s.lock
  {
    var r := CancelTimer(s, id, cur);
    forall j | j !in {id} ensures SameLoop(s, r, j) {}
  }

  lemma ArmEffect(s: State, id: LoopId, delay: int, cur: Option<TaskId>)
    requires forall u :: u in s.tasks ==> u < s.next
    ensures var r := ArmTimer(s, id, delay, cur);
      && Rearmed(s, r, id, delay, cur) && OthersSame(s, r, {id}) && TasksSame(s, r, TimerOf(s, id)) && OnlyTimer(s, r, id) && r.lock == s.lock
  {
    hide CancelTimer;
    CancelEffect(s, id, cur);
    var c := CancelTimer(s, id, cur);
    var r := ArmTimer(s, id, delay, cur);
    assert c.next == s.next && r.tasks == c.tasks[s.next := Task(Timer(id), Sleeping(delay), false)];
    forall j | j !in {id} ensures SameLoop(s, r, j) { assert SameLoop(s, c, j); }
  }

  lemma TasksBelow(s: State)
    requires Core(s)
    ensures forall u :: u in s.tasks ==> u < s.next
  {
    forall u | u in s.tasks ensures u < s.next { UseCore(s, u, 0); }
  }

  // ----- the two hooks -----

  /** A completed turn: nothing without an active loop; a note inside a fire window; else the timer starts anew with
      the idle time of the loop. */
  lemma TurnEffect(s: State, l: Label)
    requires Core(s) && Enabled(s, l) && l.NotifyTurn?
    ensures var r := Apply(s, l);
      && (l.hit.None? || !s.objs[l.hit.value].active ==> r == s)
      && (l.hit.Some? && s.objs[l.hit.value].active && l.hit.value in s.firing ==> r == s.(rearm := s.rearm + {l.hit.value}))
      && (l.hit.Some? && s.objs[l.hit.value].active && l.hit.value !in s.firing ==>
        && Rearmed(s, r, l.hit.value, s.objs[l.hit.value].idle, None) && OthersSame(s, r, {l.hit.value})
        && TasksSame(s, r, TimerOf(s, l.hit.value)) && OnlyTimer(s, r, l.hit.value))
  {
    hide ArmTimer, CancelTimer, Core, Apply, Enabled;
    NotifyIs(s, l);
    TasksBelow(s);
    if l.hit.Some? { ArmEffect(s, l.hit.value, s.objs[l.hit.value].idle, None); }
  }

  /** User input: inside a fire window the note of a completed turn is dropped; else the pending timer is told to
      stop. */
  lemma InputEffect(s: State, l: Label)
    requires Core(s) && Enabled(s, l) && l.NotifyInput?
    ensures var r := Apply(s, l);
      && (l.hit.None? ==> r == s)
      && (l.hit.Some? && l.hit.value in s.firing ==> r == s.(rearm := s.rearm - {l.hit.value}))
      && (l.hit.Some? && l.hit.value !in s.firing ==>
        && Disarmed(s, r, l.hit.value, None) && OthersSame(s, r, {l.hit.value})
        && TasksSame(s, r, TimerOf(s, l.hit.value)) && OnlyTimer(s, r, l.hit.value))
  {
    hide ArmTimer, CancelTimer, Core, Apply, Enabled;
    NotifyIs(s, l);
    if l.hit.Some? { CancelEffect(s, l.hit.value, None); }
  }

  // ----- add -----

  /** The idle time asked for, forced between 15 seconds and a day. */
  predicate IdleFrom(idle: int, asked: int) {
    15 <= idle <= 86400 && (15 <= asked <= 86400 ==> idle == asked) && (asked < 15 ==> idle == 15) && (asked > 86400 ==> idle == 86400)
  }

  predicate CapFrom(cap: int, asked: int) {
    cap >= 0 && (asked >= 0 ==> cap == asked) && (asked < 0 ==> cap == 0)
  }

  /** A loop as add() makes it. */
  predicate MadeFrom(l: NudgeLoop, a: AddArgs) {
    && l.slot == a.slot && l.tab == a.tab && l.message == a.message && l.sentinel == a.sentinel
    && IdleFrom(l.idle, a.idle) && CapFrom(l.maxCycles, a.maxCycles) && l.cycles == 0 && l.active && l.lastFire == 0
  }

  lemma RemoveEffect(s: State, id: LoopId, t: TaskId)
    requires Core(s) && t in s.tasks && id in s.reg
    ensures var r := RemoveSync(s, id, Some(t));
      && id !in r.reg && id !in r.timers && id !in r.rearm && id !in r.fails
      && r.objs == s.objs && r.firing == s.firing && r.lock == s.lock
      && (id in s.timers && s.timers[id] in s.tasks && s.timers[id] != t ==> Stopped(r, s.timers[id]))
      && OthersSame(s, r, {id}) && TasksSame(s, r, TimerOf(s, id) - {t}) && t in r.tasks && r.tasks[t] == s.tasks[t]
  {
    hide CancelTimer;
    UseCore(s, t, id);
    var g := s.(reg := s.reg - {id});
    CancelEffect(g, id, Some(t));
    RemovalKeepsRunner(s, id, t);
    var r := RemoveSync(s, id, Some(t));
    forall j | j !in {id} ensures SameLoop(s, r, j) { assert SameLoop(g, CancelTimer(g, id, Some(t)), j); }
  }

  /** Loop `id` is out of every table but the windows, and its timer is told to stop unless it is the running task. */
  ghost predicate Removed(s: State, r: State, id: LoopId, t: TaskId) {
    && id !in r.reg && id !in r.timers && id !in r.rearm && id !in r.fails
    && (id in s.timers && s.timers[id] in s.tasks && s.timers[id] != t ==> Stopped(r, s.timers[id]))
  }

  function Existing(l: Label): set<LoopId>
    requires l.AddBegin?
  {
    if l.existing.Some? then {l.existing.value} else {}
  }

  /** add() up to its write: the loop that the lookup found on the slot is gone, with its timer; the new loop is
      registered, as asked and without a timer; every other loop keeps its place and its timer. */
  lemma AddBeginEffect(s: State, l: Label)
    requires Core(s) && Enabled(s, l) && l.AddBegin?
    ensures var r := Apply(s, l);
      && (l.existing.Some? ==> Removed(s, r, l.existing.value, l.t))
      && l.id in r.reg && l.id in r.objs && MadeFrom(r.objs[l.id], s.tasks[l.t].pc.args) && l.id !in r.timers
      && OthersSame(s, r, Existing(l) + {l.id}) && r.lock == Some(l.t)
      && TasksSame(s, r, {l.t} + if l.existing.Some? then TimerOf(s, l.existing.value) else {})
  {
    hide RemoveSync, Finds, Core, Apply, Enabled, NewLoop;
    AddBeginIs(s, l);
    NewLoopIs(s.tasks[l.t].pc.args);
    UseCore(s, l.t, l.id);
    if l.existing.Some? {
      FoundIsRegistered(s, s.tasks[l.t].pc.args.slot, l.existing.value);
      RemoveEffect(s, l.existing.value, l.t);
    }
    var m := if l.existing.Some? then RemoveSync(s, l.existing.value, Some(l.t)) else s;
    assert l.existing.Some? ==> SameLoop(s, m, l.id);
    var r := Apply(s, l);
    forall j | j !in Existing(l) + {l.id} ensures SameLoop(s, r, j) {
      assert l.existing.Some? ==> SameLoop(s, m, j);
    }
  }

  lemma NewLoopIs(a: AddArgs)
    ensures MadeFrom(NewLoop(a), a)
  {
  }

  lemma FoundIsRegistered(s: State, slot: string, id: LoopId)
    requires Finds(s, slot, Some(id))
    ensures id in s.reg && id in s.objs
  {
  }

  /** add() after its write: it fails, or the loop's timer starts with its idle time. */
  lemma AddFinishEffect(s: State, l: Label)
    requires Core(s) && Enabled(s, l) && l.AddFinish?
    ensures var r := Apply(s, l);
      var id, landed := s.tasks[l.t].pc.id, s.writes[s.tasks[l.t].pc.w].Landed?;
      && l.t in r.tasks && r.tasks[l.t].pc == Finished(landed) && r.lock == None
      && (landed ==> Rearmed(s, r, id, s.objs[id].idle, Some(l.t)) && OthersSame(s, r, {id}) && TasksSame(s, r, TimerOf(s, id) + {l.t}))
      && (!landed ==> OthersSame(s, r, {}) && TasksSame(s, r, {l.t}))
      && OnlyTimer(s, r, id)
  {
    hide ArmTimer, CancelTimer, Core, Apply, Enabled, Rearmed;
    AddIsInner(s, l);
    AddEndIs(s, l);
    var r := Apply(s, l);
    if s.writes[s.tasks[l.t].pc.w].Landed? {
      AddArmsEffect(s, s.tasks[l.t].pc.id, l.t);
    } else {
      forall j ensures SameLoop(s, r, j) {}
    }
  }

  lemma AddArmsEffect(s: State, id: LoopId, t: TaskId)
    requires Core(s) && t in s.tasks && id in s.objs && !s.tasks[t].kind.Timer?
    ensures var n := Noted(Release(s), id);
      var a := ArmTimer(n, id, s.objs[id].idle, Some(t));
      var r := SetPc(a, t, Finished(true));
      && t in r.tasks && r.tasks[t].pc == Finished(true) && r.lock == None && OnlyTimer(s, r, id)
      && Rearmed(s, r, id, s.objs[id].idle, Some(t)) && OthersSame(s, r, {id}) && TasksSame(s, r, TimerOf(s, id) + {t})
  {
    hide ArmTimer, CancelTimer, Core;
    UseCore(s, t, id);
    TasksBelow(s);
    var n := Noted(Release(s), id);
    ArmEffect(n, id, s.objs[id].idle, Some(t));
    var a := ArmTimer(n, id, s.objs[id].idle, Some(t));
    var r := SetPc(a, t, Finished(true));
    forall j | j !in {id} ensures SameLoop(s, r, j) { assert SameLoop(n, a, j); }
  }

  /** Only an inner task adds. */
  lemma AddIsInner(s: State, l: Label)
    requires Core(s) && Enabled(s, l) && l.AddFinish?
    ensures !s.tasks[l.t].kind.Timer?
  {
    UseCore(s, l.t, 0);
  }

  lemma AddEndIs(s: State, l: Label)
    requires Enabled(s, l) && l.AddFinish?
    ensures l.t in s.tasks && s.tasks[l.t].pc.AddWrite? && Settled(s, s.tasks[l.t].pc.w) && s.tasks[l.t].pc.id in s.objs
    ensures var id := s.tasks[l.t].pc.id;
      Apply(s, l) == if s.writes[s.tasks[l.t].pc.w].Failed? then SetPc(Release(s), l.t, Finished(false))
                     else SetPc(ArmTimer(Noted(Release(s), id), id, s.objs[id].idle, Some(l.t)), l.t, Finished(true))
  {
  }

  // ----- update -----

  /** A loop with the given fields set and the others as they were. */
  predicate ChangedBy(l: NudgeLoop, m: NudgeLoop, c: Change) {
    && m.slot == l.slot && m.tab == l.tab && m.sentinel == l.sentinel && m.cycles == l.cycles && m.lastFire == l.lastFire
    && m.message == (if c.message.Some? then c.message.value else l.message)
    && m.active == (if c.active.Some? then c.active.value else l.active)
    && (if c.idle.Some? then IdleFrom(m.idle, c.idle.value) else m.idle == l.idle)
    && (if c.maxCycles.Some? then CapFrom(m.maxCycles, c.maxCycles.value) else m.maxCycles == l.maxCycles)
  }

  /** update() up to its write: a registered loop is changed as asked, no timer is touched; an unknown one ends the
      call. */
  lemma UpdateBeginEffect(s: State, l: Label)
    requires Core(s) && Enabled(s, l) && l.UpdateBegin?
    ensures var r := Apply(s, l);
      var id := s.tasks[l.t].pc.id;
      && OthersSame(s, r, {id}) && TasksSame(s, r, {l.t}) && l.t in r.tasks
      && (id in s.reg ==>
        && id in s.objs && id in r.objs && ChangedBy(s.objs[id], r.objs[id], s.tasks[l.t].pc.change) && r.lock == Some(l.t)
        && r.reg == s.reg && r.timers == s.timers && r.firing == s.firing && r.rearm == s.rearm && r.fails == s.fails)
      && (id !in s.reg ==> r.tasks[l.t].pc == Finished(true) && SameLoop(s, r, id) && r.lock == s.lock)
  {
    hide Apply, Enabled, Core, ApplyChange;
    UpdateStartIs(s, l);
    var id := s.tasks[l.t].pc.id;
    UseCore(s, l.t, id);
    if id in s.reg { ChangeIs(s.objs[id], s.tasks[l.t].pc.change); }
    var r := Apply(s, l);
    forall j | j !in {id} ensures SameLoop(s, r, j) {}
  }

  lemma UpdateStartIs(s: State, l: Label)
    requires Enabled(s, l) && l.UpdateBegin?
    ensures l.t in s.tasks && s.tasks[l.t].pc.UpdateWait? && Apply(s, l) == DoUpdateBegin(s, l.t)
  {
  }

  lemma ChangeIs(l: NudgeLoop, c: Change)
    ensures ChangedBy(l, ApplyChange(l, c), c)
  {
  }

  /** update() after its write: it fails; or, inside a fire window, the timers stay; or else the pending timer is
      told to stop, and an active loop's starts anew with its idle time. */
  lemma UpdateFinishEffect(s: State, l: Label)
    requires Core(s) && Enabled(s, l) && l.UpdateFinish?
    ensures var r := Apply(s, l);
      var id, landed := s.tasks[l.t].pc.id, s.writes[s.tasks[l.t].pc.w].Landed?;
      && l.t in r.tasks && r.tasks[l.t].pc == Finished(landed) && r.lock == None && OnlyTimer(s, r, id) && OthersSame(s, r, {id})
      && (!landed || id in s.firing ==> r.timers == s.timers && TasksSame(s, r, {l.t}))
      && (landed && id !in s.firing ==> TasksSame(s, r, TimerOf(s, id) + {l.t}))
      && (landed && id !in s.firing && s.objs[id].active ==> Rearmed(s, r, id, s.objs[id].idle, None))
      && (landed && id !in s.firing && !s.objs[id].active ==> Disarmed(s, r, id, None))
  {
    hide ArmTimer, CancelTimer, Core, Apply, Enabled, Rearmed, Disarmed;
    UpdateFinishIs(s, l);
    UseCore(s, l.t, s.tasks[l.t].pc.id);
    var r := Apply(s, l);
    var id := s.tasks[l.t].pc.id;
    if !s.writes[s.tasks[l.t].pc.w].Failed? && id !in s.firing {
      UpdateRestarts(s, l);
      RestartEffect(s, id, l.t);
    } else {
      forall j | j !in {id} ensures SameLoop(s, r, j) {}
    }
  }

  lemma RestartEffect(s: State, id: LoopId, t: TaskId)
    requires Core(s) && t in s.tasks && id in s.objs && (id in s.timers ==> s.timers[id] != t)
    ensures var m := SetPc(Release(CancelTimer(s, id, None)), t, Finished(true));
      var r := if s.objs[id].active then ArmTimer(m, id, s.objs[id].idle, None) else m;
      && t in r.tasks && r.tasks[t].pc == Finished(true) && r.lock == None && OnlyTimer(s, r, id) && OthersSame(s, r, {id})
      && TasksSame(s, r, TimerOf(s, id) + {t})
      && (if s.objs[id].active then Rearmed(s, r, id, s.objs[id].idle, None) else Disarmed(s, r, id, None))
  {
    hide ArmTimer, CancelTimer, Core;
    TasksBelow(s);
    CancelEffect(s, id, None);
    var c := CancelTimer(s, id, None);
    var m := SetPc(Release(c), t, Finished(true));
    ArmEffect(m, id, s.objs[id].idle, None);
    var a := ArmTimer(m, id, s.objs[id].idle, None);
    forall j | j !in {id} ensures SameLoop(s, m, j) && SameLoop(s, a, j) { assert SameLoop(s, c, j) && SameLoop(m, a, j); }
  }

  lemma UpdateFinishIs(s: State, l: Label)
    requires Enabled(s, l) && l.UpdateFinish?
    ensures l.t in s.tasks && s.tasks[l.t].pc.UpdateWrite? && Settled(s, s.tasks[l.t].pc.w) && s.tasks[l.t].pc.id in s.objs
    ensures Apply(s, l) == DoUpdateFinish(s, l.t)
  {
  }

  // ----- remove -----

  /** remove() up to its write: a registered loop is out, its timer told to stop, every other loop as it was; an
      unknown one ends the call. */
  lemma RemoveBeginEffect(s: State, l: Label)
    requires Core(s) && Enabled(s, l) && l.RemoveBegin?
    ensures var r := Apply(s, l);
      var id := s.tasks[l.t].pc.target;
      && OthersSame(s, r, {id}) && TasksSame(s, r, TimerOf(s, id) + {l.t}) && r.objs == s.objs && r.firing == s.firing
      && (id in s.reg ==> Removed(s, r, id, l.t) && r.lock == Some(l.t))
      && (id !in s.reg ==> SameLoop(s, r, id) && TasksSame(s, r, {l.t}) && r.lock == s.lock)
  {
    hide RemoveSync, Core;
    var id := s.tasks[l.t].pc.target;
    UseCore(s, l.t, id);
    if id in s.reg {
      RemoveEffect(s, id, l.t);
      var m := RemoveSync(s, id, Some(l.t));
      forall j | j !in {id} ensures SameLoop(s, Apply(s, l), j) { assert SameLoop(s, m, j); }
    } else {
      forall j ensures SameLoop(s, Apply(s, l), j) {}
    }
  }

  /** remove() after its write: it gives the lock back and tells whether the write landed; one that was cancelled
      meanwhile fails. Awaited by a fire callback it goes on there. */
  lemma RemoveFinishEffect(s: State, l: Label)
    requires Enabled(s, l) && l.RemoveFinish?
    ensures var r := Apply(s, l);
      && r.lock == None && OthersSame(s, r, {}) && TasksSame(s, r, {l.t}) && l.t in r.tasks
      && (s.tasks[l.t].pc.nested ==> r.tasks[l.t].pc == InCallback)
      && (!s.tasks[l.t].pc.nested ==>
        r.tasks[l.t].pc == Finished(s.tasks[l.t].pc.RemoveWrite? && s.writes[s.tasks[l.t].pc.w].Landed?))
  {
    forall j ensures SameLoop(s, Apply(s, l), j) {}
  }

  // ----- the timer -----

  /** A timer that wakes: a shutdown ends it; a sentinel file makes it remove its loop; at the cap it awaits an
      update that sets the loop inactive and nothing else; without a callback it ends; else it opens its window. */
  lemma WakeEffect(s: State, l: Label)
    requires Core(s) && Enabled(s, l) && l.TimerWake?
    ensures var r := Apply(s, l);
      var id := s.tasks[l.t].kind.loop;
      var capped := s.objs[id].maxCycles != 0 && s.objs[id].cycles >= s.objs[id].maxCycles;
      && OthersSame(s, r, {id}) && TasksSame(s, r, {l.t}) && l.t in r.tasks
      && r.objs == s.objs && r.reg == s.reg && r.timers == s.timers && r.rearm == s.rearm && r.fails == s.fails && r.lock == s.lock
      && (l.env.Shutdown? ==> r.tasks[l.t].pc == Finished(true) && r.firing == s.firing)
      && (l.env.SentinelSeen? ==> r.tasks[l.t].pc == RemoveWait(id, false) && r.firing == s.firing)
      && (l.env.Run? && capped ==>
        && r.tasks[l.t].pc == AtCap(s.next) && r.firing == s.firing && s.next in r.tasks
        && r.tasks[s.next] == Task(Inner, UpdateWait(id, Change(None, None, None, Some(false))), false))
      && (l.env.Run? && !capped && !l.env.hasCallback ==> r.tasks[l.t].pc == Finished(true) && r.firing == s.firing)
      && (l.env.Run? && !capped && l.env.hasCallback ==>
        r.tasks[l.t].pc == InCallback && id in r.firing && r.firing[id] == l.t)
  {
    hide Core;
    UseCore(s, l.t, s.tasks[l.t].kind.loop);
    TasksBelow(s);
    var r := Apply(s, l);
    forall j | j !in {s.tasks[l.t].kind.loop} ensures SameLoop(s, r, j) {}
  }

  /** A delivered fire: counted, stamped, its streak cleared, and waiting to be recorded. */
  lemma DeliveredEffect(s: State, l: Label)
    requires Enabled(s, l) && l.CallbackReturns? && l.outcome.Delivered?
    ensures var r := Apply(s, l);
      var id := s.tasks[l.t].kind.loop;
      && OthersSame(s, r, {id}) && TasksSame(s, r, {l.t}) && l.t in r.tasks && r.tasks[l.t].pc == PersistWait
      && id in r.objs && r.objs[id] == s.objs[id].(cycles := s.objs[id].cycles + 1, lastFire := l.outcome.now) && id !in r.fails
      && r.reg == s.reg && r.timers == s.timers && r.firing == s.firing && r.rearm == s.rearm && r.lock == s.lock
  {
    var r := Apply(s, l);
    forall j | j !in {s.tasks[l.t].kind.loop} ensures SameLoop(s, r, j) {}
  }

  /** Whoever awaits an add() or an update() learns how it ended. */
  lemma CallerLearns(s: State, l: Label)
    requires Enabled(s, l) && l.InnerDone?
    ensures var r := Apply(s, l);
      && OthersSame(s, r, {}) && TasksSame(s, r, {l.t}) && l.t in r.tasks
      && r.tasks[l.t].pc == Finished(s.tasks[s.tasks[l.t].pc.inner].pc.ok)
  {
    forall j ensures SameLoop(s, Apply(s, l), j) {}
  }

  // ----- the end of a fire -----

  /** Task `t` has ended its fire: its window and the note of a completed turn are gone, and other loops are as they
      were. */
  ghost predicate FireOver(s: State, r: State, t: TaskId, id: LoopId, ok: bool) {
    && t in r.tasks && r.tasks[t].pc == Finished(ok) && id !in r.firing && id !in r.rearm
    && OthersSame(s, r, {id}) && r.objs == s.objs && r.reg == s.reg
  }

  lemma CloseEffect(s: State, t: TaskId, id: LoopId, ok: bool)
    requires t in s.tasks && id in s.objs && forall u :: u in s.tasks ==> u < s.next
    ensures var r := CloseWindow(s, t, id, ok);
      && FireOver(s, r, t, id, ok) && r.lock == s.lock && r.fails == s.fails
      && (id in s.rearm && s.objs[id].active && id in s.reg ==> Rearmed(s, r, id, s.objs[id].idle, Some(t)))
      && (!(id in s.rearm && s.objs[id].active && id in s.reg) ==> r.timers == s.timers && r.next == s.next && TasksSame(s, r, {t}))
  {
    hide ArmTimer;
    var c := s.(firing := s.firing - {id});
    var d := c.(rearm := c.rearm - {id});
    ArmEffect(d, id, s.objs[id].idle, Some(t));
    var r := CloseWindow(s, t, id, ok);
    forall j | j !in {id} ensures SameLoop(s, r, j) { assert SameLoop(d, ArmTimer(d, id, s.objs[id].idle, Some(t)), j); }
  }

  lemma ArmCloseEffect(s: State, t: TaskId, id: LoopId, delay: int)
    requires Core(s) && t in s.tasks && id in s.objs
    ensures t in ArmTimer(s, id, delay, Some(t)).tasks
    ensures var r := CloseWindow(ArmTimer(s, id, delay, Some(t)), t, id, true);
      FireOver(s, r, t, id, true) && r.lock == s.lock && r.fails == s.fails
  {
    hide ArmTimer, CloseWindow, Core;
    TasksBelow(s);
    ArmEffect(s, id, delay, Some(t));
    var a := ArmTimer(s, id, delay, Some(t));
    CloseEffect(a, t, id, true);
    var r := CloseWindow(a, t, id, true);
    forall j | j !in {id} ensures SameLoop(s, r, j) { assert SameLoop(s, a, j) && SameLoop(a, r, j); }
  }

  /** A fire that has been recorded, or failed to be. */
  lemma RecordedEffect(s: State, l: Label)
    requires Core(s) && Enabled(s, l) && l.PersistFinish?
    ensures var r := Apply(s, l);
      FireOver(s, r, l.t, s.tasks[l.t].kind.loop, s.writes[s.tasks[l.t].pc.w].Landed?) && r.lock == None && r.fails == s.fails
  {
    hide ArmTimer, CloseWindow, Core, Apply, Enabled;
    PersistFinishIs(s, l);
    TasksBelow(s);
    ReleaseCore(s);
    var id, q := s.tasks[l.t].kind.loop, Release(s);
    CloseEffect(q, l.t, id, true);
    CloseEffect(q, l.t, id, false);
    ArmCloseEffect(q, l.t, id, s.objs[id].idle);
    var r := Apply(s, l);
    forall j | j !in {id} ensures SameLoop(s, r, j) { assert SameLoop(q, r, j); }
  }

  /** A fire whose callback reports no delivery, or raises: the streak goes up by one for a live active loop whose
      fire went undelivered, ends if that loop is gone or switched off, and stays if the callback raised. */
  lemma UnfiredEffect(s: State, l: Label)
    requires Core(s) && Enabled(s, l) && l.CallbackReturns? && !l.outcome.Delivered?
    ensures var r := Apply(s, l);
      var id := s.tasks[l.t].kind.loop;
      && FireOver(s, r, l.t, id, l.outcome.Undelivered?) && r.lock == s.lock
      && (l.outcome.RaisedCancelled? ==> r.fails == s.fails)
      && (l.outcome.Undelivered? && id in s.reg && s.objs[id].active ==>
        id in r.fails && r.fails[id] == (if id in s.fails then s.fails[id] else 0) + 1)
      && (l.outcome.Undelivered? && !(id in s.reg && s.objs[id].active) ==> id !in r.fails)
  {
    if l.outcome.Undelivered? {
      UndeliveredEffect(s, l);
    } else {
      hide ArmTimer, CloseWindow, Core, Apply, Enabled, Backoff;
      CallbackIs(s, l);
      TasksBelow(s);
      CloseEffect(s, l.t, s.tasks[l.t].kind.loop, false);
    }
  }

  lemma UndeliveredEffect(s: State, l: Label)
    requires Core(s) && Enabled(s, l) && l.CallbackReturns? && l.outcome.Undelivered?
    ensures var r := Apply(s, l);
      var id := s.tasks[l.t].kind.loop;
      && FireOver(s, r, l.t, id, true) && r.lock == s.lock
      && r.fails ==
        if id in s.reg && s.objs[id].active then s.fails[id := (if id in s.fails then s.fails[id] else 0) + 1] else s.fails - {id}
  {
    hide ArmTimer, CloseWindow, Core, Apply, Enabled, Backoff;
    CallbackIs(s, l);
    TasksBelow(s);
    RearmInWindows(s);
    var id := s.tasks[l.t].kind.loop;
    var r := Apply(s, l);
    if id in s.reg && s.objs[id].active {
      var n := (if id in s.fails then s.fails[id] else 0) + 1;
      var g := s.(fails := s.fails[id := n]);
      SameCore(s, g);
      ArmCloseEffect(g, l.t, id, Backoff(n, s.objs[id].idle));
      forall j | j !in {id} ensures SameLoop(s, r, j) { assert SameLoop(g, r, j); }
    } else {
      var f := s.(fails := s.fails - {id});
      CloseEffect(f, l.t, id, true);
      forall j | j !in {id} ensures SameLoop(s, r, j) { assert SameLoop(f, r, j); }
    }
  }

  /** A cancelled caller of add() or update() stops waiting; the work it waited for goes on. */
  lemma CallerCancelEffect(s: State, l: Label)
    requires Enabled(s, l) && l.DeliverCancel? && s.tasks[l.t].pc.Awaiting?
    ensures var r := Apply(s, l);
      r == s.(tasks := r.tasks) && l.t in r.tasks && r.tasks[l.t].pc == Finished(false) && TasksSame(s, r, {l.t})
  {
  }

  // ----- the lookup, and the ladder -----

  /** A channel session key, by its prefix. */
  predicate ChannelKey(key: string) {
    "slack:" <= key || "discord:" <= key || "telegram:" <= key || "whatsapp:" <= key || "unified:" <= key
  }

  predicate OnSlot(s: State, slot: string, id: LoopId) {
    id in s.reg && id in s.objs && s.objs[id].slot == slot
  }

  predicate OnTab(s: State, slot: string, id: LoopId) {
    id in s.reg && id in s.objs && ChannelKey(s.objs[id].slot) && s.objs[id].tab == slot
  }

  /** The lookup finds a registered loop of the slot; only if there is none, and the slot is a name and no channel
      key, one of a channel whose folded key it is; and nothing only if there is neither. */
  lemma LookupIs(s: State, slot: string, hit: Option<LoopId>)
    ensures hit.Some? ==>
      (Finds(s, slot, hit) <==>
        || OnSlot(s, slot, hit.value)
        || (slot != "" && !ChannelKey(slot) && OnTab(s, slot, hit.value) && forall j :: !OnSlot(s, slot, j)))
    ensures hit.None? ==>
      (Finds(s, slot, hit) <==>
        (forall j :: !OnSlot(s, slot, j)) && (slot == "" || ChannelKey(slot) || forall j :: !OnTab(s, slot, j)))
  {
    forall j ensures ExactMatch(s, slot, j) <==> OnSlot(s, slot, j) {}
    forall j ensures TabMatch(s, slot, j) <==> slot != "" && !ChannelKey(slot) && OnTab(s, slot, j) {}
  }

  /** The delays of a streak: 15 seconds, doubling up to 300, and never more than the idle time. */
  lemma LadderIs(n: nat, idle: int)
    requires n >= 1
    ensures var rung := if n == 1 then 15 else if n == 2 then 30 else if n == 3 then 60 else if n == 4 then 120
        else if n == 5 then 240 else 300;
      Backoff(n, idle) == if rung <= idle then rung else idle
  {
    assert Pow2(1) == 2 && Pow2(2) == 4 && Pow2(3) == 8 && Pow2(4) == 16 && Pow2(5) == 32;
    if n >= 6 { Pow2Monotone(5, Min(n - 1, REARM_BACKOFF_MAX_SHIFT)); }
  }
}

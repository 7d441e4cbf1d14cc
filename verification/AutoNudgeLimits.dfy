/** Where the guarantees end: a lock given back early, and an add() that completes over a fire window of its
    own loop. */
module AutoNudgeLimits {
  import opened Options
  import opened AutoNudgeProtocol
  import opened AutoNudgeInvariant
  import opened AutoNudgeTasks
  import opened AutoNudgeSteps
  import opened AutoNudgeStoreSteps
  import opened AutoNudgeLog
  import opened AutoNudgeTheorems
  import opened AutoNudgeRearm

  /** `r` follows from `s` by an enabled step. */
  ghost predicate Step(s: State, l: Label, r: State) {
    Enabled(s, l) && Apply(s, l) == r
  }

  /** The steps `ls`, one after the other, lead from `s` to `r`. */
  ghost predicate Leads(s: State, ls: seq<Label>, r: State)
    decreases |ls|
  {
    if ls == [] then r == s else Enabled(s, ls[0]) && Leads(Apply(s, ls[0]), ls[1..], r)
  }

  lemma LeadsFrom(s: State, l: Label, ls: seq<Label>, r: State)
    requires Enabled(s, l) && Leads(Apply(s, l), ls, r)
    ensures Leads(s, [l] + ls, r)
  {
    hide Apply, Enabled;
    assert ([l] + ls)[1..] == ls;
  }

  lemma LeadsOne(s: State, l: Label)
    requires Enabled(s, l)
    ensures Leads(s, [l], Apply(s, l))
  {
    hide Apply, Enabled;
    assert [l][1..] == [];
    assert Leads(Apply(s, l), [], Apply(s, l));
  }

  lemma {:induction false} LeadsOn(s: State, a: seq<Label>, m: State, b: seq<Label>, r: State)
    requires Leads(s, a, m) && Leads(m, b, r)
    ensures Leads(s, a + b, r)
    decreases |a|
  {
    hide Apply, Enabled;
    if a == [] {
      assert a + b == b;
    } else {
      LeadsOn(Apply(s, a[0]), a[1..], m, b, r);
      assert (a + b)[0] == a[0] && (a + b)[1..] == a[1..] + b;
    }
  }

  // ----- remove() cancelled again while it drains -----

  /** A second cancellation waits to be delivered to remove() while the write it drains is still in flight. */
  predicate CancelsDrain(s: State, t: TaskId) {
    t in s.tasks && s.tasks[t].cancel && s.tasks[t].pc.RemoveDrain? && !Settled(s, s.tasks[t].pc.w)
  }

  const PAUSED_LOOP := NudgeLoop("chat-1", "chat-1", "go", 60, 0, 0, false, 0, "")
  const BOTH: Payload := map[1 := PAUSED_LOOP, 2 := PAUSED_LOOP]
  const SECOND: Payload := map[2 := PAUSED_LOOP]

  function Drain(reg: set<LoopId>, lock: Option<TaskId>, tasks: map<TaskId, Task>, next: TaskId,
                 snaps: seq<Payload>, writes: seq<WriteStatus>, landed: seq<nat>, disk: Payload): State
  {
    State(BOTH, reg, map[], map[], {}, map[], lock, tasks, next, snaps, writes, landed, disk, {})
  }

  function Remover(pc: Pc, cancel: bool): Task {
    Task(Caller, pc, cancel)
  }

  const DRAIN_0: State := Drain({1, 2}, None, map[], 0, [BOTH], [Landed], [0], BOTH)
  const DRAIN_1: State := Drain({1, 2}, None, map[0 := Remover(RemoveWait(1, false), false)], 1, [BOTH], [Landed], [0], BOTH)
  const DRAIN_2: State := Drain({1, 2}, None, map[0 := Remover(RemoveWait(1, false), false), 1 := Remover(RemoveWait(2, false), false)], 2, [BOTH], [Landed], [0], BOTH)
  const DRAIN_3: State := Drain({2}, Some(0), map[0 := Remover(RemoveWrite(1, false), false), 1 := Remover(RemoveWait(2, false), false)], 2, [BOTH, SECOND], [Landed, Pending], [0], BOTH)
  const DRAIN_4: State := Drain({2}, Some(0), map[0 := Remover(RemoveWrite(1, false), true), 1 := Remover(RemoveWait(2, false), false)], 2, [BOTH, SECOND], [Landed, Pending], [0], BOTH)
  const DRAIN_5: State := Drain({2}, Some(0), map[0 := Remover(RemoveDrain(1, false), false), 1 := Remover(RemoveWait(2, false), false)], 2, [BOTH, SECOND], [Landed, Pending], [0], BOTH)
  const DRAIN_6: State := Drain({2}, Some(0), map[0 := Remover(RemoveDrain(1, false), true), 1 := Remover(RemoveWait(2, false), false)], 2, [BOTH, SECOND], [Landed, Pending], [0], BOTH)
  const DRAIN_7: State := Drain({2}, None, map[0 := Remover(Finished(false), false), 1 := Remover(RemoveWait(2, false), false)], 2, [BOTH, SECOND], [Landed, Pending], [0], BOTH)
  const DRAIN_8: State := Drain({}, Some(1), map[0 := Remover(Finished(false), false), 1 := Remover(RemoveWrite(2, false), false)], 2, [BOTH, SECOND, map[]], [Landed, Pending, Pending], [0], BOTH)
  const DRAIN_9: State := Drain({}, Some(1), map[0 := Remover(Finished(false), false), 1 := Remover(RemoveWrite(2, false), false)], 2, [BOTH, SECOND, map[]], [Landed, Pending, Landed], [0, 2], map[])
  const DRAIN_10: State := Drain({}, Some(1), map[0 := Remover(Finished(false), false), 1 := Remover(RemoveWrite(2, false), false)], 2, [BOTH, SECOND, map[]], [Landed, Landed, Landed], [0, 2, 1], SECOND)
  const DRAIN_11: State := Drain({}, None, map[0 := Remover(Finished(false), false), 1 := Remover(Finished(true), false)], 2, [BOTH, SECOND, map[]], [Landed, Landed, Landed], [0, 2, 1], SECOND)

  lemma DrainStep1()
    ensures Step(DRAIN_0, RemoveCall(1), DRAIN_1)
  {
    var r := Apply(DRAIN_0, RemoveCall(1));
    assert r.tasks == DRAIN_1.tasks;
    assert r.next == DRAIN_1.next;
    assert r == DRAIN_0.(tasks := r.tasks, next := r.next);
    assert DRAIN_1 == DRAIN_0.(tasks := DRAIN_1.tasks, next := DRAIN_1.next);
  }

  lemma DrainStep2()
    ensures Step(DRAIN_1, RemoveCall(2), DRAIN_2)
  {
    var r := Apply(DRAIN_1, RemoveCall(2));
    assert r.tasks.Keys == {0, 1} == DRAIN_2.tasks.Keys;
    assert r.tasks[0] == DRAIN_2.tasks[0] && r.tasks[1] == DRAIN_2.tasks[1];
    assert r.tasks == DRAIN_2.tasks;
    assert r.next == DRAIN_2.next;
    assert r == DRAIN_1.(tasks := r.tasks, next := r.next);
    assert DRAIN_2 == DRAIN_1.(tasks := DRAIN_2.tasks, next := DRAIN_2.next);
  }

  lemma DrainStep3()
    ensures Step(DRAIN_2, RemoveBegin(0), DRAIN_3)
  {
    var r := Apply(DRAIN_2, RemoveBegin(0));
    assert Live(DRAIN_2.(reg := {2})) == SECOND;
    assert r.reg == DRAIN_3.reg;
    assert r.lock == DRAIN_3.lock;
    assert r.tasks == DRAIN_3.tasks;
    assert r.snaps == DRAIN_3.snaps;
    assert r.writes == DRAIN_3.writes;
    assert r == DRAIN_2.(reg := r.reg, lock := r.lock, tasks := r.tasks, snaps := r.snaps, writes := r.writes);
    assert DRAIN_3 == DRAIN_2.(reg := DRAIN_3.reg, lock := DRAIN_3.lock, tasks := DRAIN_3.tasks, snaps := DRAIN_3.snaps, writes := DRAIN_3.writes);
  }

  lemma DrainStep4()
    ensures Step(DRAIN_3, CancelCaller(0), DRAIN_4)
  {
    var r := Apply(DRAIN_3, CancelCaller(0));
    assert r.tasks == DRAIN_4.tasks;
    assert r == DRAIN_3.(tasks := r.tasks);
    assert DRAIN_4 == DRAIN_3.(tasks := DRAIN_4.tasks);
  }

  lemma DrainStep5()
    ensures Step(DRAIN_4, DeliverCancel(0), DRAIN_5)
  {
    var r := Apply(DRAIN_4, DeliverCancel(0));
    assert r.tasks == DRAIN_5.tasks;
    assert r == DRAIN_4.(tasks := r.tasks);
    assert DRAIN_5 == DRAIN_4.(tasks := DRAIN_5.tasks);
  }

  lemma DrainStep6()
    ensures Step(DRAIN_5, CancelCaller(0), DRAIN_6)
  {
    var r := Apply(DRAIN_5, CancelCaller(0));
    assert r.tasks == DRAIN_6.tasks;
    assert r == DRAIN_5.(tasks := r.tasks);
    assert DRAIN_6 == DRAIN_5.(tasks := DRAIN_6.tasks);
  }

  lemma DrainStep7()
    ensures Step(DRAIN_6, DeliverCancel(0), DRAIN_7)
  {
    var r := Apply(DRAIN_6, DeliverCancel(0));
    assert r.lock == DRAIN_7.lock;
    assert r.tasks == DRAIN_7.tasks;
    assert r == DRAIN_6.(lock := r.lock, tasks := r.tasks);
    assert DRAIN_7 == DRAIN_6.(lock := DRAIN_7.lock, tasks := DRAIN_7.tasks);
  }

  lemma DrainStep8()
    ensures Step(DRAIN_7, RemoveBegin(1), DRAIN_8)
  {
    var r := Apply(DRAIN_7, RemoveBegin(1));
    assert Live(DRAIN_7.(reg := {})) == map[];
    assert r.reg == DRAIN_8.reg;
    assert r.lock == DRAIN_8.lock;
    assert r.tasks == DRAIN_8.tasks;
    assert r.snaps == DRAIN_8.snaps;
    assert r.writes == DRAIN_8.writes;
    assert r == DRAIN_7.(reg := r.reg, lock := r.lock, tasks := r.tasks, snaps := r.snaps, writes := r.writes);
    assert DRAIN_8 == DRAIN_7.(reg := DRAIN_8.reg, lock := DRAIN_8.lock, tasks := DRAIN_8.tasks, snaps := DRAIN_8.snaps, writes := DRAIN_8.writes);
  }

  lemma DrainStep9()
    ensures Step(DRAIN_8, WriteLands(2), DRAIN_9)
  {
    var r := Apply(DRAIN_8, WriteLands(2));
    assert r.writes == DRAIN_9.writes;
    assert r.landed == DRAIN_9.landed;
    assert r.disk == DRAIN_9.disk;
    assert r == DRAIN_8.(writes := r.writes, landed := r.landed, disk := r.disk);
    assert DRAIN_9 == DRAIN_8.(writes := DRAIN_9.writes, landed := DRAIN_9.landed, disk := DRAIN_9.disk);
  }

  lemma DrainStep10()
    ensures Step(DRAIN_9, WriteLands(1), DRAIN_10)
  {
    var r := Apply(DRAIN_9, WriteLands(1));
    assert r.writes == DRAIN_10.writes;
    assert r.landed == DRAIN_10.landed;
    assert r.disk == DRAIN_10.disk;
    assert r == DRAIN_9.(writes := r.writes, landed := r.landed, disk := r.disk);
    assert DRAIN_10 == DRAIN_9.(writes := DRAIN_10.writes, landed := DRAIN_10.landed, disk := DRAIN_10.disk);
  }

  lemma DrainStep11()
    ensures Step(DRAIN_10, RemoveFinish(1), DRAIN_11)
  {
    var r := Apply(DRAIN_10, RemoveFinish(1));
    assert r.lock == DRAIN_11.lock;
    assert r.tasks == DRAIN_11.tasks;
    assert r == DRAIN_10.(lock := r.lock, tasks := r.tasks);
    assert DRAIN_11 == DRAIN_10.(lock := DRAIN_11.lock, tasks := DRAIN_11.tasks);
  }

  lemma DrainEnds()
    ensures Init(DRAIN_0)
    ensures CancelsDrain(DRAIN_6, 0) && !CancelsDrain(DRAIN_4, 0)
    ensures DRAIN_11.lock.None? && forall w :: 0 <= w < |DRAIN_11.writes| ==> DRAIN_11.writes[w].Landed?
    ensures DRAIN_11.disk != DRAIN_11.snaps[|DRAIN_11.snaps| - 1] && 2 !in DRAIN_11.reg && 2 in DRAIN_11.disk
  {
    assert Live(DRAIN_0) == BOTH;
  }

  /** A run from a freshly loaded service in which the only lock given back early is that of the second
      cancellation.  It ends with the lock free and every write on disk, yet the file holds the
      older of the two removals: loop 2 is back after a restart. */
  lemma DrainCancelledAgainLosesUpdate()
    ensures Init(DRAIN_0)
    ensures Step(DRAIN_0, RemoveCall(1), DRAIN_1)
    ensures Step(DRAIN_1, RemoveCall(2), DRAIN_2)
    ensures Step(DRAIN_2, RemoveBegin(0), DRAIN_3)
    ensures Step(DRAIN_3, CancelCaller(0), DRAIN_4)
    ensures Step(DRAIN_4, DeliverCancel(0), DRAIN_5)
    ensures Step(DRAIN_5, CancelCaller(0), DRAIN_6)
    ensures Step(DRAIN_6, DeliverCancel(0), DRAIN_7)
    ensures Step(DRAIN_7, RemoveBegin(1), DRAIN_8)
    ensures Step(DRAIN_8, WriteLands(2), DRAIN_9)
    ensures Step(DRAIN_9, WriteLands(1), DRAIN_10)
    ensures Step(DRAIN_10, RemoveFinish(1), DRAIN_11)
    ensures CancelsDrain(DRAIN_6, 0) && !CancelsDrain(DRAIN_4, 0)
    ensures DRAIN_11.lock.None? && forall w :: 0 <= w < |DRAIN_11.writes| ==> DRAIN_11.writes[w].Landed?
    ensures DRAIN_11.disk != DRAIN_11.snaps[|DRAIN_11.snaps| - 1] && 2 !in DRAIN_11.reg && 2 in DRAIN_11.disk
  {
    hide Step, Apply, Enabled;
    DrainEnds();
    DrainStep1();
    DrainStep2();
    DrainStep3();
    DrainStep4();
    DrainStep5();
    DrainStep6();
    DrainStep7();
    DrainStep8();
    DrainStep9();
    DrainStep10();
    DrainStep11();
  }

  /** The lock goes on covering every unsettled write after the cancellation of a drain exactly when the drained
      write has settled. */
  lemma DrainCancelKeepsOrderIff(s: State, t: TaskId)
    requires Inv(s) && Covered(s) && Enabled(s, DeliverCancel(t)) && s.tasks[t].pc.RemoveDrain?
    ensures Covered(Apply(s, DeliverCancel(t))) <==> Settled(s, s.tasks[t].pc.w)
  {
    UseStore(s, t, 0);
    DrainEndsIs(s, DeliverCancel(t));
  }

  lemma SomeMatch(s: State, slot: string) returns (hit: Option<LoopId>)
    ensures Finds(s, slot, hit)
  {
    if j :| ExactMatch(s, slot, j) {
      hit := Some(j);
    } else if j :| TabMatch(s, slot, j) {
      hit := Some(j);
    } else {
      hit := None;
    }
  }

  lemma {:induction false} NewId(ids: set<LoopId>) returns (id: LoopId)
    ensures forall j :: j in ids ==> j < id
  {
    if ids == {} {
      id := 0;
    } else {
      var x :| x in ids;
      var top := NewId(ids - {x});
      id := if x < top then top else x + 1;
      forall j | j in ids ensures j < id { assert j == x || j in ids - {x}; }
    }
  }

  /** The store between the early release and the end: write `w` is still in flight, and the lock free. */
  ghost predicate InFlight(s: State, w: nat) {
    && s.lock.None? && |s.writes| == |s.snaps| && w == |s.snaps| - 1 && s.writes[w].Pending?
    && forall u :: u in s.tasks ==> u < s.next
  }

  lemma ReleasedInFlight(s: State, l: Label)
    requires Inv(s) && Enabled(s, l) && ReleasesEarly(s, l)
    ensures var r := Apply(s, l);
      InFlight(r, |s.writes| - 1) && r.snaps == s.snaps && forall id :: id !in r.objs ==> id !in s.snaps[|s.writes| - 1]
  {
    hide Inv, Apply, Enabled;
    var r := Apply(s, l);
    InvStep(s, l);
    InvFacts(s, 0);
    ReleasesEarlyIff(s, l);
    StepLog(s, l);
    forall u | u in r.tasks ensures u < r.next { InvFacts(r, u); }
    forall id | id !in r.objs ensures id !in s.snaps[|s.writes| - 1] { InvFacts(r, id); }
  }

  lemma InvFacts(s: State, k: nat)
    requires Inv(s)
    ensures |s.snaps| == |s.writes| >= 1 && (k in s.tasks ==> k < s.next)
    ensures k !in s.objs ==> k !in s.snaps[|s.snaps| - 1]
  {
    UseStore(s, k, k);
    UseCore(s, k, k);
  }

  /** An add() begins meanwhile: its write is number `w` + 1. */
  lemma AddBeginsOver(s: State, w: nat, args: AddArgs, existing: Option<LoopId>, id: LoopId)
    requires InFlight(s, w) && id !in s.objs && Finds(Apply(s, AddCall(args)), args.slot, existing)
    ensures var c := Apply(s, AddCall(args));
      var l := AddBegin(s.next, existing, id);
      && Enabled(c, l)
      && var r := Apply(c, l);
         && s.next in r.tasks && r.tasks[s.next].pc == AddWrite(w + 1, id) && !r.tasks[s.next].cancel
         && id in r.objs && id in r.reg && r.lock == Some(s.next)
         && |r.snaps| == w + 2 && r.snaps[w] == s.snaps[w] && id in r.snaps[w + 1]
         && r.writes == s.writes + [Pending]
  {
    var c := Apply(s, AddCall(args));
    var n := s.next;
    assert c.tasks[n] == Task(Inner, AddWait(args), false);
    var r := if existing.Some? then RemoveSync(c, existing.value, Some(n)) else c;
    if existing.Some? { RemovalKeepsRunner(c, existing.value, n); }
    assert r.snaps == s.snaps && r.writes == s.writes && r.objs == s.objs && r.lock == None && r.tasks[n] == c.tasks[n];
  }

  lemma LandingIs(s: State, w: nat)
    requires w < |s.writes| && w < |s.snaps| && s.writes[w].Pending?
    ensures Enabled(s, WriteLands(w))
    ensures Apply(s, WriteLands(w)) == s.(writes := s.writes[w := Landed], landed := s.landed + [w], disk := s.snaps[w])
  {
  }

  lemma AddCompletes(s: State, n: TaskId)
    requires n in s.tasks && s.tasks[n].pc.AddWrite? && !s.tasks[n].cancel && s.tasks[n].pc.id in s.objs
    requires s.tasks[n].pc.w < |s.writes| && s.writes[s.tasks[n].pc.w].Landed?
    ensures Enabled(s, AddFinish(n))
    ensures var r := Apply(s, AddFinish(n)); SameLog(s, r) && r.lock.None? && r.reg == s.reg
  {
    hide CancelTimer, Finds;
    var id := s.tasks[n].pc.id;
    var armed := ArmTimer(Noted(Release(s), id), id, s.objs[id].idle, Some(n));
    assert armed.reg == s.reg && armed.lock == None && SameLog(s, armed);
  }

  /** It completes while write `w` is still in flight, and then write `w` lands on top of it. */
  lemma OldWriteLandsLast(r: State, w: nat, n: TaskId, id: LoopId)
    requires |r.snaps| == |r.writes| == w + 2 && r.writes[w].Pending? && r.writes[w + 1].Pending?
    requires n in r.tasks && r.tasks[n].pc == AddWrite(w + 1, id) && !r.tasks[n].cancel && id in r.objs && id in r.reg
    ensures Enabled(r, WriteLands(w + 1))
    ensures var a := Apply(r, WriteLands(w + 1));
      Enabled(a, AddFinish(n))
      && var b := Apply(a, AddFinish(n));
         Enabled(b, WriteLands(w))
         && var e := Apply(b, WriteLands(w));
            e.lock.None? && e.writes[w + 1].Landed? && |e.writes| == w + 2 && e.snaps == r.snaps && e.disk == r.snaps[w] && id in e.reg
  {
    hide Apply, Enabled;
    LandingIs(r, w + 1);
    var a := Apply(r, WriteLands(w + 1));
    AddCompletes(a, n);
    LandingIs(Apply(a, AddFinish(n)), w);
  }

  /** Every lock given back early can lose an update: whatever loop a client then adds, there is a run in which
      add() returns with its write on disk and the lock free, and yet the file is the older payload and a restart
      does not know the loop. */
  lemma EarlyReleaseLosesUpdate(s: State, l: Label, args: AddArgs) returns (ls: seq<Label>, e: State, id: LoopId)
    requires Inv(s) && Enabled(s, l) && ReleasesEarly(s, l)
    ensures |ls| == 5 && Leads(Apply(s, l), ls, e)
    ensures e.lock.None? && |e.writes| == |e.snaps| >= 1 && e.writes[|e.writes| - 1].Landed?
    ensures id in e.reg && id in e.snaps[|e.snaps| - 1] && id !in e.disk
  {
    hide Apply, Enabled, Inv, Finds;
    var w := |s.writes| - 1;
    var r := Apply(s, l);
    ReleasedInFlight(s, l);
    AddCallEnabled(r, args);
    var c := Apply(r, AddCall(args));
    var existing := SomeMatch(c, args.slot);
    id := NewId(r.objs.Keys);
    AddBeginsOver(r, w, args, existing, id);
    var b := Apply(c, AddBegin(r.next, existing, id));
    OldWriteLandsLast(b, w, r.next, id);
    var x := Apply(b, WriteLands(w + 1));
    var y := Apply(x, AddFinish(r.next));
    e := Apply(y, WriteLands(w));
    ls := [WriteLands(w)];
    LeadsOne(y, WriteLands(w));
    LeadsFrom(x, AddFinish(r.next), ls, e);
    ls := [AddFinish(r.next)] + ls;
    LeadsFrom(b, WriteLands(w + 1), ls, e);
    ls := [WriteLands(w + 1)] + ls;
    LeadsFrom(c, AddBegin(r.next, existing, id), ls, e);
    ls := [AddBegin(r.next, existing, id)] + ls;
    LeadsFrom(r, AddCall(args), ls, e);
    ls := [AddCall(args)] + ls;
  }

  lemma AddCallEnabled(s: State, args: AddArgs)
    ensures Enabled(s, AddCall(args))
  {
  }

  // ----- add() completing over an open fire window -----

  const GO := AddArgs("chat-1", "chat-1", "go", 15, 0, "")
  const ADDED: Payload := map[7 := NewLoop(GO)]

  function Adding(timers: map<LoopId, TaskId>, firing: map<LoopId, TaskId>, lock: Option<TaskId>, tasks: map<TaskId, Task>,
                  next: TaskId, status: WriteStatus, doubled: set<LoopId>): State
  {
    State(ADDED, {7}, timers, firing, {}, map[], lock, tasks, next, [map[], ADDED],
          [Landed, status], if status.Landed? then [0, 1] else [0], if status.Landed? then ADDED else map[], doubled)
  }

  function Empty(tasks: map<TaskId, Task>, next: TaskId): State {
    State(map[], {}, map[], map[], {}, map[], None, tasks, next, [map[]], [Landed], [0], map[], {})
  }

  const ADDING_0: State := Empty(map[], 0)
  const ADDING_1: State := Empty(map[0 := Task(Inner, AddWait(GO), false), 1 := Task(Caller, Awaiting(0), false)], 2)
  const ADDING_2: State := Adding(map[], map[], Some(0), map[0 := Task(Inner, AddWrite(1, 7), false), 1 := Task(Caller, Awaiting(0), false)], 2, Pending, {})
  const ADDING_3: State := Adding(map[7 := 2], map[], Some(0), map[0 := Task(Inner, AddWrite(1, 7), false), 1 := Task(Caller, Awaiting(0), false), 2 := Task(Timer(7), Sleeping(15), false)], 3, Pending, {})
  const ADDING_4: State := Adding(map[7 := 2], map[7 := 2], Some(0), map[0 := Task(Inner, AddWrite(1, 7), false), 1 := Task(Caller, Awaiting(0), false), 2 := Task(Timer(7), InCallback, false)], 3, Pending, {})
  const ADDING_5: State := Adding(map[7 := 2], map[7 := 2], Some(0), map[0 := Task(Inner, AddWrite(1, 7), false), 1 := Task(Caller, Awaiting(0), false), 2 := Task(Timer(7), InCallback, false)], 3, Landed, {})
  const ADDING_6: State := Adding(map[7 := 3], map[7 := 2], None, map[0 := Task(Inner, Finished(true), false), 1 := Task(Caller, Awaiting(0), false), 2 := Task(Timer(7), InCallback, true), 3 := Task(Timer(7), Sleeping(15), false)], 4, Landed, {7})
  const ADDING_7: State := Adding(map[7 := 3], map[7 := 3], None, map[0 := Task(Inner, Finished(true), false), 1 := Task(Caller, Awaiting(0), false), 2 := Task(Timer(7), InCallback, true), 3 := Task(Timer(7), InCallback, false)], 4, Landed, {7})

  lemma AddingStep1()
    ensures Step(ADDING_0, AddCall(GO), ADDING_1)
  {
    assert ADDING_0.tasks[0 := Task(Inner, AddWait(GO), false)][1 := Task(Caller, Awaiting(0), false)] == ADDING_1.tasks;
  }

  lemma AddingStep2()
    ensures Step(ADDING_1, AddBegin(0, None, 7), ADDING_2)
  {
    assert map[][7 := NewLoop(GO)] == ADDED;
    assert Live(ADDING_1.(objs := ADDED, reg := {7})) == ADDED;
    assert ADDING_1.reg + {7} == {7};
  }

  lemma AddingStep3()
    ensures Step(ADDING_2, NotifyTurn("chat-1", Some(7)), ADDING_3)
  {
    assert ExactMatch(ADDING_2, "chat-1", 7);
  }

  lemma AddingStep4()
    ensures Step(ADDING_3, TimerWake(2, Run(true)), ADDING_4)
  {
  }

  lemma AddingStep5()
    ensures Step(ADDING_4, WriteLands(1), ADDING_5)
  {
  }

  lemma AddingStep6()
    ensures Step(ADDING_5, AddFinish(0), ADDING_6)
  {
    var c := CancelTimer(Noted(Release(ADDING_5), 7), 7, Some(0));
    assert c == Noted(Release(ADDING_5), 7).(timers := map[], tasks := ADDING_5.tasks[2 := ADDING_5.tasks[2].(cancel := true)]);
    assert SetPc(ArmTimer(Noted(Release(ADDING_5), 7), 7, ADDED[7].idle, Some(0)), 0, Finished(true)).tasks == ADDING_6.tasks;
  }

  lemma AddingStep7()
    ensures Step(ADDING_6, TimerWake(3, Run(true)), ADDING_7)
  {
  }

  /** A run in which a completing add() doubles its loop: it cancels the fire of its
      own loop, which is still registered, and a second task enters the fire window beside it. */
  lemma AddOverWindowCancelsFire()
    ensures Init(ADDING_0)
    ensures Step(ADDING_0, AddCall(GO), ADDING_1)
    ensures Step(ADDING_1, AddBegin(0, None, 7), ADDING_2)
    ensures Step(ADDING_2, NotifyTurn("chat-1", Some(7)), ADDING_3)
    ensures Step(ADDING_3, TimerWake(2, Run(true)), ADDING_4)
    ensures Step(ADDING_4, WriteLands(1), ADDING_5)
    ensures Step(ADDING_5, AddFinish(0), ADDING_6)
    ensures Step(ADDING_6, TimerWake(3, Run(true)), ADDING_7)
    ensures ArmsOverWindow(ADDING_5, AddFinish(0))
    ensures FirePc(ADDING_6.tasks[2].pc) && ADDING_6.tasks[2].cancel && 7 in ADDING_6.reg
    ensures FirePc(ADDING_7.tasks[2].pc) && FirePc(ADDING_7.tasks[3].pc) && IsTimer(ADDING_7, 2, 7) && IsTimer(ADDING_7, 3, 7)
  {
    assert Live(ADDING_0) == map[];
    AddingStep1();
    AddingStep2();
    AddingStep3();
    AddingStep4();
    AddingStep5();
    AddingStep6();
    AddingStep7();
  }

  lemma ArmTouches(s: State, id: LoopId, delay: int, t: TaskId)
    requires t in s.tasks && t < s.next && !s.tasks[t].pc.Finished?
    ensures var a := ArmTimer(s, id, delay, None);
      t in a.tasks && a.tasks[t] == s.tasks[t].(cancel := s.tasks[t].cancel || (id in s.timers && s.timers[id] == t))
  {
  }

  /** Exactly then: a completing add() cancels a task inside its fire window if and only if that
      window is of its own loop and its write is on disk. */
  lemma AddCancelsFireIff(s: State, l: Label, t: TaskId)
    requires Inv(s) && Enabled(s, l) && l.AddFinish?
    requires t in s.tasks && s.tasks[t].kind.Timer? && FirePc(s.tasks[t].pc) && !s.tasks[t].cancel
    ensures t in Apply(s, l).tasks
    ensures Apply(s, l).tasks[t].cancel <==> ArmsOverWindow(s, l) && s.firing[s.tasks[l.t].pc.id] == t
  {
    hide Core, Store, MirrorOk, LockOk, ArmTimer, CancelTimer;
    var id := s.tasks[l.t].pc.id;
    UseCore(s, t, id);
    UseCore(s, l.t, id);
    UseStore(s, l.t, id);
    if id in s.firing { WindowTimerIsOwn(s, id); }
    if !s.writes[s.tasks[l.t].pc.w].Failed? {
      AddFinishIs(s, l);
      ArmTouches(Noted(SetPc(Release(s), l.t, Finished(true)), id), id, s.objs[id].idle, t);
    }
  }
}

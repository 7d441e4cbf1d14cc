/** What an add() that completes over a fire window of its own loop breaks. It cancels the open fire and arms a
    second timer beside it. If the fire is still in its callback, and so may outlast its cancellation, the pause,
    the store and the cycle cap can each be broken from every such state; if it only waits to be recorded, its
    cancellation ends it and the timers are in order again. */
module AutoNudgeOverlap {
  import opened Options
  import opened AutoNudgeProtocol
  import opened AutoNudgeInvariant
  import opened AutoNudgeTasks
  import opened AutoNudgeSteps
  import opened AutoNudgeStoreSteps
  import opened AutoNudgeLog
  import opened AutoNudgeTheorems
  import opened AutoNudgePacing
  import opened AutoNudgeRearm
  import opened AutoNudgeLimits

  /** The add() of task `n` can complete over an open fire window of its own loop. */
  ghost predicate CanDouble(s: State, n: TaskId) {
    Inv(s) && Enabled(s, AddFinish(n)) && ArmsOverWindow(s, AddFinish(n))
  }

  /** The loop, and the task whose window is open. */
  ghost function LoopOf(s: State, n: TaskId): LoopId
    requires CanDouble(s, n)
  {
    s.tasks[n].pc.id
  }

  ghost function FireOf(s: State, n: TaskId): (o: TaskId)
    requires CanDouble(s, n)
    ensures IsTimer(s, o, LoopOf(s, n))
  {
    UseCore(s, 0, s.tasks[n].pc.id);
    s.firing[s.tasks[n].pc.id]
  }

  /** That task is still in its callback, not waiting for its fire to be recorded. */
  ghost predicate StillInCallback(s: State, n: TaskId) {
    CanDouble(s, n) && !s.tasks[FireOf(s, n)].pc.PersistWait?
  }

  /** Task `o` is in the callback of loop `id`'s open window, and timer `t` of the loop sleeps beside it. */
  predicate Beside(s: State, id: LoopId, o: TaskId, t: TaskId) {
    && id in s.reg && id in s.objs && id in s.firing && s.firing[id] == o && id in s.timers && s.timers[id] == t
    && IsTimer(s, o, id) && s.tasks[o].pc.InCallback? && !s.tasks[o].cancel
    && IsTimer(s, t, id) && s.tasks[t].pc.Sleeping? && !s.tasks[t].cancel
    && o < s.next && t < s.next && |s.snaps| == |s.writes|
  }

  // ----- the add() completes -----

  lemma OpenFire(s: State, n: TaskId)
    requires CanDouble(s, n)
    ensures var id, o := LoopOf(s, n), FireOf(s, n);
      && id in s.reg && id in s.objs && id !in s.doubled && s.objs[id].active && s.objs[id].cycles >= 0
      && IsTimer(s, o, id) && !s.tasks[o].cancel && id in s.timers && s.timers[id] == o && o != n
      && (s.tasks[o].pc.InCallback? || s.tasks[o].pc.PersistWait? || (s.tasks[o].pc.RemoveWait? && s.tasks[o].pc.nested))
      && o < s.next && n < s.next && |s.snaps| == |s.writes|
  {
    var id, o := LoopOf(s, n), FireOf(s, n);
    UseCore(s, n, id);
    UseCore(s, o, id);
    UseStore(s, n, id);
    UseStore(s, o, id);
  }

  /** The state then: the fire is told to stop, and a new timer sleeps. */
  lemma DoublingIs(s: State, n: TaskId)
    requires CanDouble(s, n)
    ensures var id, o := LoopOf(s, n), FireOf(s, n);
      var r := Apply(s, AddFinish(n));
      && r == s.(timers := s.timers[id := s.next], lock := None, next := s.next + 1, doubled := s.doubled + {id}, tasks := r.tasks)
      && r.tasks == s.tasks[n := Task(s.tasks[n].kind, Finished(true), false)][o := s.tasks[o].(cancel := true)]
                           [s.next := Task(Timer(id), Sleeping(s.objs[id].idle), false)]
  {
    hide Core, Store, Finds;
    OpenFire(s, n);
    AddFinishIs(s, AddFinish(n));
    var id, o := LoopOf(s, n), FireOf(s, n);
    var p := Noted(SetPc(Release(s), n, Finished(true)), id);
    var c := CancelTimer(p, id, None);
    assert c == p.(timers := s.timers - {id}, tasks := p.tasks[o := s.tasks[o].(cancel := true)]);
    assert (s.timers - {id})[id := s.next] == s.timers[id := s.next];
  }

  /** Once its cancellation is delivered, a fire still in its callback goes on there. */
  lemma DoubledBeside(s: State, n: TaskId)
    requires StillInCallback(s, n)
    ensures var id, o := LoopOf(s, n), FireOf(s, n);
      var d := Apply(s, AddFinish(n));
      && Enabled(d, DeliverCancel(o))
      && var r := Apply(d, DeliverCancel(o));
         && Inv(r) && Beside(r, id, o, s.next) && r.lock.None? && r.objs == s.objs && r.doubled == s.doubled + {id}
  {
    hide Core, Store, Finds, MirrorOk, HolderOk, TimerOk, CancelTimer, ArmTimer, CloseWindow;
    OpenFire(s, n);
    DoublingIs(s, n);
    var o := FireOf(s, n);
    var d := Apply(s, AddFinish(n));
    InvStep(s, AddFinish(n));
    DeliverInPlaceIs(d, DeliverCancel(o));
    InvStep(d, DeliverCancel(o));
  }

  // ----- when the cancelled fire only waited to be recorded -----

  lemma ArmIgnoresHistory(s: State, id: LoopId, delay: int, doubled: set<LoopId>)
    ensures ArmTimer(s.(doubled := doubled), id, delay, None) == ArmTimer(s, id, delay, None).(doubled := doubled)
  {
  }

  /** Closing the window before the add() completes or after it makes no difference but for the history. */
  lemma CloseCommutes(s: State, n: TaskId)
    requires CanDouble(s, n) && !StillInCallback(s, n)
    ensures var id, o := LoopOf(s, n), FireOf(s, n);
      var c := Closed(s, o, id, false);
      && o in Apply(s, AddFinish(n)).tasks && n in c.tasks
      && Closed(Apply(s, AddFinish(n)), o, id, false)
         == ArmTimer(SetPc(Release(c), n, Finished(true)), id, s.objs[id].idle, None).(doubled := s.doubled + {id})
  {
    hide Core, Store, Finds, Apply;
    OpenFire(s, n);
    DoublingIs(s, n);
    var id, o := LoopOf(s, n), FireOf(s, n);
    var m := SetPc(Release(Closed(s, o, id, false)), n, Finished(true));
    assert CancelTimer(m, id, None) == m.(timers := s.timers - {id});
    assert (s.timers - {id})[id := s.next] == s.timers[id := s.next];
    assert Closed(Apply(s, AddFinish(n)), o, id, false).tasks == ArmTimer(m, id, s.objs[id].idle, None).tasks;
  }

  lemma RecordWaiterHeals(s: State, n: TaskId)
    requires CanDouble(s, n) && !StillInCallback(s, n)
    ensures Enabled(Apply(s, AddFinish(n)), DeliverCancel(FireOf(s, n)))
    ensures Core(Apply(Apply(s, AddFinish(n)), DeliverCancel(FireOf(s, n))).(doubled := s.doubled))
  {
    hide Core, Store, Finds, ArmTimer, CloseWindow;
    var id, o := LoopOf(s, n), FireOf(s, n);
    OpenFire(s, n);
    DoublingIs(s, n);
    CloseCommutes(s, n);
    var d := Apply(s, AddFinish(n));
    DeliverClosesIs(d, DeliverCancel(o));
    CloseIs(d, o, id, false);
    var c := Closed(s, o, id, false);
    ClosedCore(s, o, id, false);
    EndInnerCore(c, n);
    var m := SetPc(Release(c), n, Finished(true));
    ArmCore(m, id, s.objs[id].idle);
    var a := ArmTimer(m, id, s.objs[id].idle, None);
    ArmKeepsRearm(m, id, s.objs[id].idle);
    ArmCore(a, id, s.objs[id].idle);
    ArmIgnoresHistory(a, id, s.objs[id].idle, s.doubled + {id});
    assert a.doubled == s.doubled by { ArmKeepsLog(m, id, s.objs[id].idle, None); }
    assert ArmTimer(a, id, s.objs[id].idle, None).doubled == s.doubled by { ArmKeepsLog(a, id, s.objs[id].idle, None); }
  }

  /** Once the cancellation is delivered the timers of the loop are in order, as if it were not doubled, exactly
      when the fire only waited to be recorded. */
  lemma DoubledHealsIff(s: State, n: TaskId)
    requires CanDouble(s, n)
    ensures var d := Apply(s, AddFinish(n));
      && Enabled(d, DeliverCancel(FireOf(s, n)))
      && (Core(Apply(d, DeliverCancel(FireOf(s, n))).(doubled := s.doubled)) <==> !StillInCallback(s, n))
  {
    hide Apply, Core, Store;
    if StillInCallback(s, n) {
      DoubledBeside(s, n);
      OpenFire(s, n);
      var r := Apply(Apply(s, AddFinish(n)), DeliverCancel(FireOf(s, n)));
      BesideKnown(r, LoopOf(s, n), FireOf(s, n), s.next);
      var h := r.(doubled := s.doubled);
      if Core(h) { UseCore(h, FireOf(s, n), LoopOf(s, n)); }
    } else {
      RecordWaiterHeals(s, n);
    }
  }

  // ----- an update() returns meanwhile -----

  /** The labels of an update() called, begun, written and ended with nobody in between. */
  function UpdateRun(s: State, id: LoopId, change: Change): seq<Label> {
    [UpdateCall(id, change), UpdateBegin(s.next), WriteLands(|s.snaps|), UpdateFinish(s.next)]
  }

  lemma UpdateCalls(s: State, id: LoopId, o: TaskId, t: TaskId, change: Change)
    requires Beside(s, id, o, t) && s.lock.None?
    ensures Enabled(s, UpdateCall(id, change))
    ensures var r := Apply(s, UpdateCall(id, change));
      && Beside(r, id, o, t) && r.lock.None? && r.objs == s.objs && r.snaps == s.snaps && r.writes == s.writes && r.doubled == s.doubled
      && s.next in r.tasks && r.tasks[s.next] == Task(Inner, UpdateWait(id, change), false) && s.next < r.next
  {
  }

  lemma UpdateBegins(s: State, id: LoopId, o: TaskId, t: TaskId, u: TaskId, change: Change)
    requires Beside(s, id, o, t) && s.lock.None? && u in s.tasks && s.tasks[u] == Task(Inner, UpdateWait(id, change), false)
    ensures Enabled(s, UpdateBegin(u))
    ensures var r := Apply(s, UpdateBegin(u));
      && Beside(r, id, o, t) && r.objs == s.objs[id := ApplyChange(s.objs[id], change)] && r.doubled == s.doubled
      && u in r.tasks && r.tasks[u] == Task(Inner, UpdateWrite(|s.snaps|, id, change), false)
      && |r.writes| == |s.snaps| + 1 && r.writes[|s.snaps|].Pending?
  {
    hide Live;
  }

  lemma UpdateLands(s: State, id: LoopId, o: TaskId, t: TaskId, w: nat)
    requires Beside(s, id, o, t) && w < |s.writes| && s.writes[w].Pending?
    ensures Enabled(s, WriteLands(w))
    ensures var r := Apply(s, WriteLands(w));
      Beside(r, id, o, t) && r.objs == s.objs && r.doubled == s.doubled && r.tasks == s.tasks && w < |r.writes| && r.writes[w].Landed?
  {
    hide Enabled, Apply;
    LandingIs(s, w);
  }

  /** It sees the window and leaves the timer beside it alone. */
  lemma UpdateEnds(s: State, id: LoopId, o: TaskId, t: TaskId, u: TaskId, w: nat, change: Change)
    requires Beside(s, id, o, t) && u in s.tasks && s.tasks[u] == Task(Inner, UpdateWrite(w, id, change), false)
    requires w < |s.writes| && s.writes[w].Landed?
    ensures Enabled(s, UpdateFinish(u))
    ensures change.active == Some(false) ==> PauseReturns(s, UpdateFinish(u), id)
    ensures var r := Apply(s, UpdateFinish(u));
      Beside(r, id, o, t) && r.lock.None? && r.objs == s.objs && r.doubled == s.doubled
  {
  }

  /** So an update() passes, before and after its last step `c`. */
  lemma UpdatePasses(s: State, id: LoopId, o: TaskId, t: TaskId, change: Change) returns (c: State)
    requires Beside(s, id, o, t) && s.lock.None?
    ensures Leads(s, UpdateRun(s, id, change)[..3], c) && Enabled(c, UpdateFinish(s.next))
    ensures change.active == Some(false) ==> PauseReturns(c, UpdateFinish(s.next), id)
    ensures var r := Apply(c, UpdateFinish(s.next));
      && Leads(s, UpdateRun(s, id, change), r)
      && Beside(r, id, o, t) && r.lock.None? && r.objs == s.objs[id := ApplyChange(s.objs[id], change)] && r.doubled == s.doubled
  {
    hide Apply, Enabled, Beside, PauseReturns;
    var u, w := s.next, |s.snaps|;
    UpdateCalls(s, id, o, t, change);
    var a := Apply(s, UpdateCall(id, change));
    assert id in s.objs by { BesideKnown(s, id, o, t); }
    UpdateBegins(a, id, o, t, u, change);
    var b := Apply(a, UpdateBegin(u));
    UpdateLands(b, id, o, t, w);
    c := Apply(b, WriteLands(w));
    UpdateEnds(c, id, o, t, u, w, change);
    LeadsOne(b, WriteLands(w));
    LeadsFrom(a, UpdateBegin(u), [WriteLands(w)], c);
    LeadsFrom(s, UpdateCall(id, change), [UpdateBegin(u)] + [WriteLands(w)], c);
    var run := UpdateRun(s, id, change);
    assert [UpdateCall(id, change)] + ([UpdateBegin(u)] + [WriteLands(w)]) == run[..3];
    LeadsOne(c, UpdateFinish(u));
    LeadsOn(s, run[..3], c, [UpdateFinish(u)], Apply(c, UpdateFinish(u)));
    assert run[..3] + [UpdateFinish(u)] == run;
  }

  lemma BesideKnown(s: State, id: LoopId, o: TaskId, t: TaskId)
    requires Beside(s, id, o, t)
    ensures id in s.objs && id in s.reg && o != t
  {
  }

  /** The whole way: the add() completes, its cancellation reaches the fire, and an update() passes. */
  function DoublingRun(s: State, n: TaskId, o: TaskId): seq<Label> {
    [AddFinish(n), DeliverCancel(o)]
  }

  lemma DoublingLeads(s: State, n: TaskId) returns (m: State)
    requires StillInCallback(s, n)
    ensures Leads(s, DoublingRun(s, n, FireOf(s, n)), m)
    ensures var id := LoopOf(s, n);
      Inv(m) && Beside(m, id, FireOf(s, n), s.next) && m.lock.None? && m.objs == s.objs && m.doubled == s.doubled + {id}
  {
    hide Apply, Beside, Inv;
    DoubledBeside(s, n);
    var o := FireOf(s, n);
    var d := Apply(s, AddFinish(n));
    m := Apply(d, DeliverCancel(o));
    LeadsOne(d, DeliverCancel(o));
    LeadsFrom(s, AddFinish(n), [DeliverCancel(o)], m);
    assert [AddFinish(n)] + [DeliverCancel(o)] == DoublingRun(s, n, o);
  }

  // ----- the pause -----

  const STOP := Change(None, None, Some(0), Some(false))

  /** From every such state with the fire still in its callback: an update(active=False) of the loop returns with
      its write on disk, and in the very next step a fire of the loop starts. */
  lemma DoubledLoopFiresPaused(s: State, n: TaskId) returns (ls: seq<Label>, c: State, u: TaskId)
    requires StillInCallback(s, n)
    ensures |ls| >= 1 && ls[0] == AddFinish(n) && Leads(s, ls, c)
    ensures var id := LoopOf(s, n);
      && Enabled(c, UpdateFinish(u)) && PauseReturns(c, UpdateFinish(u), id)
      && var r := Apply(c, UpdateFinish(u));
         && id in r.reg && id in r.objs && !r.objs[id].active
         && Enabled(r, TimerWake(s.next, Run(true))) && StartsFire(r, TimerWake(s.next, Run(true)), id)
  {
    hide Apply, Enabled, Beside, PauseReturns, StartsFire, CanDouble;
    var id, o := LoopOf(s, n), FireOf(s, n);
    var m := DoublingLeads(s, n);
    BesideKnown(m, id, o, s.next);
    c := UpdatePasses(m, id, o, s.next, STOP);
    u := m.next;
    var pre := UpdateRun(m, id, STOP)[..3];
    ls := DoublingRun(s, n, o) + pre;
    LeadsOn(s, DoublingRun(s, n, o), m, pre, c);
    var r := Apply(c, UpdateFinish(u));
    UncappedWakes(r, id, o, s.next);
  }

  lemma UncappedWakes(s: State, id: LoopId, o: TaskId, t: TaskId)
    requires Beside(s, id, o, t) && !AtCapNow(s.objs[id])
    ensures id in s.reg && Enabled(s, TimerWake(t, Run(true))) && StartsFire(s, TimerWake(t, Run(true)), id)
    ensures var r := Apply(s, TimerWake(t, Run(true)));
      && r == s.(firing := s.firing[id := t], tasks := s.tasks[t := s.tasks[t].(pc := InCallback, cancel := false)])
  {
  }

  // ----- the cycle cap -----

  /** From every such state: an update() sets a cap the counter has not reached, two fires are each let through
      below it, both are delivered, and the counter is past the cap. */
  lemma DoubledLoopPassesCap(s: State, n: TaskId, now: int) returns (before: seq<Label>, m: State, after: seq<Label>, e: State)
    requires StillInCallback(s, n)
    ensures |before| >= 1 && before[0] == AddFinish(n) && Leads(s, before, m)
    ensures var id := LoopOf(s, n);
      && id in m.objs && m.objs[id].maxCycles != 0 && WithinCap(m, id)
      && |after| == 3 && Leads(m, after, e) && (forall l :: l in after ==> !l.UpdateBegin?)
      && id in e.objs && e.objs[id].maxCycles == m.objs[id].maxCycles < e.objs[id].cycles
  {
    hide Apply, Enabled, Beside, PauseReturns, StartsFire, CanDouble;
    var id, o, t := LoopOf(s, n), FireOf(s, n), s.next;
    OpenFire(s, n);
    var cap := Change(None, None, Some(s.objs[id].cycles + 1), None);
    var d := DoublingLeads(s, n);
    BesideKnown(d, id, o, t);
    var c := UpdatePasses(d, id, o, t, cap);
    m := Apply(c, UpdateFinish(d.next));
    before := DoublingRun(s, n, o) + UpdateRun(d, id, cap);
    LeadsOn(s, DoublingRun(s, n, o), d, UpdateRun(d, id, cap), m);
    BesideKnown(m, id, o, t);
    UncappedWakes(m, id, o, t);
    var w := Apply(m, TimerWake(t, Run(true)));
    BothDeliver(m, id, o, t, now);
    var x := Apply(w, CallbackReturns(o, Delivered(now)));
    e := Apply(x, CallbackReturns(t, Delivered(now)));
    LeadsOne(x, CallbackReturns(t, Delivered(now)));
    LeadsFrom(w, CallbackReturns(o, Delivered(now)), [CallbackReturns(t, Delivered(now))], e);
    after := [CallbackReturns(o, Delivered(now)), CallbackReturns(t, Delivered(now))];
    assert after == [CallbackReturns(o, Delivered(now))] + [CallbackReturns(t, Delivered(now))];
    LeadsFrom(m, TimerWake(t, Run(true)), after, e);
    after := [TimerWake(t, Run(true))] + after;
  }

  lemma DeliveryIs(s: State, t: TaskId, now: int)
    requires LoopKnown(s, t) && s.tasks[t].pc.InCallback? && !s.tasks[t].cancel
    ensures var l := CallbackReturns(t, Delivered(now));
      var id := s.tasks[t].kind.loop;
      && Enabled(s, l)
      && Apply(s, l) == s.(fails := s.fails - {id}, objs := s.objs[id := s.objs[id].(cycles := s.objs[id].cycles + 1, lastFire := now)],
                           tasks := s.tasks[t := s.tasks[t].(pc := PersistWait, cancel := false)])
  {
  }

  lemma BothDeliver(s: State, id: LoopId, o: TaskId, t: TaskId, now: int)
    requires Beside(s, id, o, t) && !AtCapNow(s.objs[id])
    ensures Enabled(s, TimerWake(t, Run(true)))
    ensures var w := Apply(s, TimerWake(t, Run(true)));
      && Enabled(w, CallbackReturns(o, Delivered(now)))
      && var x := Apply(w, CallbackReturns(o, Delivered(now)));
         && Enabled(x, CallbackReturns(t, Delivered(now)))
         && var e := Apply(x, CallbackReturns(t, Delivered(now)));
            id in e.objs && e.objs[id] == s.objs[id].(cycles := s.objs[id].cycles + 2, lastFire := now)
  {
    hide Apply, Enabled;
    UncappedWakes(s, id, o, t);
    var w := Apply(s, TimerWake(t, Run(true)));
    DeliveryIs(w, o, now);
    var x := Apply(w, CallbackReturns(o, Delivered(now)));
    DeliveryIs(x, t, now);
  }

  // ----- the expiry event -----

  lemma WakeAtCapIs(s: State, t: TaskId)
    requires LoopKnown(s, t) && s.tasks[t].pc.Sleeping? && !s.tasks[t].cancel && AtCapNow(s.objs[s.tasks[t].kind.loop]) && t < s.next
    ensures var l := TimerWake(t, Run(true));
      && Enabled(s, l)
      && Apply(s, l) == s.(tasks := s.tasks[s.next := Task(Inner, UpdateWait(s.tasks[t].kind.loop, DEACTIVATE), false)]
                                           [t := s.tasks[t].(pc := AtCap(s.next), cancel := false)], next := s.next + 1)
  {
  }

  lemma UpdateBeginIs(s: State, u: TaskId, id: LoopId, change: Change)
    requires u in s.tasks && s.tasks[u] == Task(Inner, UpdateWait(id, change), false) && s.lock.None? && id in s.reg && id in s.objs
    ensures Enabled(s, UpdateBegin(u))
    ensures var r := Apply(s, UpdateBegin(u));
      && r == s.(objs := s.objs[id := ApplyChange(s.objs[id], change)], lock := Some(u), snaps := r.snaps, writes := s.writes + [Pending],
                 tasks := s.tasks[u := Task(Inner, UpdateWrite(|s.snaps|, id, change), false)])
      && |r.snaps| == |s.snaps| + 1
  {
    hide Live, ApplyChange;
  }

  lemma DeferredEndIs(s: State, u: TaskId, id: LoopId, w: nat, change: Change)
    requires u in s.tasks && s.tasks[u] == Task(Inner, UpdateWrite(w, id, change), false) && id in s.objs && id in s.firing
    requires w < |s.writes| && s.writes[w].Landed?
    ensures Enabled(s, UpdateFinish(u))
    ensures Apply(s, UpdateFinish(u)) == s.(lock := None, tasks := s.tasks[u := Task(Inner, Finished(true), false)])
  {
  }

  lemma WaiterEmits(s: State, t: TaskId, u: TaskId)
    requires t in s.tasks && s.tasks[t].pc == AtCap(u) && !s.tasks[t].cancel && u in s.tasks && s.tasks[u].pc == Finished(true)
    ensures Enabled(s, InnerDone(t)) && EmitsExpired(s, InnerDone(t))
  {
  }

  /** The first fire is delivered and waits to be recorded, the second timer wakes at the cap, and its update gets
      the lock before the record does. */
  lemma CapMeetsWindow(s: State, id: LoopId, o: TaskId, t: TaskId, now: int) returns (ls: seq<Label>, e: State)
    requires Beside(s, id, o, t) && s.lock.None? && s.objs[id].maxCycles != 0 && s.objs[id].cycles + 1 >= s.objs[id].maxCycles
    ensures Leads(s, ls, e) && Enabled(e, InnerDone(t)) && EmitsExpired(e, InnerDone(t)) && e.tasks[t].kind == Timer(id)
  {
    hide Apply, Enabled, EmitsExpired;
    DeliveryIs(s, o, now);
    var a := Apply(s, CallbackReturns(o, Delivered(now)));
    WakeAtCapIs(a, t);
    var b := Apply(a, TimerWake(t, Run(true)));
    var u, w := a.next, |a.snaps|;
    UpdateBeginIs(b, u, id, DEACTIVATE);
    var c := Apply(b, UpdateBegin(u));
    LandingIs(c, w);
    var d := Apply(c, WriteLands(w));
    DeferredEndIs(d, u, id, w, DEACTIVATE);
    e := Apply(d, UpdateFinish(u));
    WaiterEmits(e, t, u);
    ls := [UpdateFinish(u)];
    LeadsOne(d, UpdateFinish(u));
    LeadsFrom(c, WriteLands(w), ls, e);
    ls := [WriteLands(w)] + ls;
    LeadsFrom(b, UpdateBegin(u), ls, e);
    ls := [UpdateBegin(u)] + ls;
    LeadsFrom(a, TimerWake(t, Run(true)), ls, e);
    ls := [TimerWake(t, Run(true))] + ls;
    LeadsFrom(s, CallbackReturns(o, Delivered(now)), ls, e);
    ls := [CallbackReturns(o, Delivered(now))] + ls;
  }

  /** From every such state "expired" can be emitted for the loop, should the lock not be given to its waiters in
      the order they came. */
  lemma DoubledLoopEmitsExpired(s: State, n: TaskId, now: int) returns (ls: seq<Label>, e: State)
    requires StillInCallback(s, n)
    ensures |ls| >= 1 && ls[0] == AddFinish(n) && Leads(s, ls, e)
    ensures Enabled(e, InnerDone(s.next)) && EmitsExpired(e, InnerDone(s.next)) && e.tasks[s.next].kind == Timer(LoopOf(s, n))
  {
    hide Apply, Enabled, Beside, PauseReturns, EmitsExpired, CanDouble;
    var id, o, t := LoopOf(s, n), FireOf(s, n), s.next;
    OpenFire(s, n);
    var cap := Change(None, None, Some(s.objs[id].cycles + 1), None);
    var d := DoublingLeads(s, n);
    BesideKnown(d, id, o, t);
    var c := UpdatePasses(d, id, o, t, cap);
    var m := Apply(c, UpdateFinish(d.next));
    BesideKnown(m, id, o, t);
    var head := DoublingRun(s, n, o) + UpdateRun(d, id, cap);
    LeadsOn(s, DoublingRun(s, n, o), d, UpdateRun(d, id, cap), m);
    var tail: seq<Label>;
    tail, e := CapMeetsWindow(m, id, o, t, now);
    LeadsOn(s, head, m, tail, e);
    ls := head + tail;
  }

  // ----- the store -----

  const UNCAP := Change(None, None, Some(0), None)

  /** Timer `t`, no longer noted in a window, has handed over its post-fire write and been told to stop. */
  predicate RecordDoomed(s: State, t: TaskId) {
    && LoopKnown(s, t) && s.tasks[t].pc.PersistWrite? && s.tasks[t].cancel && s.lock == Some(t)
    && |s.snaps| == |s.writes| >= 1 && s.tasks[t].pc.w == |s.writes| - 1 && s.writes[s.tasks[t].pc.w].Pending?
  }

  lemma InputClears(s: State, id: LoopId, o: TaskId, t: TaskId)
    requires Beside(s, id, o, t)
    ensures var l := NotifyInput(s.objs[id].slot, Some(id));
      Enabled(s, l) && Apply(s, l) == s.(rearm := s.rearm - {id})
  {
    assert ExactMatch(s, s.objs[id].slot, id);
  }

  lemma RaisedIs(s: State, o: TaskId)
    requires LoopKnown(s, o) && s.tasks[o].pc.InCallback? && !s.tasks[o].cancel && s.tasks[o].kind.loop !in s.rearm
    ensures var l := CallbackReturns(o, RaisedCancelled);
      && Enabled(s, l)
      && Apply(s, l) == s.(firing := s.firing - {s.tasks[o].kind.loop}, tasks := s.tasks[o := s.tasks[o].(pc := Finished(false), cancel := false)])
  {
    hide ArmTimer;
  }

  lemma RecordBegins(s: State, t: TaskId)
    requires LoopKnown(s, t) && s.tasks[t].pc == PersistWait && !s.tasks[t].cancel && s.lock.None? && |s.snaps| == |s.writes|
    ensures Enabled(s, PersistBegin(t))
    ensures var r := Apply(s, PersistBegin(t));
      && r == s.(lock := Some(t), snaps := r.snaps, writes := s.writes + [Pending],
                 tasks := s.tasks[t := s.tasks[t].(pc := PersistWrite(|s.snaps|), cancel := false)])
      && |r.snaps| == |s.snaps| + 1
  {
    hide Live;
  }

  lemma InputStops(s: State, id: LoopId, t: TaskId)
    requires id in s.reg && id in s.objs && id !in s.firing && id in s.timers && s.timers[id] == t
    requires t in s.tasks && !s.tasks[t].pc.Finished?
    ensures var l := NotifyInput(s.objs[id].slot, Some(id));
      && Enabled(s, l)
      && Apply(s, l) == s.(timers := s.timers - {id}, tasks := s.tasks[t := s.tasks[t].(cancel := true)])
  {
    assert ExactMatch(s, s.objs[id].slot, id);
  }

  /** The second fire is delivered, its window closed by the first, its record begun and then cancelled. */
  lemma RecordIsDoomed(s: State, id: LoopId, o: TaskId, t: TaskId) returns (ls: seq<Label>, e: State)
    requires Beside(s, id, o, t) && s.lock.None? && !AtCapNow(s.objs[id])
    ensures Leads(s, ls, e) && RecordDoomed(e, t)
  {
    hide Apply, Enabled;
    var slot := s.objs[id].slot;
    InputClears(s, id, o, t);
    var a := Apply(s, NotifyInput(slot, Some(id)));
    UncappedWakes(a, id, o, t);
    var b := Apply(a, TimerWake(t, Run(true)));
    RaisedIs(b, o);
    var c := Apply(b, CallbackReturns(o, RaisedCancelled));
    DeliveryIs(c, t, 0);
    var d := Apply(c, CallbackReturns(t, Delivered(0)));
    RecordBegins(d, t);
    var f := Apply(d, PersistBegin(t));
    assert f.objs[id].slot == slot;
    InputStops(f, id, t);
    e := Apply(f, NotifyInput(slot, Some(id)));
    ls := [NotifyInput(slot, Some(id))];
    LeadsOne(f, NotifyInput(slot, Some(id)));
    LeadsFrom(d, PersistBegin(t), ls, e);
    ls := [PersistBegin(t)] + ls;
    LeadsFrom(c, CallbackReturns(t, Delivered(0)), ls, e);
    ls := [CallbackReturns(t, Delivered(0))] + ls;
    LeadsFrom(b, CallbackReturns(o, RaisedCancelled), ls, e);
    ls := [CallbackReturns(o, RaisedCancelled)] + ls;
    LeadsFrom(a, TimerWake(t, Run(true)), ls, e);
    ls := [TimerWake(t, Run(true))] + ls;
    LeadsFrom(s, NotifyInput(slot, Some(id)), ls, e);
    ls := [NotifyInput(slot, Some(id))] + ls;
  }

  lemma DoomedReleasesEarly(s: State, t: TaskId)
    requires RecordDoomed(s, t)
    ensures Enabled(s, DeliverCancel(t)) && ReleasesEarly(s, DeliverCancel(t))
  {
    hide CloseWindow;
    DeliverClosesIs(s, DeliverCancel(t));
    CloseKeepsLog(Release(s), t, s.tasks[t].kind.loop, false);
  }

  lemma {:induction false} LeadsKeepsInv(s: State, ls: seq<Label>, r: State)
    requires Inv(s) && Leads(s, ls, r)
    ensures Inv(r)
    decreases |ls|
  {
    hide Inv, Apply, Enabled;
    if ls != [] {
      InvStep(s, ls[0]);
      LeadsKeepsInv(Apply(s, ls[0]), ls[1..], r);
    }
  }

  /** From every such state: the post-fire write of the second fire is cancelled while it is in flight, and
      whatever loop a client adds next, a run goes on to the lock free, the add() returned with its write on disk,
      and the older payload in the file. */
  lemma DoubledLoopLosesUpdate(s: State, n: TaskId, args: AddArgs)
      returns (ls: seq<Label>, d: State, t: TaskId, more: seq<Label>, e: State, added: LoopId)
    requires StillInCallback(s, n)
    ensures |ls| >= 1 && ls[0] == AddFinish(n) && Leads(s, ls, d)
    ensures Enabled(d, DeliverCancel(t)) && d.tasks[t].pc.PersistWrite? && ReleasesEarly(d, DeliverCancel(t))
    ensures Leads(Apply(d, DeliverCancel(t)), more, e)
    ensures e.lock.None? && |e.writes| == |e.snaps| >= 1 && e.writes[|e.writes| - 1].Landed?
    ensures added in e.reg && added in e.snaps[|e.snaps| - 1] && added !in e.disk
  {
    hide Apply, Enabled, Beside, PauseReturns, Inv, ReleasesEarly;
    var id, o := LoopOf(s, n), FireOf(s, n);
    t := s.next;
    var m := DoublingLeads(s, n);
    BesideKnown(m, id, o, t);
    var c := UpdatePasses(m, id, o, t, UNCAP);
    var x := Apply(c, UpdateFinish(m.next));
    BesideKnown(x, id, o, t);
    var tail: seq<Label>;
    tail, d := RecordIsDoomed(x, id, o, t);
    var head := DoublingRun(s, n, o) + UpdateRun(m, id, UNCAP);
    LeadsOn(s, DoublingRun(s, n, o), m, UpdateRun(m, id, UNCAP), x);
    LeadsOn(s, head, x, tail, d);
    ls := head + tail;
    LeadsKeepsInv(s, ls, d);
    DoomedReleasesEarly(d, t);
    more, e, added := EarlyReleaseLosesUpdate(d, DeliverCancel(t), args);
  }
}

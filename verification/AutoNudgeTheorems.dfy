/** What the AutoNudge service guarantees over every run. */
module AutoNudgeTheorems {
  import opened Options
  import opened AutoNudgeProtocol
  import opened AutoNudgeInvariant
  import opened AutoNudgeTasks
  import opened AutoNudgeSteps
  import opened AutoNudgeStoreSteps
  import opened AutoNudgeLog
  import opened AutoNudgeFacts

  lemma InvStep(s: State, l: Label)
    requires Inv(s) && Enabled(s, l)
    ensures Inv(Apply(s, l))
  {
    CoreStep(s, l);
    StoreStep(s, l);
  }

  lemma StepOf(ss: seq<State>, ls: seq<Label>, k: nat)
    requires IsRun(ss, ls) && k < |ls|
    ensures Enabled(ss[k], ls[k]) && ss[k + 1] == Apply(ss[k], ls[k])
  {
    assert StepAt(ss, ls, k);
  }

  /** The invariant holds in every state of every run. */
  lemma {:induction false} Reachable(ss: seq<State>, ls: seq<Label>, k: nat)
    requires IsRun(ss, ls) && k < |ss|
    ensures Inv(ss[k])
  {
    if k == 0 {
      InitInv(ss[0]);
    } else {
      Reachable(ss, ls, k - 1);
      StepOf(ss, ls, k - 1);
      InvStep(ss[k - 1], ls[k - 1]);
    }
  }

  /** The history is what its name says: a loop is doubled once an add() of it has completed over an open fire
      window of its own. */
  lemma {:induction false} DoubledIff(ss: seq<State>, ls: seq<Label>, k: nat, id: LoopId)
    requires IsRun(ss, ls) && k < |ss|
    ensures id in ss[k].doubled <==> exists i :: 0 <= i < k && DoublesAt(ss, ls, i, id)
  {
    hide Apply, Enabled, StepAt, ArmsOverWindow;
    if k > 0 {
      DoubledIff(ss, ls, k - 1, id);
      StepOf(ss, ls, k - 1);
      StepDoubles(ss[k - 1], ls[k - 1], id);
      assert DoublesAt(ss, ls, k - 1, id) <==> Doubles(ss[k - 1], ls[k - 1], id);
    }
  }

  /** The add() of loop `id` completes over an open fire window of the loop. */
  ghost predicate Doubles(s: State, l: Label, id: LoopId)
    requires Enabled(s, l)
  {
    ArmsOverWindow(s, l) && s.tasks[l.t].pc.id == id
  }

  ghost predicate DoublesAt(ss: seq<State>, ls: seq<Label>, i: nat, id: LoopId)
    requires |ss| == |ls| + 1 && i < |ls|
  {
    Enabled(ss[i], ls[i]) && Doubles(ss[i], ls[i], id)
  }

  lemma StepDoubles(s: State, l: Label, id: LoopId)
    requires Enabled(s, l)
    ensures id in Apply(s, l).doubled <==> id in s.doubled || Doubles(s, l, id)
  {
    hide Apply;
    if l.WriteLands? || l.WriteFails? {
      SettlingDoublesNone(s, l);
    } else {
      StepLog(s, l);
    }
  }

  lemma SettlingDoublesNone(s: State, l: Label)
    requires Enabled(s, l) && (l.WriteLands? || l.WriteFails?)
    ensures Apply(s, l).doubled == s.doubled && !ArmsOverWindow(s, l)
  {
  }

  // ----- no lost update -----

  /** In the first `k` steps no write is handed over while an earlier one is unsettled. */
  ghost predicate InOrder(ss: seq<State>, ls: seq<Label>, k: nat)
    requires |ss| == |ls| + 1 && k <= |ls|
  {
    forall j :: 0 <= j < k ==> Enabled(ss[j], ls[j]) && !Overtakes(ss[j], ls[j])
  }

  /** In the first `k` steps the lock is never given back over an unsettled write of its holder. */
  ghost predicate LockKept(ss: seq<State>, ls: seq<Label>, k: nat)
    requires |ss| == |ls| + 1 && k <= |ls|
  {
    forall j :: 0 <= j < k ==> Enabled(ss[j], ls[j]) && !ReleasesEarly(ss[j], ls[j])
  }

  /** Unless a write overtakes an unsettled one, payloads reach the file in the order they were snapshotted;
      only the newest write may be unsettled, and when it has landed the file is the latest snapshot. */
  lemma {:induction false} NoLostUpdate(ss: seq<State>, ls: seq<Label>, k: nat)
    requires IsRun(ss, ls) && k < |ss| && InOrder(ss, ls, k)
    ensures Written(ss[k])
    ensures forall i, j :: 0 <= i < j < |ss[k].landed| ==> ss[k].landed[i] < ss[k].landed[j] < |ss[k].snaps|
    ensures forall w :: 0 <= w < |ss[k].writes| - 1 ==> !ss[k].writes[w].Pending?
    ensures ss[k].writes[|ss[k].writes| - 1].Landed? ==> ss[k].disk == ss[k].snaps[|ss[k].snaps| - 1]
  {
    hide Apply, Enabled, Overtakes, StepAt;
    if k == 0 {
      InitCovered(ss[0]);
    } else {
      NoLostUpdate(ss, ls, k - 1);
      StepOf(ss, ls, k - 1);
      WrittenStep(ss[k - 1], ls[k - 1]);
    }
    if ss[k].writes[|ss[k].writes| - 1].Landed? { LatestOnDisk(ss[k]); }
  }

  lemma LatestOnDisk(s: State)
    requires Written(s) && s.writes[|s.writes| - 1].Landed?
    ensures s.disk == s.snaps[|s.snaps| - 1]
  {
    var n := |s.writes| - 1;
    var i :| 0 <= i < |s.landed| && s.landed[i] == n;
    assert i == |s.landed| - 1;
  }

  /** While the lock is never given back early no write overtakes another, and with the lock free every write
      has settled. */
  lemma {:induction false} LockCoversWrites(ss: seq<State>, ls: seq<Label>, k: nat)
    requires IsRun(ss, ls) && k < |ss| && LockKept(ss, ls, k)
    ensures InOrder(ss, ls, k) && Covered(ss[k])
    ensures k < |ls| ==> Enabled(ss[k], ls[k]) && !Overtakes(ss[k], ls[k])
  {
    hide Apply, Enabled, Overtakes, ReleasesEarly, StepAt;
    if k == 0 {
      InitCovered(ss[0]);
    } else {
      LockCoversWrites(ss, ls, k - 1);
      StepOf(ss, ls, k - 1);
      CoveredStep(ss[k - 1], ls[k - 1]);
    }
    if k < |ls| {
      StepOf(ss, ls, k);
      CoveredStep(ss[k], ls[k]);
    }
  }

  /** With the latest write landed, no delivered fire waiting to be recorded and no doubled loop registered, a
      restart would load exactly the loops in memory. */
  lemma RestartLoadsMemory(ss: seq<State>, ls: seq<Label>, k: nat)
    requires IsRun(ss, ls) && k < |ss| && InOrder(ss, ls, k)
    requires |ss[k].writes| >= 1 && ss[k].writes[|ss[k].writes| - 1].Landed?
    requires forall t :: t in ss[k].tasks ==> !ss[k].tasks[t].pc.PersistWait?
    requires ss[k].doubled !! ss[k].reg
    ensures ss[k].disk == Live(ss[k])
  {
    NoLostUpdate(ss, ls, k);
    Reachable(ss, ls, k);
    var s := ss[k];
    forall id ensures id in s.disk <==> id in Live(s) {
      UseStore(s, 0, id);
      UseCore(s, 0, id);
    }
    forall id | id in s.disk ensures s.disk[id] == Live(s)[id] {
      UseStore(s, 0, id);
      UseCore(s, 0, id);
    }
  }

  /** The post-fire write is awaited unshielded, yet in every reachable state its task holds the lock with no
      cancellation pending, unless its loop is doubled: none is ever delivered to it. */
  lemma FireWriteNeverCancelled(ss: seq<State>, ls: seq<Label>, k: nat, t: TaskId)
    requires IsRun(ss, ls) && k < |ss| && t in ss[k].tasks && ss[k].tasks[t].pc.PersistWrite?
    ensures ss[k].tasks[t].kind.Timer? && ss[k].lock == Some(t)
    ensures ss[k].tasks[t].kind.loop !in ss[k].doubled ==> !ss[k].tasks[t].cancel && !Enabled(ss[k], DeliverCancel(t))
  {
    Reachable(ss, ls, k);
    UseStore(ss[k], t, 0);
    UseCore(ss[k], t, 0);
  }

  // ----- fire windows -----

  /** Each loop has at most one sleeping timer not told to stop. A loop that is not doubled has at most one
      timer that may still act, while it is registered, and at most one task inside its fire window. */
  lemma OneTimerOneWindow(ss: seq<State>, ls: seq<Label>, k: nat, t: TaskId, u: TaskId, id: LoopId)
    requires IsRun(ss, ls) && k < |ss| && IsTimer(ss[k], t, id) && IsTimer(ss[k], u, id)
    ensures id !in ss[k].doubled && id in ss[k].reg && Strong(ss[k].tasks[t]) && Strong(ss[k].tasks[u]) ==> t == u
    ensures ss[k].tasks[t].pc.Sleeping? && ss[k].tasks[u].pc.Sleeping? && !ss[k].tasks[t].cancel && !ss[k].tasks[u].cancel ==> t == u
    ensures id !in ss[k].doubled && FirePc(ss[k].tasks[t].pc) && FirePc(ss[k].tasks[u].pc) ==> t == u
  {
    Reachable(ss, ls, k);
    UseCore(ss[k], t, id);
    UseCore(ss[k], u, id);
  }

  /** update(), a turn-complete hook and user input never cancel a task inside a fire window, unless its loop
      is doubled. */
  lemma FireNeverCancelled(s: State, l: Label, t: TaskId)
    requires Inv(s) && Enabled(s, l) && (l.UpdateFinish? || l.NotifyTurn? || l.NotifyInput?)
    requires t in s.tasks && s.tasks[t].kind.Timer? && FirePc(s.tasks[t].pc) && s.tasks[t].kind.loop !in s.doubled
    ensures t in Apply(s, l).tasks && Apply(s, l).tasks[t] == s.tasks[t]
  {
    var id := s.tasks[t].kind.loop;
    UseCore(s, t, id);
    if l.UpdateFinish? {
      UpdateSparesFire(s, l, t);
    } else if l.hit.Some? && l.hit.value !in s.firing {
      UseCore(s, t, l.hit.value);
      SparesOthers(s, l.hit.value, t, if l.hit.value in s.objs then s.objs[l.hit.value].idle else 0);
    }
  }

  lemma SparesOthers(s: State, id: LoopId, t: TaskId, delay: int)
    requires Core(s) && t in s.tasks && (id in s.timers ==> s.timers[id] != t)
    ensures var c := CancelTimer(s, id, None); t in c.tasks && c.tasks[t] == s.tasks[t] && c.next == s.next
    ensures var a := ArmTimer(s, id, delay, None); t in a.tasks && a.tasks[t] == s.tasks[t]
  {
    UseCore(s, t, id);
  }

  lemma UpdateSparesFire(s: State, l: Label, t: TaskId)
    requires Inv(s) && Enabled(s, l) && l.UpdateFinish?
    requires t in s.tasks && s.tasks[t].kind.Timer? && FirePc(s.tasks[t].pc) && s.tasks[t].kind.loop !in s.doubled
    ensures t in Apply(s, l).tasks && Apply(s, l).tasks[t] == s.tasks[t]
  {
    hide Core, Store, ArmTimer, CancelTimer;
    var id := s.tasks[l.t].pc.id;
    UseCore(s, t, s.tasks[t].kind.loop);
    UseCore(s, l.t, id);
    if !s.writes[s.tasks[l.t].pc.w].Failed? && id !in s.firing {
      UpdateRestarts(s, l);
      SparesOthers(s, id, t, 0);
      StoppedTable(s, id, l.t);
      var m := SetPc(Release(CancelTimer(s, id, None)), l.t, Finished(true));
      FreshArmSpares(m, id, t, s.objs[id].idle);
    }
  }

  lemma StoppedTable(s: State, id: LoopId, u: TaskId)
    requires Core(s) && u in s.tasks
    ensures var m := SetPc(Release(CancelTimer(s, id, None)), u, Finished(true)); id !in m.timers && m.next == s.next
  {
  }

  lemma FreshArmSpares(m: State, id: LoopId, t: TaskId, delay: int)
    requires id !in m.timers && t in m.tasks && t < m.next
    ensures var a := ArmTimer(m, id, delay, None); t in a.tasks && a.tasks[t] == m.tasks[t]
  {
  }

  // ----- the cycle cap -----

  /** "expired" reaches the observers in no run, except for a doubled loop: a timer parked at its cap is the one
      its own deactivating update cancels. */
  lemma ExpiredNeverEmitted(ss: seq<State>, ls: seq<Label>, k: nat)
    requires IsRun(ss, ls) && k < |ls|
    ensures Enabled(ss[k], ls[k])
    ensures EmitsExpired(ss[k], ls[k]) ==>
      ss[k].tasks[ls[k].t].kind.Timer? && ss[k].tasks[ls[k].t].kind.loop in ss[k].doubled
  {
    Reachable(ss, ls, k);
    StepOf(ss, ls, k);
    UseCore(ss[k], if ls[k].InnerDone? then ls[k].t else 0, 0);
    if ls[k].InnerDone? && ss[k].tasks[ls[k].t].pc.AtCap? {
      UseCore(ss[k], ss[k].tasks[ls[k].t].pc.inner, 0);
    }
  }

  /** The ending update `n` cancels the timer that awaits it exactly when its write has landed, no window of
      the loop is open and the timer table still names that timer. */
  lemma UpdateCancelsWaiter(s: State, n: TaskId, t: TaskId)
    requires Enabled(s, UpdateFinish(n)) && t in s.tasks && t != n && t < s.next
    requires !s.tasks[t].pc.Finished? && !s.tasks[t].cancel
    ensures
      var id := s.tasks[n].pc.id;
      var landed := s.writes[s.tasks[n].pc.w].Landed?;
      var r := Apply(s, UpdateFinish(n));
      && n in r.tasks && r.tasks[n].pc == Finished(landed)
      && t in r.tasks && r.tasks[t] == s.tasks[t].(cancel := landed && id !in s.firing && id in s.timers && s.timers[id] == t)
  {
    hide ArmTimer, CancelTimer;
    var id := s.tasks[n].pc.id;
    if s.writes[s.tasks[n].pc.w].Landed? && id !in s.firing {
      var c := CancelTimer(Release(s), id, Some(n));
      CancelHits(Release(s), id, n, t);
      CancelHits(Release(s), id, n, n);
      ArmAfterCancel(c, id, c.objs[id].idle, n, t);
      ArmAfterCancel(c, id, c.objs[id].idle, n, n);
      var a := if c.objs[id].active then ArmTimer(c, id, c.objs[id].idle, Some(n)) else c;
      assert Apply(s, UpdateFinish(n)) == SetPc(a, n, Finished(true));
    }
  }

  lemma CancelHits(s: State, id: LoopId, n: TaskId, t: TaskId)
    requires t in s.tasks && !s.tasks[t].pc.Finished?
    ensures
      var c := CancelTimer(s, id, Some(n));
      && id !in c.timers && c.next == s.next && t in c.tasks
      && (t != n ==> c.tasks[t] == if id in s.timers && s.timers[id] == t then s.tasks[t].(cancel := true) else s.tasks[t])
  {
  }

  lemma ArmAfterCancel(s: State, id: LoopId, delay: int, n: TaskId, t: TaskId)
    requires id !in s.timers && t in s.tasks
    ensures var a := ArmTimer(s, id, delay, Some(n)); t in a.tasks && (t < s.next ==> a.tasks[t] == s.tasks[t])
  {
  }

  /** Exactly when "expired" is emitted after it: the update has its write on disk, and a window of the loop is
      open or the timer awaiting it is not the one in the timer table. */
  lemma ExpiredIff(s: State, n: TaskId, t: TaskId)
    requires Enabled(s, UpdateFinish(n)) && t in s.tasks && t != n && t < s.next
    requires s.tasks[t].pc == AtCap(n) && !s.tasks[t].cancel
    ensures
      var id := s.tasks[n].pc.id;
      var r := Apply(s, UpdateFinish(n));
      (Enabled(r, InnerDone(t)) && EmitsExpired(r, InnerDone(t)))
      <==> s.writes[s.tasks[n].pc.w].Landed? && (id in s.firing || !(id in s.timers && s.timers[id] == t))
  {
    hide Apply;
    UpdateCancelsWaiter(s, n, t);
  }

  /** When the deactivating update of a timer at its cap completes, the loop, unless it is doubled, is inactive in
      memory. With its write landed no timer of the loop can act again, and the file, the log being in order, says
      so too; with the write failed only the waiting timer is left, and it ends without arming another. */
  lemma CappedLoopEndsInactive(s: State, t: TaskId)
    requires Inv(s) && t in s.tasks && s.tasks[t].kind.Timer? && s.tasks[t].pc.AtCap? && !s.tasks[t].cancel
    requires Enabled(s, UpdateFinish(s.tasks[t].pc.inner)) && s.tasks[t].kind.loop !in s.doubled
    ensures
      var id := s.tasks[t].kind.loop;
      var r := Apply(s, UpdateFinish(s.tasks[t].pc.inner));
      && id in r.reg && id in r.objs && !r.objs[id].active
      && (s.writes[s.tasks[s.tasks[t].pc.inner].pc.w].Landed? ==>
        (Written(s) ==> id in r.disk && !r.disk[id].active) && forall u :: IsTimer(r, u, id) ==> !Strong(r.tasks[u]))
      && (s.writes[s.tasks[s.tasks[t].pc.inner].pc.w].Failed? ==>
        (forall u :: IsTimer(r, u, id) && Strong(r.tasks[u]) ==> u == t) && EndsUnarmed(r, t))
  {
    var id := s.tasks[t].kind.loop;
    var n := s.tasks[t].pc.inner;
    UseCore(s, t, id);
    CapIsRegistered(s, t);
    UseStore(s, n, id);
    if s.writes[s.tasks[n].pc.w].Landed? {
      DeactivatedInMemory(s, n);
      if Written(s) { DeactivatedOnDisk(s, n); }
      PausedLoopHasNoTimer(s, UpdateFinish(n), id);
      UpdateFinishCore(s, UpdateFinish(n));
      NoTimerNoActor(Apply(s, UpdateFinish(n)), id);
    } else {
      FailedUpdateLeavesWaiter(s, t);
    }
  }

  /** The update that the timer `t` waits for has failed: `t` ends at its next step and arms nothing. */
  ghost predicate EndsUnarmed(r: State, t: TaskId) {
    && Enabled(r, InnerDone(t)) && !EmitsExpired(r, InnerDone(t))
    && Apply(r, InnerDone(t)) == SetPc(r, t, Finished(false))
  }

  lemma FailedUpdateLeavesWaiter(s: State, t: TaskId)
    requires Inv(s) && t in s.tasks && s.tasks[t].kind.Timer? && s.tasks[t].pc.AtCap? && !s.tasks[t].cancel
    requires Enabled(s, UpdateFinish(s.tasks[t].pc.inner)) && s.writes[s.tasks[s.tasks[t].pc.inner].pc.w].Failed?
    requires s.tasks[t].kind.loop !in s.doubled
    ensures
      var id := s.tasks[t].kind.loop;
      var r := Apply(s, UpdateFinish(s.tasks[t].pc.inner));
      && r == SetPc(Release(s), s.tasks[t].pc.inner, Finished(false))
      && (forall u :: IsTimer(r, u, id) && Strong(r.tasks[u]) ==> u == t) && EndsUnarmed(r, t)
  {
    var id := s.tasks[t].kind.loop;
    UseCore(s, t, id);
    CapIsRegistered(s, t);
    var r := Apply(s, UpdateFinish(s.tasks[t].pc.inner));
    forall u | IsTimer(r, u, id) && Strong(r.tasks[u]) ensures u == t {
      UseCore(s, u, id);
    }
  }

  lemma DeactivatedInMemory(s: State, n: TaskId)
    requires Inv(s) && n in s.tasks && s.tasks[n].pc.UpdateWrite? && s.tasks[n].pc.change.active == Some(false)
    ensures s.tasks[n].pc.id in s.objs && !s.objs[s.tasks[n].pc.id].active
  {
    UseStore(s, n, s.tasks[n].pc.id);
  }

  lemma DeactivatedOnDisk(s: State, n: TaskId)
    requires Inv(s) && Written(s) && n in s.tasks && s.tasks[n].pc.UpdateWrite? && s.tasks[n].pc.change.active == Some(false)
    requires s.tasks[n].pc.w < |s.writes| && s.writes[s.tasks[n].pc.w].Landed?
    requires s.tasks[n].pc.id !in s.firing && s.tasks[n].pc.id !in s.doubled
    ensures s.tasks[n].pc.id in s.disk && !s.disk[s.tasks[n].pc.id].active
  {
    UseStore(s, n, s.tasks[n].pc.id);
    LatestOnDisk(s);
  }

  /** A registered loop, not doubled, without an entry in the timer table has no timer that may act. */
  lemma NoTimerNoActor(s: State, id: LoopId)
    requires Core(s) && id in s.reg && id !in s.timers && id !in s.doubled
    ensures forall u :: IsTimer(s, u, id) ==> !Strong(s.tasks[u])
  {
    forall u ensures IsTimer(s, u, id) ==> !Strong(s.tasks[u]) {
      UseCore(s, u, id);
    }
  }

  lemma PausedLoopHasNoTimer(s: State, l: Label, id: LoopId)
    requires Inv(s) && Enabled(s, l) && l.UpdateFinish? && s.tasks[l.t].pc.id == id && !s.objs[id].active
    requires id in s.reg && id !in s.firing && !s.writes[s.tasks[l.t].pc.w].Failed?
    ensures var r := Apply(s, l); id !in r.timers && id in r.reg && r.objs == s.objs && r.disk == s.disk && r.doubled == s.doubled
  {
    UpdateRestarts(s, l);
  }

  // ----- what one step guarantees a caller -----

  /** A registered loop that is not doubled has at most one timer that may still act. */
  ghost predicate OneTimer(s: State) {
    forall t, u, id ::
      (IsTimer(s, t, id) && IsTimer(s, u, id) && id in s.reg && id !in s.doubled && Strong(s.tasks[t]) && Strong(s.tasks[u])) ==> t == u
  }

  /** Every timer inside its fire window, of a loop not doubled, is left exactly as it was. */
  ghost predicate FiresSpared(s: State, r: State) {
    forall t :: t in s.tasks && s.tasks[t].kind.Timer? && FirePc(s.tasks[t].pc) && s.tasks[t].kind.loop !in s.doubled ==>
      t in r.tasks && r.tasks[t] == s.tasks[t]
  }

  /** If `t` waits for a write, it holds the lock and the write is of the loops as they are. */
  ghost predicate WriteHeld(s: State, t: TaskId) {
    t in s.tasks && WritePc(s.tasks[t].pc) ==>
      && s.lock == Some(t) && |s.snaps| == |s.writes| && s.tasks[t].pc.w == |s.snaps| - 1
      && s.snaps[s.tasks[t].pc.w] == Live(s)
  }

  /** No other write is in flight. */
  ghost predicate OnlyWrite(s: State, t: TaskId) {
    t in s.tasks && WritePc(s.tasks[t].pc) ==>
      forall w :: 0 <= w < |s.writes| && s.writes[w].Pending? ==> w == s.tasks[t].pc.w
  }

  lemma InvOneTimer(s: State)
    requires Inv(s)
    ensures OneTimer(s)
  {
    forall t, u, id | IsTimer(s, t, id) && IsTimer(s, u, id) && id in s.reg && id !in s.doubled && Strong(s.tasks[t]) && Strong(s.tasks[u])
      ensures t == u
    {
      UseCore(s, t, id);
      UseCore(s, u, id);
    }
  }

  lemma StepKeeps(s: State, l: Label)
    requires Inv(s) && Enabled(s, l)
    ensures Inv(Apply(s, l)) && OneTimer(Apply(s, l))
  {
    InvStep(s, l);
    InvOneTimer(Apply(s, l));
  }

  lemma NotificationsSpareFires(s: State, l: Label)
    requires Inv(s) && Enabled(s, l) && (l.UpdateFinish? || l.NotifyTurn? || l.NotifyInput?)
    ensures FiresSpared(s, Apply(s, l))
  {
    forall t | t in s.tasks && s.tasks[t].kind.Timer? && FirePc(s.tasks[t].pc) && s.tasks[t].kind.loop !in s.doubled
      ensures t in Apply(s, l).tasks && Apply(s, l).tasks[t] == s.tasks[t]
    {
      FireNeverCancelled(s, l, t);
    }
  }

  lemma SubmitHolds(s: State, a: State, t: TaskId, pc: Pc)
    requires Store(s) && s.lock.None? && t in a.tasks && WritePc(pc) && pc.w == |s.snaps|
    requires a.snaps == s.snaps && a.writes == s.writes
    ensures WriteHeld(Submit(a, t, pc), t)
    ensures AllSettled(s) ==> OnlyWrite(Submit(a, t, pc), t)
  {
    UseStore(s, t, 0);
    assert Live(Submit(a, t, pc)) == Live(a);
  }

  /** Whoever begins a mutation holds the lock across its write, the only one in flight if none was. */
  lemma BeginHoldsLock(s: State, l: Label)
    requires Inv(s) && Enabled(s, l) && (l.AddBegin? || l.UpdateBegin? || l.RemoveBegin? || l.PersistBegin?)
    ensures WriteHeld(Apply(s, l), l.t) && (AllSettled(s) ==> OnlyWrite(Apply(s, l), l.t))
  {
    hide Core, Store, RemoveSync, Submit, WriteHeld, OnlyWrite, Finds, AllSettled;
    var t := l.t;
    if l.AddBegin? {
      RemovalKeepsPcs(s, l.existing, t);
      var r := if l.existing.Some? then RemoveSync(s, l.existing.value, Some(t)) else s;
      SubmitHolds(s, r.(objs := r.objs[l.id := NewLoop(s.tasks[t].pc.args)], reg := r.reg + {l.id}), t, AddWrite(|s.snaps|, l.id));
    } else if l.PersistBegin? {
      SubmitHolds(s, s, t, PersistWrite(|s.snaps|));
    } else if l.RemoveBegin? {
      RemoveBeginHolds(s, l);
    } else {
      UpdateBeginHolds(s, l);
    }
  }

  lemma RemoveBeginHolds(s: State, l: Label)
    requires Inv(s) && Enabled(s, l) && l.RemoveBegin?
    ensures WriteHeld(Apply(s, l), l.t) && (AllSettled(s) ==> OnlyWrite(Apply(s, l), l.t))
  {
    hide Core, Store, RemoveSync, Submit;
    var target, nested := s.tasks[l.t].pc.target, s.tasks[l.t].pc.nested;
    RemovalKeepsPcs(s, Some(target), l.t);
    if target in s.reg {
      SubmitHolds(s, RemoveSync(s, target, Some(l.t)), l.t, RemoveWrite(|s.snaps|, nested));
    }
  }

  lemma UpdateBeginHolds(s: State, l: Label)
    requires Inv(s) && Enabled(s, l) && l.UpdateBegin?
    ensures WriteHeld(Apply(s, l), l.t) && (AllSettled(s) ==> OnlyWrite(Apply(s, l), l.t))
  {
    hide Core, Store, Submit;
    var id, change := s.tasks[l.t].pc.id, s.tasks[l.t].pc.change;
    if id in s.reg && id in s.objs {
      SubmitHolds(s, s.(objs := s.objs[id := ApplyChange(s.objs[id], change)]), l.t, UpdateWrite(|s.snaps|, id, change));
    }
  }
}

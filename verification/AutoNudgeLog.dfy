/** The write log: in which order the snapshots reach the file, and when the lock covers a write. */
module AutoNudgeLog {
  import opened Options
  import opened AutoNudgeProtocol
  import opened AutoNudgeInvariant
  import opened AutoNudgeTasks
  import opened AutoNudgeSteps
  import opened AutoNudgeStoreSteps

  predicate AllSettled(s: State) {
    forall w :: 0 <= w < |s.writes| ==> !s.writes[w].Pending?
  }

  predicate Increasing(ns: seq<nat>) {
    forall i, j :: 0 <= i < j < |ns| ==> ns[i] < ns[j]
  }

  /** Writes reached the file in snapshot order, and only the newest may be unsettled. */
  ghost predicate Written(s: State) {
    && |s.snaps| == |s.writes| >= 1
    && (forall w :: 0 <= w < |s.writes| && s.writes[w].Pending? ==> w == |s.writes| - 1)
    && |s.landed| >= 1 && Increasing(s.landed)
    && (forall i :: 0 <= i < |s.landed| ==> s.landed[i] < |s.writes| && s.writes[s.landed[i]].Landed?)
    && (forall w :: 0 <= w < |s.writes| && s.writes[w].Landed? ==> w in s.landed)
    && s.disk == s.snaps[s.landed[|s.landed| - 1]]
  }

  /** Besides, an unsettled write has the lock held across it. */
  ghost predicate Covered(s: State) {
    Written(s) && (s.lock.None? ==> AllSettled(s))
  }

  /** A write is handed over while an earlier one is unsettled. */
  ghost predicate Overtakes(s: State, l: Label)
    requires Enabled(s, l)
  {
    |Apply(s, l).snaps| > |s.snaps| && !AllSettled(s)
  }

  /** The lock is given back although its write is unsettled. */
  ghost predicate ReleasesEarly(s: State, l: Label)
    requires Enabled(s, l)
  {
    s.lock.Some? && Apply(s, l).lock.None? && |s.writes| >= 1 && !Settled(s, |s.writes| - 1)
  }

  lemma InitCovered(s: State)
    requires Init(s)
    ensures Covered(s)
  {
  }

  // ----- what a step does to the log and the lock -----

  predicate SameLog(s: State, r: State) {
    r.snaps == s.snaps && r.writes == s.writes && r.landed == s.landed && r.disk == s.disk
  }

  /** Nothing is handed over, and the lock is kept or given back. */
  predicate Keeps(s: State, r: State) {
    SameLog(s, r) && (s.lock.None? ==> r.lock.None?)
  }

  /** One write is handed over under the lock just taken. */
  predicate HandsOver(s: State, r: State) {
    && s.lock.None? && r.lock.Some?
    && |r.snaps| == |s.snaps| + 1 && r.snaps[..|s.snaps|] == s.snaps
    && r.writes == s.writes + [Pending] && r.landed == s.landed && r.disk == s.disk
  }

  lemma ArmKeepsLog(s: State, id: LoopId, delay: int, cur: Option<TaskId>)
    ensures SameLog(s, ArmTimer(s, id, delay, cur)) && ArmTimer(s, id, delay, cur).lock == s.lock
    ensures ArmTimer(s, id, delay, cur).doubled == s.doubled
  {
  }

  lemma CloseKeepsLog(s: State, t: TaskId, id: LoopId, ok: bool)
    requires t in s.tasks && id in s.objs
    ensures SameLog(s, CloseWindow(s, t, id, ok)) && CloseWindow(s, t, id, ok).lock == s.lock
    ensures CloseWindow(s, t, id, ok).doubled == s.doubled
  {
    hide ArmTimer;
    ArmKeepsLog(s.(firing := s.firing - {id}, rearm := s.rearm - {id}), id, s.objs[id].idle, Some(t));
  }

  lemma ArmThenCloseKeepsLog(s: State, t: TaskId, id: LoopId, delay: int)
    requires t in s.tasks && id in s.objs
    ensures t in ArmTimer(s, id, delay, Some(t)).tasks && ArmTimer(s, id, delay, Some(t)).objs == s.objs
    ensures var r := CloseWindow(ArmTimer(s, id, delay, Some(t)), t, id, true); SameLog(s, r) && r.lock == s.lock && r.doubled == s.doubled
  {
    hide CloseWindow;
    ArmKeepsLog(s, id, delay, Some(t));
    CloseKeepsLog(ArmTimer(s, id, delay, Some(t)), t, id, true);
  }

  lemma BeginsLog(s: State, l: Label)
    requires Enabled(s, l) && (l.AddBegin? || l.RemoveBegin?)
    ensures Keeps(s, Apply(s, l)) || HandsOver(s, Apply(s, l))
    ensures Apply(s, l).doubled == s.doubled
  {
    hide RemoveSync, Finds, Live;
    if l.AddBegin? {
      RemovalKeepsPcs(s, l.existing, l.t);
    } else {
      RemovalKeepsPcs(s, Some(s.tasks[l.t].pc.target), l.t);
    }
  }

  lemma SubmitsLog(s: State, l: Label)
    requires Enabled(s, l) && (l.UpdateBegin? || l.PersistBegin?)
    ensures Keeps(s, Apply(s, l)) || HandsOver(s, Apply(s, l))
    ensures Apply(s, l).doubled == s.doubled
  {
    hide Finds, Live;
  }

  lemma AddFinishLog(s: State, l: Label)
    requires Enabled(s, l) && l.AddFinish?
    ensures Keeps(s, Apply(s, l))
    ensures Apply(s, l).doubled == if ArmsOverWindow(s, l) then s.doubled + {s.tasks[l.t].pc.id} else s.doubled
  {
    hide ArmTimer;
    var id := s.tasks[l.t].pc.id;
    ArmKeepsLog(Noted(Release(s), id), id, s.objs[id].idle, Some(l.t));
  }

  lemma UpdateFinishLog(s: State, l: Label)
    requires Enabled(s, l) && l.UpdateFinish?
    ensures Keeps(s, Apply(s, l))
    ensures Apply(s, l).doubled == s.doubled
  {
    hide ArmTimer, CancelTimer;
    var id := s.tasks[l.t].pc.id;
    ArmKeepsLog(CancelTimer(Release(s), id, Some(l.t)), id, s.objs[id].idle, Some(l.t));
  }

  lemma NotifyLog(s: State, l: Label)
    requires Enabled(s, l) && (l.NotifyTurn? || l.NotifyInput?)
    ensures Keeps(s, Apply(s, l))
    ensures Apply(s, l).doubled == s.doubled
  {
    hide ArmTimer, CancelTimer;
    if l.NotifyTurn? && l.hit.Some? {
      ArmKeepsLog(s, l.hit.value, s.objs[l.hit.value].idle, None);
    }
  }

  lemma ClosesLog(s: State, l: Label)
    requires Enabled(s, l) && l.PersistFinish?
    ensures Keeps(s, Apply(s, l))
    ensures Apply(s, l).doubled == s.doubled
  {
    hide ArmTimer, CloseWindow;
    var id := s.tasks[l.t].kind.loop;
    CloseKeepsLog(Release(s), l.t, id, true);
    CloseKeepsLog(Release(s), l.t, id, false);
    ArmThenCloseKeepsLog(Release(s), l.t, id, s.objs[id].idle);
  }

  lemma DeliverLog(s: State, l: Label)
    requires Enabled(s, l) && l.DeliverCancel?
    ensures Keeps(s, Apply(s, l))
    ensures Apply(s, l).doubled == s.doubled
  {
    hide CloseWindow, Apply, Enabled;
    DeliverTarget(s, l);
    if s.tasks[l.t].pc.PersistWait? || s.tasks[l.t].pc.PersistWrite? {
      DeliverClosesIs(s, l);
      CloseKeepsLog(LetGo(s, l.t), l.t, s.tasks[l.t].kind.loop, false);
    } else {
      DeliverParksLog(s, l);
    }
  }

  lemma DeliverParksLog(s: State, l: Label)
    requires Enabled(s, l) && l.DeliverCancel? && !s.tasks[l.t].pc.PersistWait? && !s.tasks[l.t].pc.PersistWrite?
    ensures Keeps(s, Apply(s, l))
    ensures Apply(s, l).doubled == s.doubled
    ensures Apply(s, l).reg == s.reg
  {
    hide CloseWindow, Enabled;
    DeliverTarget(s, l);
    assert l == Label.DeliverCancel(l.t);
  }

  lemma CallbackLog(s: State, l: Label)
    requires Enabled(s, l) && l.CallbackReturns?
    ensures Keeps(s, Apply(s, l))
    ensures Apply(s, l).doubled == s.doubled
  {
    hide ArmTimer, CloseWindow, Backoff;
    var id := s.tasks[l.t].kind.loop;
    match l.outcome
    case RaisedCancelled => CloseKeepsLog(s, l.t, id, false);
    case Undelivered =>
      if id !in s.reg || !s.objs[id].active {
        CloseKeepsLog(s.(fails := s.fails - {id}), l.t, id, true);
      } else {
        var n := (if id in s.fails then s.fails[id] else 0) + 1;
        ArmThenCloseKeepsLog(s.(fails := s.fails[id := n]), l.t, id, Backoff(n, s.objs[id].idle));
      }
    case Delivered(_) =>
  }

  lemma WakeLog(s: State, l: Label)
    requires Enabled(s, l) && l.TimerWake?
    ensures Keeps(s, Apply(s, l))
    ensures Apply(s, l).doubled == s.doubled
  {
    hide AtCapNow, Finds;
  }

  lemma CallsLog(s: State, l: Label)
    requires Enabled(s, l) && (l.AddCall? || l.UpdateCall? || l.RemoveCall? || l.CancelCaller?)
    ensures Keeps(s, Apply(s, l))
    ensures Apply(s, l).doubled == s.doubled
  {
  }

  lemma ParksLog(s: State, l: Label)
    requires Enabled(s, l) && (l.RemoveFinish? || l.CallbackRemoves? || l.InnerDone?)
    ensures Keeps(s, Apply(s, l))
    ensures Apply(s, l).doubled == s.doubled
  {
  }

  lemma OnlyAddFinishArmsOver(s: State, l: Label)
    requires Enabled(s, l)
    ensures ArmsOverWindow(s, l) ==> l.AddFinish?
  {
  }

  /** A step settles a write, or hands one over under the lock it takes, or leaves the log alone. */
  lemma StepLog(s: State, l: Label)
    requires Enabled(s, l) && !l.WriteLands? && !l.WriteFails?
    ensures Keeps(s, Apply(s, l)) || HandsOver(s, Apply(s, l))
    ensures Apply(s, l).doubled == if ArmsOverWindow(s, l) then s.doubled + {s.tasks[l.t].pc.id} else s.doubled
  {
    hide Apply, Enabled, Keeps, HandsOver;
    OnlyAddFinishArmsOver(s, l);
    match l
    case AddBegin(_, _, _) => BeginsLog(s, l);
    case RemoveBegin(_) => BeginsLog(s, l);
    case UpdateBegin(_) => SubmitsLog(s, l);
    case PersistBegin(_) => SubmitsLog(s, l);
    case AddFinish(_) => AddFinishLog(s, l);
    case UpdateFinish(_) => UpdateFinishLog(s, l);
    case NotifyTurn(_, _) => NotifyLog(s, l);
    case NotifyInput(_, _) => NotifyLog(s, l);
    case PersistFinish(_) => ClosesLog(s, l);
    case DeliverCancel(_) => DeliverLog(s, l);
    case CallbackReturns(_, _) => CallbackLog(s, l);
    case TimerWake(_, _) => WakeLog(s, l);
    case AddCall(_) => CallsLog(s, l);
    case UpdateCall(_, _) => CallsLog(s, l);
    case RemoveCall(_) => CallsLog(s, l);
    case CancelCaller(_) => CallsLog(s, l);
    case RemoveFinish(_) => ParksLog(s, l);
    case CallbackRemoves(_, _) => ParksLog(s, l);
    case InnerDone(_) => ParksLog(s, l);
  }

  // ----- what is kept -----

  lemma LandsWritten(s: State, l: Label)
    requires Written(s) && Enabled(s, l) && l.WriteLands?
    ensures Written(Apply(s, l)) && Apply(s, l).lock == s.lock
    ensures AllSettled(Apply(s, l))
  {
    var r := Apply(s, l);
    assert forall i :: 0 <= i < |s.landed| ==> s.landed[i] < l.w;
    assert r.landed[|r.landed| - 1] == l.w;
    forall w | 0 <= w < |r.writes| && r.writes[w].Landed? ensures w in r.landed {
      assert w != l.w ==> w in s.landed;
    }
  }

  lemma FailsWritten(s: State, l: Label)
    requires Written(s) && Enabled(s, l) && l.WriteFails?
    ensures Written(Apply(s, l)) && Apply(s, l).lock == s.lock
    ensures AllSettled(Apply(s, l))
  {
  }

  lemma HandsOverWritten(s: State, r: State)
    requires Written(s) && HandsOver(s, r) && AllSettled(s)
    ensures Written(r)
  {
    forall i | 0 <= i < |s.landed| ensures r.snaps[s.landed[i]] == s.snaps[s.landed[i]] {
      assert r.snaps[..|s.snaps|][s.landed[i]] == s.snaps[s.landed[i]];
    }
    forall w | 0 <= w < |r.writes| && r.writes[w].Landed? ensures w in r.landed {
      assert s.writes[w].Landed?;
    }
  }

  /** A step that does not overtake keeps the order of the log. */
  lemma WrittenStep(s: State, l: Label)
    requires Written(s) && Enabled(s, l) && !Overtakes(s, l)
    ensures Written(Apply(s, l))
  {
    hide Apply, Enabled;
    if l.WriteLands? {
      LandsWritten(s, l);
    } else if l.WriteFails? {
      FailsWritten(s, l);
    } else {
      StepLog(s, l);
      if HandsOver(s, Apply(s, l)) {
        HandsOverWritten(s, Apply(s, l));
      }
    }
  }

  /** While the lock covers every unsettled write no step overtakes; and a step that does not give the lock back
      early keeps it so. */
  lemma CoveredStep(s: State, l: Label)
    requires Covered(s) && Enabled(s, l)
    ensures !Overtakes(s, l)
    ensures !ReleasesEarly(s, l) ==> Covered(Apply(s, l))
  {
    hide Apply, Enabled;
    if l.WriteLands? {
      LandsWritten(s, l);
      LandsIs(s, l);
    } else if l.WriteFails? {
      FailsWritten(s, l);
      LandsIs(s, l);
    } else {
      StepLog(s, l);
      WrittenStep(s, l);
    }
  }

  lemma LandsIs(s: State, l: Label)
    requires Enabled(s, l) && (l.WriteLands? || l.WriteFails?)
    ensures Apply(s, l).snaps == s.snaps
  {
  }

  /** Exactly two kinds of step give the lock back early: a cancellation delivered to a draining remove(), and
      one delivered to the post-fire write of a doubled loop, while the write is unsettled. */
  lemma ReleasesEarlyIff(s: State, l: Label)
    requires Inv(s) && Enabled(s, l)
    ensures ReleasesEarly(s, l) <==>
      && l.DeliverCancel? && (s.tasks[l.t].pc.RemoveDrain? || s.tasks[l.t].pc.PersistWrite?) && !Settled(s, s.tasks[l.t].pc.w)
    ensures ReleasesEarly(s, l) && s.tasks[l.t].pc.PersistWrite? ==> s.tasks[l.t].kind.Timer? && s.tasks[l.t].kind.loop in s.doubled
  {
    hide Core, CloseWindow, Apply, Enabled;
    UseStore(s, if s.lock.Some? then s.lock.value else 0, 0);
    if ReleasesEarly(s, l) {
      EarlyIsDeliver(s, l);
    }
    if l.DeliverCancel? {
      DeliverTarget(s, l);
      UseStore(s, l.t, 0);
      UseCore(s, l.t, 0);
      if s.tasks[l.t].pc.RemoveDrain? {
        DrainEndsIs(s, l);
      } else if s.tasks[l.t].pc.PersistWrite? {
        DeliverClosesIs(s, l);
        CloseKeepsLog(Release(s), l.t, s.tasks[l.t].kind.loop, false);
      } else {
        OtherDeliversKeepLock(s, l);
      }
    }
  }

  lemma DeliverTarget(s: State, l: Label)
    requires Enabled(s, l) && l.DeliverCancel?
    ensures l.t in s.tasks && s.tasks[l.t].cancel
  {
  }

  lemma OtherDeliversKeepLock(s: State, l: Label)
    requires Inv(s) && Enabled(s, l) && l.DeliverCancel? && !s.tasks[l.t].pc.RemoveDrain? && !s.tasks[l.t].pc.PersistWrite?
    ensures Apply(s, l).lock == s.lock
  {
    hide Core, Store, CloseWindow;
    if s.tasks[l.t].pc.PersistWait? {
      CloseKeepsLog(s, l.t, s.tasks[l.t].kind.loop, false);
    } else if !s.tasks[l.t].pc.RemoveWrite? {
      CancelledHoldsNothing(s, l.t);
      DeliverInPlaceIs(s, l);
    }
  }

  /** Every other step that gives the lock back waits for the write. */
  lemma EarlyIsDeliver(s: State, l: Label)
    requires Inv(s) && Enabled(s, l) && ReleasesEarly(s, l)
    ensures l.DeliverCancel?
  {
    hide Core, Store, Apply, Finds;
    if l.AddFinish? || l.UpdateFinish? || l.RemoveFinish? || l.PersistFinish? {
      UseStore(s, l.t, 0);
      FinisherWaits(s, l);
    } else if !l.DeliverCancel? {
      OthersKeepLock(s, l);
    }
  }

  lemma FinisherWaits(s: State, l: Label)
    requires Inv(s) && Enabled(s, l) && (l.AddFinish? || l.UpdateFinish? || l.RemoveFinish? || l.PersistFinish?)
    ensures |s.writes| >= 1 && Settled(s, |s.writes| - 1)
  {
    UseStore(s, l.t, 0);
  }

  lemma OthersKeepLock(s: State, l: Label)
    requires Enabled(s, l) && !l.AddFinish? && !l.UpdateFinish? && !l.RemoveFinish? && !l.PersistFinish? && !l.DeliverCancel?
    ensures s.lock.Some? ==> Apply(s, l).lock.Some?
  {
    hide ArmTimer, CloseWindow, RemoveSync, Backoff, Live, AtCapNow;
    if l.NotifyTurn? && l.hit.Some? {
      ArmKeepsLog(s, l.hit.value, s.objs[l.hit.value].idle, None);
    } else if l.CallbackReturns? {
      CallbackKeepsLock(s, l);
    } else if l.AddBegin? || l.RemoveBegin? {
      BeginsLog(s, l);
    }
  }

  lemma CallbackKeepsLock(s: State, l: Label)
    requires Enabled(s, l) && l.CallbackReturns?
    ensures Apply(s, l).lock == s.lock
  {
    hide ArmTimer, CloseWindow, Backoff;
    var id := s.tasks[l.t].kind.loop;
    match l.outcome
    case RaisedCancelled => CloseKeepsLog(s, l.t, id, false);
    case Undelivered =>
      if id !in s.reg || !s.objs[id].active {
        CloseKeepsLog(s.(fails := s.fails - {id}), l.t, id, true);
      } else {
        var n := (if id in s.fails then s.fails[id] else 0) + 1;
        ArmThenCloseKeepsLog(s.(fails := s.fails[id := n]), l.t, id, Backoff(n, s.objs[id].idle));
      }
    case Delivered(_) =>
  }
}

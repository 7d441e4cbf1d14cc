/** The streak of undelivered fires of one loop, over runs: how the counter moves, and the delays it sets. */
module AutoNudgeStreak {
  import opened Options
  import opened AutoNudgeProtocol
  import opened AutoNudgeInvariant
  import opened AutoNudgeTheorems
  import opened AutoNudgeRearm

  function Streak(s: State, id: LoopId): nat {
    if id in s.fails then s.fails[id] else 0
  }

  /** A fire of the live active loop `id` goes undelivered. */
  ghost predicate Misses(s: State, l: Label, id: LoopId)
    requires Enabled(s, l)
  {
    && l.CallbackReturns? && l.outcome.Undelivered? && s.tasks[l.t].kind.loop == id
    && id in s.reg && s.objs[id].active
  }

  /** The streak of `id` ends: a fire is delivered, a fire goes undelivered once the loop is gone or
      switched off, or the loop is removed. */
  ghost predicate EndsStreak(s: State, l: Label, id: LoopId)
    requires Enabled(s, l)
  {
    || (l.CallbackReturns? && !l.outcome.RaisedCancelled? && s.tasks[l.t].kind.loop == id && !Misses(s, l, id))
    || (l.AddBegin? && l.existing == Some(id))
    || (l.RemoveBegin? && s.tasks[l.t].pc.target == id)
  }

  // ----- how one step moves the counter -----

  lemma ArmFails(s: State, id: LoopId, delay: int, cur: Option<TaskId>)
    ensures ArmTimer(s, id, delay, cur).fails == s.fails
  {
  }

  lemma CloseFails(s: State, t: TaskId, id: LoopId, ok: bool)
    requires t in s.tasks && id in s.objs
    ensures CloseWindow(s, t, id, ok).fails == s.fails
  {
    hide ArmTimer;
    var d := s.(firing := s.firing - {id}, rearm := s.rearm - {id});
    ArmFails(d, id, s.objs[id].idle, Some(t));
  }

  lemma ArmThenCloseFails(s: State, t: TaskId, id: LoopId, delay: int)
    requires t in s.tasks && id in s.objs
    ensures t in ArmTimer(s, id, delay, Some(t)).tasks && ArmTimer(s, id, delay, Some(t)).objs == s.objs
    ensures CloseWindow(ArmTimer(s, id, delay, Some(t)), t, id, true).fails == s.fails
  {
    hide CloseWindow;
    CloseFails(ArmTimer(s, id, delay, Some(t)), t, id, true);
  }

  lemma RemovalFails(s: State, target: LoopId, t: TaskId, id: LoopId)
    requires id != target
    ensures Streak(RemoveSync(s, target, Some(t)), id) == Streak(s, id)
  {
  }

  lemma BeginsFails(s: State, l: Label, id: LoopId)
    requires Enabled(s, l) && (l.AddBegin? || l.RemoveBegin?) && !EndsStreak(s, l, id)
    ensures Streak(Apply(s, l), id) == Streak(s, id)
  {
    hide RemoveSync, Finds;
    if l.AddBegin? {
      if l.existing.Some? { RemovalFails(s, l.existing.value, l.t, id); }
    } else {
      RemovalFails(s, s.tasks[l.t].pc.target, l.t, id);
    }
  }

  lemma TimersFail(s: State, l: Label)
    requires Enabled(s, l) && (l.AddFinish? || l.UpdateFinish? || l.NotifyTurn? || l.NotifyInput?)
    ensures Apply(s, l).fails == s.fails
  {
    hide ArmTimer;
    if l.AddFinish? {
      var id := s.tasks[l.t].pc.id;
      ArmFails(Noted(Release(s), id), id, s.objs[id].idle, Some(l.t));
    } else if l.UpdateFinish? {
      var id := s.tasks[l.t].pc.id;
      var c := CancelTimer(Release(s), id, Some(l.t));
      ArmFails(c, id, c.objs[id].idle, Some(l.t));
    } else if l.NotifyTurn? && l.hit.Some? {
      ArmFails(s, l.hit.value, s.objs[l.hit.value].idle, None);
    }
  }

  lemma ClosesFail(s: State, l: Label)
    requires Enabled(s, l) && (l.PersistFinish? || l.DeliverCancel?)
    ensures Apply(s, l).fails == s.fails
  {
    hide ArmTimer, CloseWindow;
    if l.PersistFinish? {
      var id := s.tasks[l.t].kind.loop;
      CloseFails(Release(s), l.t, id, true);
      CloseFails(Release(s), l.t, id, false);
      ArmThenCloseFails(Release(s), l.t, id, s.objs[id].idle);
    } else if s.tasks[l.t].pc.PersistWait? {
      CloseFails(s, l.t, s.tasks[l.t].kind.loop, false);
    } else if s.tasks[l.t].pc.PersistWrite? {
      CloseFails(Release(s), l.t, s.tasks[l.t].kind.loop, false);
    }
  }

  lemma CallbackFails(s: State, l: Label, id: LoopId)
    requires Enabled(s, l) && l.CallbackReturns? && !EndsStreak(s, l, id)
    ensures Streak(Apply(s, l), id) == Streak(s, id) + if Misses(s, l, id) then 1 else 0
  {
    hide ArmTimer, CloseWindow, Backoff;
    var own := s.tasks[l.t].kind.loop;
    match l.outcome
    case RaisedCancelled => CloseFails(s, l.t, own, false);
    case Undelivered =>
      var n := Streak(s, own) + 1;
      CloseFails(s.(fails := s.fails - {own}), l.t, own, true);
      if own in s.reg && s.objs[own].active {
        ArmThenCloseFails(s.(fails := s.fails[own := n]), l.t, own, Backoff(n, s.objs[own].idle));
      }
    case Delivered(_) =>
  }

  lemma OthersFail(s: State, l: Label)
    requires Enabled(s, l) && !l.AddBegin? && !l.RemoveBegin? && !l.AddFinish? && !l.UpdateFinish? && !l.NotifyTurn?
    requires !l.NotifyInput? && !l.PersistFinish? && !l.DeliverCancel? && !l.CallbackReturns?
    ensures Apply(s, l).fails == s.fails
  {
    hide Finds, Live, AtCapNow;
    if !l.AddCall? && !l.UpdateCall? && !l.RemoveCall? && !l.CancelCaller? && !l.UpdateBegin? { ParksFail(s, l); }
  }

  lemma ParksFail(s: State, l: Label)
    requires Enabled(s, l)
    requires l.RemoveFinish? || l.PersistBegin? || l.WriteLands? || l.WriteFails? || l.TimerWake? || l.CallbackRemoves? || l.InnerDone?
    ensures Apply(s, l).fails == s.fails
  {
    hide Finds, Live;
    if l.TimerWake? { WakeFails(s, l); }
  }

  lemma WakeFails(s: State, l: Label)
    requires Enabled(s, l) && l.TimerWake?
    ensures Apply(s, l).fails == s.fails
  {
    hide Finds, Live, AtCapNow;
  }

  /** The counter rises by one with each miss, and otherwise stays until the streak ends. */
  lemma StreakStep(s: State, l: Label, id: LoopId)
    requires Enabled(s, l) && !EndsStreak(s, l, id)
    ensures Streak(Apply(s, l), id) == Streak(s, id) + if Misses(s, l, id) then 1 else 0
  {
    hide Apply, Enabled;
    match l
    case AddBegin(_, _, _) => BeginsFails(s, l, id);
    case RemoveBegin(_) => BeginsFails(s, l, id);
    case AddFinish(_) => TimersFail(s, l);
    case UpdateFinish(_) => TimersFail(s, l);
    case NotifyTurn(_, _) => TimersFail(s, l);
    case NotifyInput(_, _) => TimersFail(s, l);
    case PersistFinish(_) => ClosesFail(s, l);
    case DeliverCancel(_) => ClosesFail(s, l);
    case CallbackReturns(_, _) => CallbackFails(s, l, id);
    case _ => OthersFail(s, l);
  }

  // ----- over a run -----

  /** How many fires of `id` went undelivered in the steps `i..k`. */
  ghost function MissCount(ss: seq<State>, ls: seq<Label>, id: LoopId, i: nat, k: nat): nat
    requires IsRun(ss, ls) && i <= k <= |ls|
    decreases k
  {
    if k == i then 0
    else
      StepOf(ss, ls, k - 1);
      MissCount(ss, ls, id, i, k - 1) + if Misses(ss[k - 1], ls[k - 1], id) then 1 else 0
  }

  /** The streak goes on through the steps `i..k`. */
  ghost predicate StreakLasts(ss: seq<State>, ls: seq<Label>, id: LoopId, i: nat, k: nat)
    requires |ss| == |ls| + 1 && i <= k <= |ls|
  {
    forall j :: i <= j < k ==> Enabled(ss[j], ls[j]) && !EndsStreak(ss[j], ls[j], id)
  }

  /** Over any stretch of any run in which the streak goes on, the counter rises by the number of misses. */
  lemma {:induction false} StreakCountsMisses(ss: seq<State>, ls: seq<Label>, id: LoopId, i: nat, k: nat)
    requires IsRun(ss, ls) && i <= k <= |ls| && StreakLasts(ss, ls, id, i, k)
    ensures Streak(ss[k], id) == Streak(ss[i], id) + MissCount(ss, ls, id, i, k)
    decreases k
  {
    hide Apply, Enabled, EndsStreak, Misses, StepAt, Init, Streak;
    if k > i {
      StreakCountsMisses(ss, ls, id, i, k - 1);
      StepOf(ss, ls, k - 1);
      StreakStep(ss[k - 1], ls[k - 1], id);
    }
  }

  /** The delay that the loop's timer sleeps after a step. */
  ghost predicate ArmedFor(r: State, id: LoopId, delay: int) {
    Armed(r, id) && r.tasks[r.timers[id]].pc.delay == delay
  }

  /** A miss arms the loop: after the backoff of its streak, or the idle time if a turn asked for it. */
  lemma MissArms(s: State, l: Label, id: LoopId)
    requires Inv(s) && Enabled(s, l) && Misses(s, l, id)
    ensures id in s.objs && ArmedFor(Apply(s, l), id, if id in s.rearm then s.objs[id].idle else Backoff(Streak(s, id) + 1, s.objs[id].idle))
  {
    UseCore(s, l.t, id);
    UndeliveredArms(s, l, id);
  }

  /** Over a streak of any run, at a fixed idle time of at least 15 seconds, the delay armed by a later miss is
      not below that of an earlier one, unless a completed turn asked for the plain idle time at the earlier
      one; and both are at least 15 and at most min(300, idle), or the idle time itself. */
  lemma DelaysDoNotShrink(ss: seq<State>, ls: seq<Label>, id: LoopId, i: nat, k: nat, di: int, dk: int)
    requires IsRun(ss, ls) && i < k < |ls| && StreakLasts(ss, ls, id, i, k)
    requires Enabled(ss[i], ls[i]) && Misses(ss[i], ls[i], id) && id !in ss[i].rearm
    requires Enabled(ss[k], ls[k]) && Misses(ss[k], ls[k], id)
    requires id in ss[i].objs && id in ss[k].objs && ss[i].objs[id].idle == ss[k].objs[id].idle >= MIN_IDLE_SECS
    requires ArmedFor(ss[i + 1], id, di) && ArmedFor(ss[k + 1], id, dk)
    ensures MIN_IDLE_SECS <= di <= dk <= ss[k].objs[id].idle
    ensures di <= REARM_MAX_BACKOFF_SECS && (id !in ss[k].rearm ==> dk <= REARM_MAX_BACKOFF_SECS)
  {
    hide Inv, Armed, Backoff, EndsStreak, Apply, Enabled, Misses, StepAt, Init, Streak, StreakLasts;
    Reachable(ss, ls, i);
    Reachable(ss, ls, k);
    StepOf(ss, ls, i);
    StepOf(ss, ls, k);
    MissArms(ss[i], ls[i], id);
    MissArms(ss[k], ls[k], id);
    StreakCountsMisses(ss, ls, id, i, k);
    MissCountGrows(ss, ls, id, i, k);
    BackoffLadder(Streak(ss[i], id) + 1, Streak(ss[k], id) + 1, ss[k].objs[id].idle);
  }

  lemma {:induction false} MissCountGrows(ss: seq<State>, ls: seq<Label>, id: LoopId, i: nat, k: nat)
    requires IsRun(ss, ls) && i < k <= |ls| && Enabled(ss[i], ls[i]) && Misses(ss[i], ls[i], id)
    ensures MissCount(ss, ls, id, i, k) >= 1
    decreases k
  {
    StepOf(ss, ls, k - 1);
    if k - 1 > i {
      MissCountGrows(ss, ls, id, i, k - 1);
    }
  }
}

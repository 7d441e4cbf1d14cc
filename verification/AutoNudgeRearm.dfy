/** Deferred re-arms and the backoff ladder. */
module AutoNudgeRearm {
  import opened Options
  import opened AutoNudgeProtocol
  import opened AutoNudgeInvariant
  import opened AutoNudgeTasks
  import opened AutoNudgeSteps
  import opened AutoNudgeStoreSteps
  import opened AutoNudgeFacts
  import opened AutoNudgeTheorems

  // ----- the deferred re-arm -----

  /** What a watcher of the calls alone would say: within the window still open after `k` steps the
      last of the two hooks was a turn completing on the active loop, and the loop was not removed
      since. */
  ghost predicate Wants(ss: seq<State>, ls: seq<Label>, id: LoopId, k: nat)
    requires IsRun(ss, ls) && k <= |ls|
  {
    k > 0 && id in ss[k].firing && !(id in ss[k - 1].reg && id !in ss[k].reg) &&
    var s, l := ss[k - 1], ls[k - 1];
    if l.NotifyTurn? && l.hit == Some(id) && id in s.firing && id in s.objs && s.objs[id].active then true
    else if l.NotifyInput? && l.hit == Some(id) then false
    else Wants(ss, ls, id, k - 1)
  }

  /** A step other than the two hooks keeps a deferred re-arm while the window stays open and the
      loop stays registered, and drops it otherwise. */
  ghost predicate RearmKept(s: State, r: State, id: LoopId) {
    id in r.rearm <==> id in s.rearm && id in r.firing && !(id in s.reg && id !in r.reg)
  }

  lemma CloseRearm(s: State, t: TaskId, id: LoopId, ok: bool, j: LoopId)
    requires t in s.tasks && id in s.objs && (j in s.rearm ==> j in s.firing)
    ensures RearmKept(s, CloseWindow(s, t, id, ok), j)
  {
    if id in s.rearm && s.objs[id].active && id in s.reg {
      var d := s.(firing := s.firing - {id}, rearm := s.rearm - {id});
      var a := ArmTimer(d, id, s.objs[id].idle, Some(t));
      assert a.rearm == d.rearm && a.firing == d.firing && a.reg == d.reg;
    }
  }

  lemma FireEndsRearm(s: State, l: Label, j: LoopId)
    requires Inv(s) && Enabled(s, l) && (l.PersistFinish? || l.CallbackReturns? || l.DeliverCancel?)
    ensures RearmKept(s, Apply(s, l), j)
  {
    UseCore(s, l.t, j);
    if l.PersistFinish? {
      var id := s.tasks[l.t].kind.loop;
      var r := Release(s);
      CloseRearm(r, l.t, id, !s.writes[s.tasks[l.t].pc.w].Failed?, j);
      CloseRearm(ArmTimer(r, id, s.objs[id].idle, Some(l.t)), l.t, id, true, j);
    } else if l.CallbackReturns? {
      CallbackRearm(s, l, j);
    } else if s.tasks[l.t].pc.PersistWait? || s.tasks[l.t].pc.PersistWrite? {
      DeliverClosesIs(s, l);
      CloseRearm(LetGo(s, l.t), l.t, s.tasks[l.t].kind.loop, false, j);
    } else {
      DeliverRearm(s, l, j);
    }
  }

  lemma DeliverRearm(s: State, l: Label, j: LoopId)
    requires Inv(s) && Enabled(s, l) && l.DeliverCancel? && !s.tasks[l.t].pc.PersistWait? && !s.tasks[l.t].pc.PersistWrite?
    ensures RearmKept(s, Apply(s, l), j)
  {
    hide Core, Store, CloseWindow, ArmTimer;
    UseCore(s, l.t, j);
    if s.tasks[l.t].pc.RemoveWrite? {
      assert Apply(s, l) == SetPc(s, l.t, RemoveDrain(s.tasks[l.t].pc.w, s.tasks[l.t].pc.nested));
    } else if s.tasks[l.t].pc.RemoveDrain? {
      DrainEndsIs(s, l);
    } else {
      CancelledHoldsNothing(s, l.t);
      DeliverInPlaceIs(s, l);
    }
  }

  lemma CallbackRearm(s: State, l: Label, j: LoopId)
    requires Core(s) && Enabled(s, l) && l.CallbackReturns?
    ensures RearmKept(s, Apply(s, l), j)
  {
    hide Core, CloseWindow, ArmTimer, Backoff;
    UseCore(s, l.t, j);
    var id := s.tasks[l.t].kind.loop;
    match l.outcome
    case RaisedCancelled => CloseRearm(s, l.t, id, false, j);
    case Undelivered =>
      CloseRearm(s.(fails := s.fails - {id}), l.t, id, true, j);
      var n := (if id in s.fails then s.fails[id] else 0) + 1;
      var f := s.(fails := s.fails[id := n]);
      var d := Backoff(n, s.objs[id].idle);
      CloseRearm(ArmTimer(f, id, d, Some(l.t)), l.t, id, true, j);
    case Delivered(_) =>
  }

  lemma BeginsRearm(s: State, l: Label, j: LoopId)
    requires Inv(s) && Enabled(s, l) && (l.AddBegin? || l.RemoveBegin?)
    ensures RearmKept(s, Apply(s, l), j)
  {
    hide Core, Store, RemoveSync;
    UseCore(s, l.t, j);
    RearmHasLoop(s, j);
    RemovalRearm(s, if l.AddBegin? then l.existing else Some(s.tasks[l.t].pc.target), l.t, j);
  }

  lemma RearmHasLoop(s: State, j: LoopId)
    requires Core(s)
    ensures j in s.rearm ==> j in s.firing && j in s.objs
  {
    UseCore(s, 0, j);
    if j in s.firing { UseCore(s, s.firing[j], j); }
  }

  lemma RemovalRearm(s: State, existing: Option<LoopId>, t: TaskId, j: LoopId)
    requires j in s.rearm ==> j in s.firing
    ensures
      var r := if existing.Some? then RemoveSync(s, existing.value, Some(t)) else s;
      RearmKept(s, r, j) && r.firing == s.firing && r.objs == s.objs
  {
    if existing.Some? && existing.value in s.reg {
      var c := CancelTimer(s.(reg := s.reg - {existing.value}), existing.value, Some(t));
      assert c.rearm == s.rearm && c.firing == s.firing && c.reg == s.reg - {existing.value};
    }
  }

  lemma FinishesRearm(s: State, l: Label, j: LoopId)
    requires Inv(s) && Enabled(s, l) && (l.AddFinish? || l.UpdateFinish?)
    ensures RearmKept(s, Apply(s, l), j)
  {
    hide Core, Store, ArmTimer, CancelTimer;
    UseCore(s, l.t, j);
    if l.AddFinish? {
      if !s.writes[s.tasks[l.t].pc.w].Failed? { AddFinishIs(s, l); }
    } else if !s.writes[s.tasks[l.t].pc.w].Failed? && s.tasks[l.t].pc.id !in s.firing {
      UpdateRestarts(s, l);
    }
  }

  lemma ParksRearm(s: State, l: Label, j: LoopId)
    requires Inv(s) && Enabled(s, l) && (l.UpdateBegin? || l.RemoveFinish? || l.PersistBegin? || l.InnerDone? || l.CallbackRemoves?)
    ensures RearmKept(s, Apply(s, l), j)
  {
    UseCore(s, l.t, j);
  }

  lemma PlainRearm(s: State, l: Label, j: LoopId)
    requires Inv(s) && Enabled(s, l)
    requires l.AddCall? || l.UpdateCall? || l.RemoveCall? || l.CancelCaller? || l.WriteLands? || l.WriteFails? || l.TimerWake?
    ensures RearmKept(s, Apply(s, l), j)
  {
    hide Core, Store, Finds;
    UseCore(s, 0, j);
  }

  lemma StepRearm(s: State, l: Label, j: LoopId)
    requires Inv(s) && Enabled(s, l) && !l.NotifyTurn? && !l.NotifyInput?
    ensures RearmKept(s, Apply(s, l), j)
  {
    match l
    case PersistFinish(_) => FireEndsRearm(s, l, j);
    case CallbackReturns(_, _) => FireEndsRearm(s, l, j);
    case DeliverCancel(_) => FireEndsRearm(s, l, j);
    case AddBegin(_, _, _) => BeginsRearm(s, l, j);
    case RemoveBegin(_) => BeginsRearm(s, l, j);
    case AddFinish(_) => FinishesRearm(s, l, j);
    case UpdateFinish(_) => FinishesRearm(s, l, j);
    case UpdateBegin(_) => ParksRearm(s, l, j);
    case RemoveFinish(_) => ParksRearm(s, l, j);
    case PersistBegin(_) => ParksRearm(s, l, j);
    case InnerDone(_) => ParksRearm(s, l, j);
    case CallbackRemoves(_, _) => ParksRearm(s, l, j);
    case _ => PlainRearm(s, l, j);
  }

  lemma ArmKeepsRearm(s: State, id: LoopId, delay: int)
    ensures var a := ArmTimer(s, id, delay, None); a.rearm == s.rearm && a.firing == s.firing && a.reg == s.reg
  {
  }

  lemma NotifyRearm(s: State, l: Label, j: LoopId)
    requires Inv(s) && Enabled(s, l) && (l.NotifyTurn? || l.NotifyInput?)
    ensures Apply(s, l).firing == s.firing && Apply(s, l).reg == s.reg
    ensures l.hit != Some(j) || j !in s.firing ==> (j in Apply(s, l).rearm <==> j in s.rearm)
    ensures l.hit == Some(j) && j in s.firing ==>
      (j in Apply(s, l).rearm <==> if l.NotifyTurn? && s.objs[j].active then true else l.NotifyTurn? && j in s.rearm)
  {
    hide ArmTimer, CancelTimer, Core, Store, Apply, Enabled;
    UseCore(s, 0, j);
    NotifyIs(s, l);
  }

  /** The service's own set of deferred re-arms is what the watcher of the calls says it is. */
  lemma {:induction false} RearmIsWanted(ss: seq<State>, ls: seq<Label>, id: LoopId, k: nat)
    requires IsRun(ss, ls) && k <= |ls|
    ensures id in ss[k].rearm <==> Wants(ss, ls, id, k)
  {
    hide Core, Store, Apply;
    Reachable(ss, ls, k);
    UseCore(ss[k], 0, id);
    if k > 0 {
      RearmIsWanted(ss, ls, id, k - 1);
      Reachable(ss, ls, k - 1);
      StepOf(ss, ls, k - 1);
      if ls[k - 1].NotifyTurn? || ls[k - 1].NotifyInput? {
        NotifyRearm(ss[k - 1], ls[k - 1], id);
        UseCore(ss[k - 1], 0, id);
      } else {
        StepRearm(ss[k - 1], ls[k - 1], id);
      }
    }
  }

  /** The step in which a fire of `id` ends and its window closes. */
  ghost predicate EndsFire(s: State, l: Label, id: LoopId)
    requires Enabled(s, l)
  {
    && (l.PersistFinish? || (l.CallbackReturns? && !l.outcome.Delivered?) || (l.DeliverCancel? && s.tasks[l.t].pc.PersistWait?))
    && id in s.firing && s.firing[id] == l.t
  }

  /** The fire's own decision to re-arm: always after a missed delivery, on a channel key after a
      recorded one. */
  ghost predicate SelfRearms(s: State, l: Label, id: LoopId)
    requires Enabled(s, l) && id in s.objs
  {
    || (l.CallbackReturns? && l.outcome.Undelivered?)
    || (l.PersistFinish? && s.writes[s.tasks[l.t].pc.w].Landed? && IsChannelKey(s.objs[id].slot))
  }

  /** A timer of the loop is asleep and has not been told to stop. */
  predicate Armed(s: State, id: LoopId) {
    && id in s.timers && s.timers[id] in s.tasks
    && s.tasks[s.timers[id]].kind == Timer(id) && s.tasks[s.timers[id]].pc.Sleeping? && !s.tasks[s.timers[id]].cancel
  }

  lemma CloseArms(s: State, t: TaskId, id: LoopId, ok: bool)
    requires t in s.tasks && t < s.next && id in s.objs
    requires Armed(s, id) ==> s.timers[id] != t
    requires !Armed(s, id) ==> (id in s.timers ==> s.timers[id] == t && !s.tasks[t].pc.Sleeping?)
    ensures Armed(CloseWindow(s, t, id, ok), id) <==> Armed(s, id) || (id in s.rearm && s.objs[id].active && id in s.reg)
    ensures id !in CloseWindow(s, t, id, ok).firing
  {
    CloseIs(s, t, id, ok);
  }

  lemma ArmArms(s: State, id: LoopId, delay: int, t: TaskId)
    requires t < s.next
    ensures var a := ArmTimer(s, id, delay, Some(t)); Armed(a, id) && a.timers[id] == s.next != t && a.tasks[s.next].pc == Sleeping(delay)
  {
  }

  lemma WindowTimerIsOwn(s: State, id: LoopId)
    requires Core(s) && id in s.firing
    ensures IsTimer(s, s.firing[id], id) && id in s.objs && s.firing[id] < s.next && FirePc(s.tasks[s.firing[id]].pc)
    ensures id in s.timers && id !in s.doubled ==> s.timers[id] == s.firing[id]
  {
    UseCore(s, s.firing[id], id);
    UseCore(s, 0, id);
  }

  /** When the fire window of a loop that is not doubled closes, the loop has an armed timer exactly if it
      is still registered and active and either a turn completed in the window with no user input after it,
      or the fire re-arms itself. */
  lemma CloseRearmsIff(s: State, l: Label, id: LoopId)
    requires Inv(s) && Enabled(s, l) && EndsFire(s, l, id) && id !in s.doubled
    ensures id in s.objs && id !in Apply(s, l).firing
    ensures Armed(Apply(s, l), id) <==> id in s.reg && s.objs[id].active && (id in s.rearm || SelfRearms(s, l, id))
  {
    WindowTimerIsOwn(s, id);
    UseCore(s, 0, id);
    var t := l.t;
    if l.PersistFinish? {
      PersistRearmsIff(s, l, id);
    } else if l.CallbackReturns? {
      if l.outcome.Undelivered? && id in s.reg && s.objs[id].active {
        UndeliveredArms(s, l, id);
      } else {
        CloseArms(s.(fails := s.fails - {id}), t, id, true);
        CloseArms(s, t, id, false);
      }
    } else {
      CloseArms(s, t, id, false);
    }
  }

  lemma PersistRearmsIff(s: State, l: Label, id: LoopId)
    requires Inv(s) && Enabled(s, l) && l.PersistFinish? && EndsFire(s, l, id) && id in s.objs && id !in s.doubled
    ensures id !in Apply(s, l).firing
    ensures Armed(Apply(s, l), id) <==> id in s.reg && s.objs[id].active && (id in s.rearm || SelfRearms(s, l, id))
  {
    WindowTimerIsOwn(s, id);
    UseCore(s, 0, id);
    var r := Release(s);
    if !s.writes[s.tasks[l.t].pc.w].Failed? && IsChannelKey(s.objs[id].slot) && s.objs[id].active && id in s.reg {
      ArmArms(r, id, s.objs[id].idle, l.t);
      CloseArms(ArmTimer(r, id, s.objs[id].idle, Some(l.t)), l.t, id, true);
    } else {
      CloseArms(r, l.t, id, !s.writes[s.tasks[l.t].pc.w].Failed?);
    }
  }

  /** Arming a timer and then closing the window leaves the loop armed: with that delay, or with the idle
      time if a re-arm was pending. */
  lemma ArmThenClose(s: State, t: TaskId, id: LoopId, delay: int)
    requires t in s.tasks && t < s.next && id in s.objs && id in s.reg && s.objs[id].active
    ensures t in ArmTimer(s, id, delay, Some(t)).tasks
    ensures var r := CloseWindow(ArmTimer(s, id, delay, Some(t)), t, id, true);
      && Armed(r, id) && r.fails == s.fails && id !in r.firing
      && r.tasks[r.timers[id]].pc.delay == if id in s.rearm then s.objs[id].idle else delay
  {
    hide CloseWindow;
    ArmArms(s, id, delay, t);
    CloseIs(ArmTimer(s, id, delay, Some(t)), t, id, true);
  }

  /** An undelivered fire of a live active loop always re-arms it, after the backoff of its streak
      unless a completed turn asks for the plain idle time. */
  lemma UndeliveredArms(s: State, l: Label, id: LoopId)
    requires Inv(s) && Enabled(s, l) && l.CallbackReturns? && l.outcome.Undelivered? && s.tasks[l.t].kind.loop == id
    requires id in s.reg && id in s.objs && s.objs[id].active
    ensures
      var r := Apply(s, l);
      var n := (if id in s.fails then s.fails[id] else 0) + 1;
      && Armed(r, id) && id in r.fails && r.fails[id] == n && id !in r.firing
      && r.tasks[r.timers[id]].pc.delay == if id in s.rearm then s.objs[id].idle else Backoff(n, s.objs[id].idle)
  {
    hide Core, Store, CloseWindow, ArmTimer, Backoff;
    UseCore(s, l.t, id);
    var n := (if id in s.fails then s.fails[id] else 0) + 1;
    var f := s.(fails := s.fails[id := n]);
    ArmThenClose(f, l.t, id, Backoff(n, s.objs[id].idle));
  }

  // ----- the backoff ladder -----

  lemma {:induction false} Pow2Monotone(m: nat, n: nat)
    requires m <= n
    ensures 1 <= Pow2(m) <= Pow2(n)
    decreases n
  {
    if m < n {
      Pow2Monotone(m, n - 1);
    } else if n > 0 {
      Pow2Monotone(m - 1, n - 1);
    }
  }

  /** Delays never shrink over a streak at a fixed idle time; they stay between 15 seconds and the
      smaller of five minutes and the idle time. */
  lemma BackoffLadder(m: nat, n: nat, idle: int)
    requires 1 <= m <= n && idle >= MIN_IDLE_SECS
    ensures MIN_IDLE_SECS <= Backoff(m, idle) <= Backoff(n, idle) <= Min(REARM_MAX_BACKOFF_SECS, idle)
    ensures n >= 6 ==> Backoff(n, idle) == Min(REARM_MAX_BACKOFF_SECS, idle)
  {
    Pow2Monotone(Min(m - 1, REARM_BACKOFF_MAX_SHIFT), Min(n - 1, REARM_BACKOFF_MAX_SHIFT));
    if n >= 6 {
      Pow2Monotone(5, Min(n - 1, REARM_BACKOFF_MAX_SHIFT));
      assert Pow2(5) == 32;
    }
  }
}

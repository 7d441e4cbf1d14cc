/** One loop per slot, over every run. */
module AutoNudgeSlots {
  import opened Options
  import opened AutoNudgeProtocol
  import opened AutoNudgeInvariant
  import opened AutoNudgeTasks
  import opened AutoNudgeStoreSteps
  import opened AutoNudgeLog
  import opened AutoNudgeFacts
  import opened AutoNudgeTheorems
  import opened AutoNudgeRearm
  import opened AutoNudgeEffects

  /** No two registered loops share a slot. */
  ghost predicate SlotsApart(s: State) {
    forall i, j :: i in s.reg && j in s.reg && i in s.objs && j in s.objs && s.objs[i].slot == s.objs[j].slot ==> i == j
  }

  // ----- only an add registers a loop -----

  lemma CallbackRegisters(s: State, l: Label)
    requires Enabled(s, l) && l.CallbackReturns?
    ensures Apply(s, l).reg == s.reg
  {
    hide ArmTimer, CloseWindow, Backoff, Apply, Enabled;
    CallbackIs(s, l);
  }

  lemma DeliverRegisters(s: State, l: Label)
    requires Enabled(s, l) && l.DeliverCancel?
    ensures Apply(s, l).reg == s.reg
  {
    hide CloseWindow, Apply, Enabled;
    DeliverTarget(s, l);
    if s.tasks[l.t].pc.PersistWait? || s.tasks[l.t].pc.PersistWrite? {
      DeliverClosesIs(s, l);
    } else {
      DeliverParksLog(s, l);
    }
  }

  lemma FinishRegisters(s: State, l: Label)
    requires Enabled(s, l) && (l.PersistFinish? || l.AddFinish? || l.UpdateFinish? || l.NotifyTurn? || l.NotifyInput?)
    ensures Apply(s, l).reg == s.reg
  {
    hide CloseWindow, ArmTimer, CancelTimer, Apply, Enabled;
    if l.PersistFinish? {
      PersistFinishIs(s, l);
    } else if l.AddFinish? {
      AddEndIs(s, l);
    } else if l.UpdateFinish? {
      UpdateFinishIs(s, l);
    } else {
      NotifyIs(s, l);
    }
  }

  lemma BeginsRegister(s: State, l: Label)
    requires Enabled(s, l) && (l.UpdateBegin? || l.RemoveBegin? || l.RemoveFinish? || l.PersistBegin?)
    ensures Apply(s, l).reg <= s.reg
  {
    hide RemoveSync, Live, ApplyChange;
  }

  lemma OthersRegister(s: State, l: Label)
    requires Enabled(s, l)
    requires l.AddCall? || l.UpdateCall? || l.RemoveCall? || l.CancelCaller? || l.WriteLands? || l.WriteFails?
      || l.TimerWake? || l.CallbackRemoves? || l.InnerDone?
    ensures Apply(s, l).reg <= s.reg
  {
    hide AtCapNow, Finds;
  }

  lemma OnlyAddsRegister(s: State, l: Label)
    requires Enabled(s, l) && !l.AddBegin?
    ensures Apply(s, l).reg <= s.reg
  {
    hide Apply, Enabled;
    match l
    case CallbackReturns(_, _) => CallbackRegisters(s, l);
    case DeliverCancel(_) => DeliverRegisters(s, l);
    case PersistFinish(_) => FinishRegisters(s, l);
    case AddFinish(_) => FinishRegisters(s, l);
    case UpdateFinish(_) => FinishRegisters(s, l);
    case NotifyTurn(_, _) => FinishRegisters(s, l);
    case NotifyInput(_, _) => FinishRegisters(s, l);
    case UpdateBegin(_) => BeginsRegister(s, l);
    case RemoveBegin(_) => BeginsRegister(s, l);
    case RemoveFinish(_) => BeginsRegister(s, l);
    case PersistBegin(_) => BeginsRegister(s, l);
    case _ => OthersRegister(s, l);
  }

  // ----- add() replaces -----

  /** What add() leaves of the slot: with slots apart before, the new loop is the only one registered on it, and
      slots are apart again. */
  lemma AddReplaces(s: State, l: Label)
    requires Core(s) && Enabled(s, l) && l.AddBegin? && SlotsApart(s)
    ensures var r := Apply(s, l);
      && SlotsApart(r)
      && l.id in r.objs && r.objs[l.id].slot == s.tasks[l.t].pc.args.slot
      && (forall j :: j in r.reg && j in r.objs && r.objs[j].slot == s.tasks[l.t].pc.args.slot ==> j == l.id)
  {
    hide Apply, Enabled, Core;
    AddBeginEffect(s, l);
    AddBeginIs(s, l);
    var r := Apply(s, l);
    var slot := s.tasks[l.t].pc.args.slot;
    forall j | j in r.reg && j in r.objs && j != l.id
      ensures j in s.reg && j in s.objs && r.objs[j].slot == s.objs[j].slot != slot
    {
      KeptFrom(s, r, l, j);
      if s.objs[j].slot == slot { ExactIsFound(s, slot, l.existing, j); }
    }
  }

  /** A loop registered after the add, other than the new one, is one that was registered before and not found. */
  lemma KeptFrom(s: State, r: State, l: Label, j: LoopId)
    requires l.AddBegin? && OthersSame(s, r, Existing(l) + {l.id}) && j != l.id && j in r.reg && j in r.objs
    requires l.existing.Some? ==> l.existing.value !in r.reg
    ensures l.existing != Some(j) && j in s.reg && j in s.objs && r.objs[j] == s.objs[j]
  {
    assert j !in Existing(l) + {l.id};
    assert SameLoop(s, r, j);
  }

  /** With slots apart the lookup finds the loop of the slot. */
  lemma ExactIsFound(s: State, slot: string, hit: Option<LoopId>, j: LoopId)
    requires Finds(s, slot, hit) && SlotsApart(s) && ExactMatch(s, slot, j)
    ensures hit == Some(j)
  {
  }

  lemma SlotsStayApart(s: State, l: Label)
    requires Inv(s) && Enabled(s, l) && SlotsApart(s)
    ensures SlotsApart(Apply(s, l))
  {
    hide Apply, Enabled, Core, Store;
    if l.AddBegin? {
      AddReplaces(s, l);
    } else {
      OnlyAddsRegister(s, l);
      var r := Apply(s, l);
      forall j | j in r.reg ensures j in s.reg && j in s.objs && j in r.objs && r.objs[j].slot == s.objs[j].slot {
        UseCore(s, 0, j);
        StepMoves(s, l, j, 0);
        SlotKept(s, l, j);
      }
    }
  }

  lemma SlotKept(s: State, l: Label, j: LoopId)
    requires Enabled(s, l) && Moves(s, l, j, 0) && j in s.objs
    ensures j in Apply(s, l).objs && Apply(s, l).objs[j].slot == s.objs[j].slot
  {
    hide Apply, Enabled;
  }

  /** Over every run from a service whose loops have different slots, registered loops have different slots. */
  lemma {:induction false} OneLoopPerSlot(ss: seq<State>, ls: seq<Label>, k: nat)
    requires IsRun(ss, ls) && k < |ss| && SlotsApart(ss[0])
    ensures SlotsApart(ss[k])
  {
    hide Inv, SlotsApart;
    if k > 0 {
      OneLoopPerSlot(ss, ls, k - 1);
      Reachable(ss, ls, k - 1);
      StepOf(ss, ls, k - 1);
      SlotsStayApart(ss[k - 1], ls[k - 1]);
    }
  }
}

/** Every step keeps the task and timer tables in order. */
module AutoNudgeTasks {
  import opened Options
  import opened AutoNudgeProtocol
  import opened AutoNudgeInvariant

  // ----- generic moves -----

  /** Only the loop contents, counters, lock and log may differ. */
  lemma SameCore(s: State, r: State)
    requires Core(s)
    requires r.objs.Keys == s.objs.Keys && r.reg == s.reg && r.timers == s.timers && r.firing == s.firing
    requires r.tasks == s.tasks && r.next == s.next && r.doubled == s.doubled
    requires forall id :: id in r.rearm ==> id in s.firing
    ensures Core(r)
  {
    forall t ensures TaskOk(r, t) {
      UseCore(s, t, 0);
    }
    forall id ensures LoopOk(r, id) {
      UseCore(s, 0, id);
    }
  }

  lemma RearmInWindows(s: State)
    requires Core(s)
    ensures forall id :: id in s.rearm ==> id in s.firing
  {
    forall id ensures id in s.rearm ==> id in s.firing { UseCore(s, 0, id); }
  }

  /** Nothing that awaits the inner task `t` is misled by its new state in `r`. */
  ghost predicate CapsKept(s: State, r: State, t: TaskId) {
    forall u {:trigger s.tasks[u]} ::
      u in s.tasks && s.tasks[u].kind.Timer? && s.tasks[u].pc.AtCap? && s.tasks[u].pc.inner == t ==> CapPair(r, s.tasks[u])
  }

  /** One task moves to a new program point, perhaps opening or closing its loop's fire window. */
  lemma MoveCore(s: State, r: State, t: TaskId)
    requires Core(s) && t in s.tasks && t in r.tasks
    requires r == s.(tasks := s.tasks[t := r.tasks[t]], firing := r.firing, rearm := r.rearm)
    requires r.tasks[t].kind == s.tasks[t].kind
    requires TaskOk(r, t)
    requires r.tasks[t].kind.Inner? ==> CapsKept(s, r, t)
    requires r.tasks[t].kind.Timer? ==> r.tasks[t].cancel ==> s.tasks[t].cancel
    requires
      var id := if r.tasks[t].kind.Timer? then r.tasks[t].kind.loop else 0;
      if r.firing == s.firing then (id in s.firing && s.firing[id] == t && r.tasks[t].kind.Timer? ==> FirePc(r.tasks[t].pc))
      else
        && r.tasks[t].kind.Timer? && (id in s.firing && id !in s.doubled ==> s.firing[id] == t)
        && if FirePc(r.tasks[t].pc) then r.firing == s.firing[id := t] else r.firing == s.firing - {id}
    requires forall id :: id in r.rearm ==> id in r.firing
    ensures Core(r)
  {
    forall u ensures TaskOk(r, u) {
      UseCore(s, u, 0);
      UseCore(s, t, 0);
      if u in s.tasks && s.tasks[u].kind.Timer? && s.tasks[u].pc.AtCap? && s.tasks[u].pc.inner == t && t != u {
        assert CapPair(r, s.tasks[u]);
      }
    }
    forall id ensures LoopOk(r, id) {
      UseCore(s, t, id);
    }
  }

  lemma SpawnCore(s: State, task: Task)
    requires Core(s) && !task.kind.Timer?
    requires task.kind.Inner? ==> !task.cancel && InnerPc(task.pc)
    requires task.kind.Caller? ==> CallerPc(task.pc)
    ensures Core(Spawn(s, task))
  {
    var r := Spawn(s, task);
    UseCore(s, s.next, 0);
    forall u ensures TaskOk(r, u) {
      UseCore(s, u, 0);
      if u in s.tasks && s.tasks[u].kind.Timer? && s.tasks[u].pc.AtCap? {
        UseCore(s, s.tasks[u].pc.inner, 0);
      }
    }
    forall id ensures LoopOk(r, id) {
      UseCore(s, 0, id);
    }
  }

  /** A timer whose loop has left the timer table is told to stop. */
  lemma StopCore(s: State, r: State, id: LoopId)
    requires Core(s) && id in s.timers && s.timers[id] in s.tasks
    requires
      var u := s.timers[id];
      r == s.(timers := s.timers - {id}, tasks := s.tasks[u := s.tasks[u].(cancel := true)])
    requires id !in s.firing || id in s.doubled
    ensures Core(r)
  {
    var u := s.timers[id];
    UseCore(s, u, id);
    forall t ensures TaskOk(r, t) {
      UseCore(s, t, 0);
    }
    forall j ensures LoopOk(r, j) {
      UseCore(s, 0, j);
    }
  }

  /** A finished timer leaves the timer table. */
  lemma DropCore(s: State, r: State, id: LoopId)
    requires Core(s) && id in s.timers && s.timers[id] in s.tasks
    requires r == s.(timers := s.timers - {id}) && s.tasks[s.timers[id]].pc.Finished?
    ensures Core(r)
  {
    UseCore(s, s.timers[id], id);
    forall t ensures TaskOk(r, t) {
      UseCore(s, t, 0);
    }
    forall j ensures LoopOk(r, j) {
      UseCore(s, 0, j);
    }
  }

  lemma CancelCore(s: State, id: LoopId)
    requires Core(s) && (id !in s.firing || id in s.doubled)
    ensures Core(CancelTimer(s, id, None))
  {
    UseCore(s, 0, id);
    if id in s.timers {
      if s.tasks[s.timers[id]].pc.Finished? {
        DropCore(s, CancelTimer(s, id, None), id);
      } else {
        StopCore(s, CancelTimer(s, id, None), id);
      }
    }
  }

  lemma EnrolCore(s: State, id: LoopId, delay: int)
    requires Core(s) && id in s.reg && id !in s.timers && (id !in s.firing || id in s.doubled)
    ensures Core(Spawn(s, Task(Timer(id), Sleeping(delay), false)).(timers := s.timers[id := s.next]))
  {
    var r := Spawn(s, Task(Timer(id), Sleeping(delay), false)).(timers := s.timers[id := s.next]);
    UseCore(s, s.next, id);
    forall u ensures TaskOk(r, u) {
      UseCore(s, u, 0);
      if u in s.tasks && s.tasks[u].kind.Timer? && s.tasks[u].pc.AtCap? {
        UseCore(s, s.tasks[u].pc.inner, 0);
      }
    }
    forall j ensures LoopOk(r, j) {
      UseCore(s, 0, j);
    }
  }

  lemma ArmCore(s: State, id: LoopId, delay: int)
    requires Core(s) && id in s.reg && (id !in s.firing || id in s.doubled)
    ensures Core(ArmTimer(s, id, delay, None))
  {
    CancelCore(s, id);
    EnrolCore(CancelTimer(s, id, None), id, delay);
  }

  /** For a task that is not the loop's own timer, `current` makes no difference. */
  lemma CurrentIrrelevant(s: State, id: LoopId, t: TaskId, delay: int)
    requires id in s.timers ==> s.timers[id] != t
    ensures CancelTimer(s, id, Some(t)) == CancelTimer(s, id, None)
    ensures ArmTimer(s, id, delay, Some(t)) == ArmTimer(s, id, delay, None)
  {
  }

  /** Stopping the loop's timer from inside `t` and then ending `t` is ending it first. */
  lemma CancelThenEnd(s: State, t: TaskId, id: LoopId, ok: bool)
    requires t in s.tasks
    ensures SetPc(CancelTimer(s, id, Some(t)), t, Finished(ok)) == CancelTimer(SetPc(s, t, Finished(ok)), id, None)
  {
    if id in s.timers && s.timers[id] != t && s.timers[id] in s.tasks && !s.tasks[s.timers[id]].pc.Finished? {
      var u := s.timers[id];
      var stopped, ended := s.tasks[u].(cancel := true), s.tasks[t].(pc := Finished(ok), cancel := false);
      assert s.tasks[u := stopped][t := ended] == s.tasks[t := ended][u := stopped];
    }
  }

  lemma SpawnThenEnd(s: State, t: TaskId, id: LoopId, delay: int, ok: bool)
    requires t in s.tasks && t < s.next
    ensures
      var timer := Task(Timer(id), Sleeping(delay), false);
      SetPc(Spawn(s, timer).(timers := s.timers[id := s.next]), t, Finished(ok))
      == Spawn(SetPc(s, t, Finished(ok)), timer).(timers := s.timers[id := s.next])
  {
    var timer := Task(Timer(id), Sleeping(delay), false);
    var ended := s.tasks[t].(pc := Finished(ok), cancel := false);
    assert s.tasks[s.next := timer][t := ended] == s.tasks[t := ended][s.next := timer];
  }

  lemma ArmThenEnd(s: State, t: TaskId, id: LoopId, delay: int, ok: bool)
    requires t in s.tasks && t < s.next
    ensures t in ArmTimer(s, id, delay, Some(t)).tasks
    ensures SetPc(ArmTimer(s, id, delay, Some(t)), t, Finished(ok)) == ArmTimer(SetPc(s, t, Finished(ok)), id, delay, None)
  {
    CancelThenEnd(s, t, id, ok);
    SpawnThenEnd(CancelTimer(s, id, Some(t)), t, id, delay, ok);
  }

  function Closed(s: State, t: TaskId, id: LoopId, ok: bool): State
    requires t in s.tasks
  {
    SetPc(s.(firing := s.firing - {id}, rearm := s.rearm - {id}), t, Finished(ok))
  }

  lemma ClosedCore(s: State, t: TaskId, id: LoopId, ok: bool)
    requires Core(s) && IsTimer(s, t, id) && FirePc(s.tasks[t].pc)
    ensures Core(Closed(s, t, id, ok))
  {
    UseCore(s, t, id);
    RearmInWindows(s);
    MoveCore(s, Closed(s, t, id, ok), t);
  }

  lemma CloseIs(s: State, t: TaskId, id: LoopId, ok: bool)
    requires t in s.tasks && t < s.next && id in s.objs
    ensures CloseWindow(s, t, id, ok) ==
            if id in s.rearm && s.objs[id].active && id in s.reg then ArmTimer(Closed(s, t, id, ok), id, s.objs[id].idle, None)
            else Closed(s, t, id, ok)
  {
    var d := s.(firing := s.firing - {id}, rearm := s.rearm - {id});
    ArmThenEnd(d, t, id, s.objs[id].idle, ok);
    if id !in s.rearm {
      assert s.rearm - {id} == s.rearm;
    }
  }

  lemma CloseCore(s: State, t: TaskId, id: LoopId, ok: bool)
    requires Core(s) && IsTimer(s, t, id) && id in s.objs && FirePc(s.tasks[t].pc)
    ensures Core(CloseWindow(s, t, id, ok))
  {
    UseCore(s, t, id);
    CloseIs(s, t, id, ok);
    ClosedCore(s, t, id, ok);
    if id in s.rearm && s.objs[id].active && id in s.reg {
      ArmCore(Closed(s, t, id, ok), id, s.objs[id].idle);
    }
  }

  lemma CancelIgnoresWindows(s: State, id: LoopId, cur: Option<TaskId>, firing: map<LoopId, TaskId>, rearm: set<LoopId>)
    ensures CancelTimer(s.(firing := firing, rearm := rearm), id, cur) == CancelTimer(s, id, cur).(firing := firing, rearm := rearm)
  {
  }

  /** Arming looks at neither the windows nor the deferrals. */
  lemma ArmIgnoresWindows(s: State, id: LoopId, delay: int, cur: Option<TaskId>, firing: map<LoopId, TaskId>, rearm: set<LoopId>)
    ensures ArmTimer(s.(firing := firing, rearm := rearm), id, delay, cur) == ArmTimer(s, id, delay, cur).(firing := firing, rearm := rearm)
    ensures ArmTimer(s, id, delay, cur).firing == s.firing && ArmTimer(s, id, delay, cur).rearm == s.rearm
  {
    hide CancelTimer;
    CancelIgnoresWindows(s, id, cur, firing, rearm);
  }

  lemma RearmThenCloses(s: State, t: TaskId, id: LoopId, delay: int, ok: bool)
    requires t in s.tasks && t < s.next
    ensures t in ArmTimer(s, id, delay, Some(t)).tasks
    ensures Closed(ArmTimer(s, id, delay, Some(t)), t, id, ok) == ArmTimer(Closed(s, t, id, ok), id, delay, None)
  {
    hide ArmTimer;
    var firing, rearm := s.firing - {id}, s.rearm - {id};
    ArmIgnoresWindows(s, id, delay, Some(t), firing, rearm);
    ArmThenEnd(s.(firing := firing, rearm := rearm), t, id, delay, ok);
  }

  /** A fire that re-arms its own loop and then closes its window. */
  lemma RearmCloseCore(s: State, t: TaskId, id: LoopId, delay: int, ok: bool)
    requires Core(s) && IsTimer(s, t, id) && id in s.objs && FirePc(s.tasks[t].pc) && id in s.reg
    ensures t in ArmTimer(s, id, delay, Some(t)).tasks
    ensures Core(CloseWindow(ArmTimer(s, id, delay, Some(t)), t, id, ok))
  {
    UseCore(s, t, id);
    RearmThenCloses(s, t, id, delay, ok);
    var a := ArmTimer(s, id, delay, Some(t));
    CloseIs(a, t, id, ok);
    ClosedCore(s, t, id, ok);
    var c := Closed(s, t, id, ok);
    ArmCore(c, id, delay);
    if id in a.rearm && a.objs[id].active && id in a.reg {
      ArmCore(ArmTimer(c, id, delay, None), id, a.objs[id].idle);
    }
  }

  /** A loop leaves the registry; its timer, if any, is told to stop or is the running task. */
  lemma UnregisterCore(s: State, r: State, id: LoopId)
    requires Core(s) && id in s.reg
    requires r == s.(reg := s.reg - {id}, timers := s.timers - {id}, tasks := r.tasks, rearm := s.rearm - {id}, fails := r.fails)
    requires
      || r.tasks == s.tasks
      || (id in s.timers && s.timers[id] in s.tasks && r.tasks == s.tasks[s.timers[id] := s.tasks[s.timers[id]].(cancel := true)])
    requires r.tasks == s.tasks && id in s.timers && s.timers[id] in s.tasks ==>
      !s.tasks[s.timers[id]].pc.Sleeping? && !s.tasks[s.timers[id]].pc.AtCap?
    ensures Core(r)
  {
    UseCore(s, if id in s.timers then s.timers[id] else 0, id);
    forall t ensures TaskOk(r, t) {
      UseCore(s, t, id);
    }
    forall j ensures LoopOk(r, j) {
      UseCore(s, 0, j);
    }
  }

  lemma RemoveSyncCore(s: State, id: LoopId, t: TaskId)
    requires Core(s) && t in s.tasks && !s.tasks[t].pc.Sleeping? && !s.tasks[t].pc.AtCap?
    ensures Core(RemoveSync(s, id, Some(t)))
  {
    if id in s.reg {
      UseCore(s, t, id);
      var r := RemoveSync(s, id, Some(t));
      if id !in s.timers {
        assert r.timers == s.timers - {id};
      } else if s.timers[id] == t || s.tasks[s.timers[id]].pc.Finished? {
        assert r.tasks == s.tasks;
      } else {
        assert r.tasks == s.tasks[s.timers[id] := s.tasks[s.timers[id]].(cancel := true)];
      }
      UnregisterCore(s, r, id);
    }
  }

  lemma EnterCore(s: State, id: LoopId, l: NudgeLoop)
    requires Core(s) && id !in s.objs
    ensures Core(s.(objs := s.objs[id := l], reg := s.reg + {id}))
  {
    var r := s.(objs := s.objs[id := l], reg := s.reg + {id});
    forall t ensures TaskOk(r, t) {
      UseCore(s, t, id);
    }
    forall j ensures LoopOk(r, j) {
      UseCore(s, if j in s.timers then s.timers[j] else 0, j);
    }
  }

  // ----- the steps -----

  lemma CallsCore(s: State, l: Label)
    requires Core(s) && Enabled(s, l)
    requires l.AddCall? || l.UpdateCall? || l.RemoveCall? || l.CancelCaller?
    ensures Core(Apply(s, l))
  {
    match l
    case AddCall(args) =>
      SpawnCore(s, Task(Inner, AddWait(args), false));
      SpawnCore(Spawn(s, Task(Inner, AddWait(args), false)), Task(Caller, Awaiting(s.next), false));
    case UpdateCall(id, change) =>
      SpawnCore(s, Task(Inner, UpdateWait(id, change), false));
      SpawnCore(Spawn(s, Task(Inner, UpdateWait(id, change), false)), Task(Caller, Awaiting(s.next), false));
    case RemoveCall(id) => SpawnCore(s, Task(Caller, RemoveWait(id, false), false));
    case CancelCaller(t) =>
      UseCore(s, t, 0);
      RearmInWindows(s);
      MoveCore(s, RequestCancel(s, t), t);
  }

  lemma NotifyCore(s: State, l: Label)
    requires Core(s) && Enabled(s, l) && (l.NotifyTurn? || l.NotifyInput?)
    ensures Core(Apply(s, l))
  {
    if l.hit.Some? {
      var id := l.hit.value;
      UseCore(s, 0, id);
      RearmInWindows(s);
      if id in s.firing {
        SameCore(s, Apply(s, l));
      } else if l.NotifyInput? {
        CancelCore(s, id);
      } else if s.objs[id].active {
        ArmCore(s, id, s.objs[id].idle);
      }
    }
  }

  lemma RemovalKeepsPcs(s: State, existing: Option<LoopId>, t: TaskId)
    requires t in s.tasks
    ensures
      var r := if existing.Some? then RemoveSync(s, existing.value, Some(t)) else s;
      && r == s.(reg := r.reg, timers := r.timers, tasks := r.tasks, fails := r.fails, rearm := r.rearm)
      && r.tasks.Keys == s.tasks.Keys && r.tasks[t] == s.tasks[t]
      && (forall u :: u in s.tasks ==> r.tasks[u].pc == s.tasks[u].pc && r.tasks[u].kind == s.tasks[u].kind)
  {
  }

  lemma AddBeginCore(s: State, l: Label)
    requires Core(s) && Enabled(s, l) && l.AddBegin?
    ensures Core(Apply(s, l))
  {
    hide Core, RemoveSync, Finds;
    var t, id := l.t, l.id;
    UseCore(s, t, id);
    var r := if l.existing.Some? then RemoveSync(s, l.existing.value, Some(t)) else s;
    if l.existing.Some? { RemoveSyncCore(s, l.existing.value, t); }
    RemovalKeepsPcs(s, l.existing, t);
    assert r.objs == s.objs && t in r.tasks && r.tasks[t].pc == s.tasks[t].pc && r.tasks[t].kind == s.tasks[t].kind;
    var l0 := NewLoop(s.tasks[t].pc.args);
    EnterCore(r, id, l0);
    var a := r.(objs := r.objs[id := l0], reg := r.reg + {id});
    var m := SetPc(a, t, AddWrite(|s.snaps|, id));
    UseCore(a, t, id);
    forall u ensures u in a.tasks && a.tasks[u].kind.Timer? && a.tasks[u].pc.AtCap? ==> a.tasks[u].pc.inner != t {
      UseCore(a, u, id);
    }
    RearmInWindows(a);
    MoveCore(a, m, t);
    RearmInWindows(m);
    SameCore(m, Apply(s, l));
  }

  /** Noting a loop as doubled only weakens what is known. */
  lemma NotedCore(s: State, id: LoopId)
    requires Core(s) && id in s.objs
    ensures Core(Noted(s, id))
  {
    var r := Noted(s, id);
    forall t ensures TaskOk(r, t) { UseCore(s, t, 0); }
    forall j ensures LoopOk(r, j) { UseCore(s, 0, j); }
  }

  lemma AddFinishCore(s: State, l: Label)
    requires Inv(s) && Enabled(s, l) && l.AddFinish?
    ensures Core(Apply(s, l))
  {
    hide ArmTimer;
    var t := l.t;
    var id := s.tasks[t].pc.id;
    UseCore(s, t, id);
    UseStore(s, t, id);
    RearmInWindows(s);
    forall u ensures u in s.tasks && s.tasks[u].kind.Timer? && s.tasks[u].pc.AtCap? ==> s.tasks[u].pc.inner != t {
      UseCore(s, u, id);
    }
    var f := s.writes[s.tasks[t].pc.w].Failed?;
    SameCore(s, Release(s));
    var r := if f then Release(s) else Noted(Release(s), id);
    NotedCore(Release(s), id);
    var m := SetPc(r, t, Finished(!f));
    MoveCore(r, m, t);
    if !f {
      CurrentIrrelevant(r, id, t, s.objs[id].idle);
      ArmThenEnd(r, t, id, s.objs[id].idle, true);
      ArmCore(m, id, s.objs[id].idle);
    }
  }

  lemma UpdateBeginCore(s: State, l: Label)
    requires Core(s) && Enabled(s, l) && l.UpdateBegin?
    ensures Core(Apply(s, l))
  {
    var t := l.t;
    var id := s.tasks[t].pc.id;
    UseCore(s, t, id);
    RearmInWindows(s);
    var r := Apply(s, l);
    var m := s.(tasks := r.tasks);
    forall u | u in s.tasks && s.tasks[u].kind.Timer? && s.tasks[u].pc.AtCap? && s.tasks[u].pc.inner == t
      ensures CapPair(m, s.tasks[u])
    {
      UseCore(s, u, s.tasks[u].kind.loop);
    }
    MoveCore(s, m, t);
    SameCore(m, r);
  }

  /** A live timer parked at the cap of a loop is the one in the timer table and, unless the loop is
      doubled, outside any window. */
  lemma CapIsRegistered(s: State, u: TaskId)
    requires Core(s) && u in s.tasks && s.tasks[u].kind.Timer? && s.tasks[u].pc.AtCap? && !s.tasks[u].cancel
    ensures var id := s.tasks[u].kind.loop;
      id in s.timers && s.timers[id] == u && id in s.reg && (id in s.firing ==> id in s.doubled)
  {
    var id := s.tasks[u].kind.loop;
    UseCore(s, u, id);
    if id in s.firing {
      UseCore(s, s.firing[id], id);
    }
  }

  /** update() outside a fire window: end the task, stop the timer, arm a new one if active. */
  lemma UpdateRestarts(s: State, l: Label)
    requires Core(s) && Enabled(s, l) && l.UpdateFinish?
    requires s.tasks[l.t].pc.id !in s.firing && !s.writes[s.tasks[l.t].pc.w].Failed?
    ensures
      var id := s.tasks[l.t].pc.id;
      var m := SetPc(Release(CancelTimer(s, id, None)), l.t, Finished(true));
      Apply(s, l) == if s.objs[id].active then ArmTimer(m, id, s.objs[id].idle, None) else m
  {
    var t := l.t;
    var id := s.tasks[t].pc.id;
    UseCore(s, t, id);
    var c := CancelTimer(Release(s), id, Some(t));
    assert c == Release(CancelTimer(s, id, None)) by {
      CurrentIrrelevant(Release(s), id, t, 0);
    }
    if s.objs[id].active {
      ArmThenEnd(c, t, id, s.objs[id].idle, true);
    }
  }

  lemma UpdateFinishCore(s: State, l: Label)
    requires Inv(s) && Enabled(s, l) && l.UpdateFinish?
    ensures Core(Apply(s, l))
  {
    var t := l.t;
    var id := s.tasks[t].pc.id;
    var f := s.writes[s.tasks[t].pc.w].Failed?;
    if f || id in s.firing {
      UpdateEndsCore(s, t, !f);
    } else {
      CancelCore(s, id);
      UpdateRestarts(s, l);
      UpdateStopsCore(s, t);
      var m := SetPc(Release(CancelTimer(s, id, None)), t, Finished(true));
      UseStore(s, t, id);
      if s.objs[id].active {
        ArmCore(m, id, s.objs[id].idle);
      }
    }
  }

  lemma UpdateEndsCore(s: State, t: TaskId, ok: bool)
    requires Core(s) && t in s.tasks && s.tasks[t].pc.UpdateWrite?
    requires ok ==> s.tasks[t].pc.id in s.firing
    ensures Core(SetPc(Release(s), t, Finished(ok)))
  {
    UseCore(s, t, 0);
    RearmInWindows(s);
    var r := Release(s);
    SameCore(s, r);
    var m := SetPc(r, t, Finished(ok));
    forall u | u in r.tasks && r.tasks[u].kind.Timer? && r.tasks[u].pc.AtCap? && r.tasks[u].pc.inner == t
      ensures CapPair(m, r.tasks[u])
    {
      UseCore(r, u, 0);
      if !r.tasks[u].cancel { CapIsRegistered(r, u); }
    }
    MoveCore(r, m, t);
  }

  lemma UpdateStopsCore(s: State, t: TaskId)
    requires Core(s) && t in s.tasks && s.tasks[t].pc.UpdateWrite? && s.tasks[t].pc.id !in s.firing
    requires Core(CancelTimer(s, s.tasks[t].pc.id, None))
    ensures Core(SetPc(Release(CancelTimer(s, s.tasks[t].pc.id, None)), t, Finished(true)))
  {
    var id := s.tasks[t].pc.id;
    UseCore(s, t, id);
    var r := Release(CancelTimer(s, id, None));
    SameCancelCore(s, id);
    RearmInWindows(r);
    var m := SetPc(r, t, Finished(true));
    forall u | u in r.tasks && r.tasks[u].kind.Timer? && r.tasks[u].pc.AtCap? && r.tasks[u].pc.inner == t
      ensures CapPair(m, r.tasks[u])
    {
      UseCore(r, u, 0);
      if !r.tasks[u].cancel { CapIsRegistered(r, u); }
    }
    MoveCore(r, m, t);
  }

  lemma SameCancelCore(s: State, id: LoopId)
    requires Core(CancelTimer(s, id, None))
    ensures Core(Release(CancelTimer(s, id, None)))
  {
    var c := CancelTimer(s, id, None);
    RearmInWindows(c);
    SameCore(c, Release(c));
  }
}

/** The AutoNudge service as a state machine.  One step is the code an asyncio task runs
    between two awaits; the state holds the service's own fields, the task table of the event
    loop, and the store file together with every write handed to the executor. */
module AutoNudgeProtocol {
  import opened Options

  const MIN_IDLE_SECS := 15
  const MAX_IDLE_SECS := 86400
  const REARM_BACKOFF_SECS := 15
  const REARM_MAX_BACKOFF_SECS := 300
  const REARM_BACKOFF_MAX_SHIFT := 16

  type LoopId = nat
  type TaskId = nat

  /** `tab` is the dashboard's own folding of the slot key, computed by its normaliser. */
  datatype NudgeLoop = NudgeLoop(slot: string, tab: string, message: string, idle: int, maxCycles: int,
                                 cycles: int, active: bool, lastFire: int, sentinel: string)

  type Payload = map<LoopId, NudgeLoop>

  datatype Change = Change(message: Option<string>, idle: Option<int>, maxCycles: Option<int>, active: Option<bool>)

  datatype AddArgs = AddArgs(slot: string, tab: string, message: string, idle: int, maxCycles: int, sentinel: string)

  /** Where a task is parked.  `nested` marks a remove() awaited inside the fire callback. */
  datatype Pc =
    | Sleeping(delay: int)
    | AtCap(inner: TaskId)
    | InCallback
    | PersistWait
    | PersistWrite(w: nat)
    | RemoveWait(target: LoopId, nested: bool)
    | RemoveWrite(w: nat, nested: bool)
    | RemoveDrain(w: nat, nested: bool)
    | AddWait(args: AddArgs)
    | AddWrite(w: nat, id: LoopId)
    | UpdateWait(id: LoopId, change: Change)
    | UpdateWrite(w: nat, id: LoopId, change: Change)
    | Awaiting(inner: TaskId)
    | Finished(ok: bool)

  datatype Kind = Timer(loop: LoopId) | Inner | Caller

  /** `cancel` is a cancellation requested and not yet delivered to the task. */
  datatype Task = Task(kind: Kind, pc: Pc, cancel: bool)

  datatype WriteStatus = Pending | Landed | Failed

  /** `objs` holds every loop object ever created, `reg` the ids that are keys of `_loops`.
      `firing` maps each id of the fire-window set to the task that opened the window.
      `snaps` lists every payload in the order it was snapshotted (number 0 is the file as
      loaded), `writes` their fate, `landed` the numbers in the order they reached the file.
      `doubled` is history, read by no step: the loops whose add() completed over a fire window of
      their own. */
  datatype State = State(
    objs: map<LoopId, NudgeLoop>,
    reg: set<LoopId>,
    timers: map<LoopId, TaskId>,
    firing: map<LoopId, TaskId>,
    rearm: set<LoopId>,
    fails: map<LoopId, nat>,
    lock: Option<TaskId>,
    tasks: map<TaskId, Task>,
    next: TaskId,
    snaps: seq<Payload>,
    writes: seq<WriteStatus>,
    landed: seq<nat>,
    disk: Payload,
    doubled: set<LoopId>)

  // ----- what the await-free pieces of the service do -----

  predicate HasPrefix(s: string, p: string) {
    p <= s
  }

  predicate IsChannelKey(key: string) {
    || HasPrefix(key, "slack:") || HasPrefix(key, "discord:") || HasPrefix(key, "telegram:")
    || HasPrefix(key, "whatsapp:") || HasPrefix(key, "unified:")
  }

  predicate ExactMatch(s: State, slot: string, id: LoopId) {
    id in s.reg && id in s.objs && s.objs[id].slot == slot
  }

  predicate TabMatch(s: State, slot: string, id: LoopId) {
    && slot != "" && !IsChannelKey(slot)
    && id in s.reg && id in s.objs && IsChannelKey(s.objs[id].slot) && s.objs[id].tab == slot
  }

  /** What a slot lookup may answer: an exact match first, a folded channel key otherwise. */
  ghost predicate Finds(s: State, slot: string, hit: Option<LoopId>) {
    match hit
    case Some(id) => ExactMatch(s, slot, id) || (TabMatch(s, slot, id) && forall j :: !ExactMatch(s, slot, j))
    case None => forall j :: !ExactMatch(s, slot, j) && !TabMatch(s, slot, j)
  }

  function Live(s: State): Payload {
    map id | id in s.reg && id in s.objs :: s.objs[id]
  }

  function Clamp(idle: int): int {
    if idle > MAX_IDLE_SECS then MAX_IDLE_SECS else if idle < MIN_IDLE_SECS then MIN_IDLE_SECS else idle
  }

  function Pow2(n: nat): nat {
    if n == 0 then 1 else 2 * Pow2(n - 1)
  }

  function Min(a: int, b: int): int {
    if a <= b then a else b
  }

  /** The delay before re-trying after the `n`-th consecutive undelivered fire. */
  function Backoff(n: nat, idle: int): int
    requires n >= 1
  {
    Min(Min(REARM_BACKOFF_SECS * Pow2(Min(n - 1, REARM_BACKOFF_MAX_SHIFT)), REARM_MAX_BACKOFF_SECS), idle)
  }

  function SetPc(s: State, t: TaskId, pc: Pc): State
    requires t in s.tasks
  {
    s.(tasks := s.tasks[t := s.tasks[t].(pc := pc, cancel := false)])
  }

  function RequestCancel(s: State, t: TaskId): State {
    if t in s.tasks && !s.tasks[t].pc.Finished? then
      s.(tasks := s.tasks[t := s.tasks[t].(cancel := true)])
    else s
  }

  /** `_cancel_timer`, run by task `current`: the running task is never cancelled. */
  function CancelTimer(s: State, id: LoopId, current: Option<TaskId>): (r: State)
    ensures id !in r.timers
    ensures r == s.(timers := r.timers, tasks := r.tasks)
    ensures r.tasks.Keys == s.tasks.Keys
  {
    if id !in s.timers then s else
      var t := s.timers[id];
      var popped := s.(timers := s.timers - {id});
      if current == Some(t) then popped else RequestCancel(popped, t)
  }

  function Spawn(s: State, task: Task): State {
    s.(tasks := s.tasks[s.next := task], next := s.next + 1)
  }

  function ArmTimer(s: State, id: LoopId, delay: int, current: Option<TaskId>): (r: State)
    ensures r == s.(timers := r.timers, tasks := r.tasks, next := s.next + 1)
    ensures r.tasks.Keys == s.tasks.Keys + {s.next}
  {
    var c := CancelTimer(s, id, current);
    Spawn(c, Task(Timer(id), Sleeping(delay), false)).(timers := c.timers[id := s.next])
  }

  function RemoveSync(s: State, id: LoopId, current: Option<TaskId>): (r: State)
    ensures r == s.(reg := s.reg - {id}, timers := r.timers, tasks := r.tasks, fails := r.fails, rearm := r.rearm)
    ensures r.tasks.Keys == s.tasks.Keys
  {
    if id !in s.reg then s else
      var c := CancelTimer(s.(reg := s.reg - {id}), id, current);
      c.(fails := c.fails - {id}, rearm := c.rearm - {id})
  }

  /** Take the payload under the lock and hand it to the executor; `t` parks at `pc`. */
  function Submit(s: State, t: TaskId, pc: Pc): State
    requires t in s.tasks
  {
    SetPc(s, t, pc).(lock := Some(t), snaps := s.snaps + [Live(s)], writes := s.writes + [Pending])
  }

  function Release(s: State): State {
    s.(lock := None)
  }

  function ApplyChange(l: NudgeLoop, c: Change): NudgeLoop {
    var l1 := if c.message.Some? then l.(message := c.message.value) else l;
    var l2 := if c.idle.Some? then l1.(idle := Clamp(c.idle.value)) else l1;
    var l3 := if c.maxCycles.Some? then l2.(maxCycles := if c.maxCycles.value < 0 then 0 else c.maxCycles.value) else l2;
    if c.active.Some? then l3.(active := c.active.value) else l3
  }

  function NewLoop(a: AddArgs): NudgeLoop {
    NudgeLoop(a.slot, a.tab, a.message, Clamp(a.idle), if a.maxCycles < 0 then 0 else a.maxCycles, 0, true, 0, a.sentinel)
  }

  const DEACTIVATE := Change(None, None, None, Some(false))

  predicate AtCapNow(l: NudgeLoop) {
    l.maxCycles != 0 && l.cycles >= l.maxCycles
  }

  /** The `finally` of `_timer`: close the fire window, apply a deferred re-arm, end the task. */
  function CloseWindow(s: State, t: TaskId, id: LoopId, ok: bool): (r: State)
    requires t in s.tasks && id in s.objs
    ensures r == s.(firing := s.firing - {id}, rearm := s.rearm - {id}, timers := r.timers, tasks := r.tasks, next := r.next)
  {
    var c := s.(firing := s.firing - {id});
    var r := if id in c.rearm then
               var d := c.(rearm := c.rearm - {id});
               if d.objs[id].active && id in d.reg then ArmTimer(d, id, d.objs[id].idle, Some(t)) else d
             else c;
    SetPc(r, t, Finished(ok))
  }

  /** A remove() returns or raises in task `t`. */
  function RemoveReturns(s: State, t: TaskId, nested: bool, ok: bool): State
    requires t in s.tasks
  {
    SetPc(s, t, if nested then InCallback else Finished(ok))
  }

  // ----- steps -----

  datatype WakeEnv = Shutdown | SentinelSeen | Run(hasCallback: bool)

  datatype Outcome = Delivered(now: int) | Undelivered | RaisedCancelled

  datatype Label =
    | AddCall(args: AddArgs)
    | UpdateCall(id: LoopId, change: Change)
    | RemoveCall(id: LoopId)
    | CancelCaller(t: TaskId)
    | NotifyTurn(slot: string, hit: Option<LoopId>)
    | NotifyInput(slot: string, hit: Option<LoopId>)
    | AddBegin(t: TaskId, existing: Option<LoopId>, id: LoopId)
    | AddFinish(t: TaskId)
    | UpdateBegin(t: TaskId)
    | UpdateFinish(t: TaskId)
    | RemoveBegin(t: TaskId)
    | RemoveFinish(t: TaskId)
    | PersistBegin(t: TaskId)
    | PersistFinish(t: TaskId)
    | WriteLands(w: nat)
    | WriteFails(w: nat)
    | TimerWake(t: TaskId, env: WakeEnv)
    | CallbackRemoves(t: TaskId, id: LoopId)
    | CallbackReturns(t: TaskId, outcome: Outcome)
    | InnerDone(t: TaskId)
    | DeliverCancel(t: TaskId)

  predicate At(s: State, t: TaskId) {
    t in s.tasks
  }

  predicate Settled(s: State, w: nat) {
    w < |s.writes| && !s.writes[w].Pending?
  }

  predicate LoopKnown(s: State, t: TaskId) {
    t in s.tasks && s.tasks[t].kind.Timer? && s.tasks[t].kind.loop in s.objs
  }

  ghost predicate Enabled(s: State, l: Label) {
    match l
    case AddCall(_) => true
    case UpdateCall(_, _) => true
    case RemoveCall(_) => true
    case CancelCaller(t) => At(s, t) && s.tasks[t].kind.Caller? && !s.tasks[t].pc.Finished?
    case NotifyTurn(slot, hit) => Finds(s, slot, hit)
    case NotifyInput(slot, hit) => Finds(s, slot, hit)
    case AddBegin(t, existing, id) =>
      && At(s, t) && s.tasks[t].pc.AddWait? && !s.tasks[t].cancel && s.lock.None?
      && Finds(s, s.tasks[t].pc.args.slot, existing) && id !in s.objs
    case AddFinish(t) =>
      && At(s, t) && s.tasks[t].pc.AddWrite? && !s.tasks[t].cancel && Settled(s, s.tasks[t].pc.w)
      && s.tasks[t].pc.id in s.objs
    case UpdateBegin(t) => At(s, t) && s.tasks[t].pc.UpdateWait? && !s.tasks[t].cancel && s.lock.None?
    case UpdateFinish(t) =>
      && At(s, t) && s.tasks[t].pc.UpdateWrite? && !s.tasks[t].cancel && Settled(s, s.tasks[t].pc.w)
      && s.tasks[t].pc.id in s.objs
    case RemoveBegin(t) => At(s, t) && s.tasks[t].pc.RemoveWait? && !s.tasks[t].cancel && s.lock.None?
    case RemoveFinish(t) =>
      && At(s, t) && (s.tasks[t].pc.RemoveWrite? || s.tasks[t].pc.RemoveDrain?) && !s.tasks[t].cancel
      && Settled(s, s.tasks[t].pc.w)
    case PersistBegin(t) => At(s, t) && s.tasks[t].pc.PersistWait? && !s.tasks[t].cancel && s.lock.None?
    case PersistFinish(t) =>
      && LoopKnown(s, t) && s.tasks[t].pc.PersistWrite? && !s.tasks[t].cancel && Settled(s, s.tasks[t].pc.w)
    case WriteLands(w) => w < |s.writes| && w < |s.snaps| && s.writes[w].Pending?
    case WriteFails(w) => w < |s.writes| && s.writes[w].Pending?
    case TimerWake(t, env) =>
      && LoopKnown(s, t) && s.tasks[t].pc.Sleeping? && !s.tasks[t].cancel
      && (env.SentinelSeen? ==> s.objs[s.tasks[t].kind.loop].sentinel != "")
    case CallbackRemoves(t, _) => LoopKnown(s, t) && s.tasks[t].pc.InCallback? && !s.tasks[t].cancel
    case CallbackReturns(t, _) => LoopKnown(s, t) && s.tasks[t].pc.InCallback? && !s.tasks[t].cancel
    case InnerDone(t) =>
      && At(s, t) && (s.tasks[t].pc.AtCap? || s.tasks[t].pc.Awaiting?) && !s.tasks[t].cancel
      && At(s, s.tasks[t].pc.inner) && s.tasks[s.tasks[t].pc.inner].pc.Finished?
    case DeliverCancel(t) =>
      && At(s, t) && s.tasks[t].cancel && !s.tasks[t].pc.Finished?
      && (FirePc(s.tasks[t].pc) ==> LoopKnown(s, t))
  }

  /** The program points inside a fire window. */
  predicate FirePc(pc: Pc) {
    || pc.InCallback? || pc.PersistWait? || pc.PersistWrite?
    || ((pc.RemoveWait? || pc.RemoveWrite? || pc.RemoveDrain?) && pc.nested)
  }

  function DoTimerWake(s: State, t: TaskId, env: WakeEnv): State
    requires LoopKnown(s, t)
  {
    var id := s.tasks[t].kind.loop;
    if env.Shutdown? then SetPc(s, t, Finished(true))
    else if env.SentinelSeen? then SetPc(s, t, RemoveWait(id, false))
    else if AtCapNow(s.objs[id]) then
      SetPc(Spawn(s, Task(Inner, UpdateWait(id, DEACTIVATE), false)), t, AtCap(s.next))
    else if !env.hasCallback then SetPc(s, t, Finished(true))
    else SetPc(s, t, InCallback).(firing := s.firing[id := t])
  }

  function DoCallbackReturns(s: State, t: TaskId, outcome: Outcome): State
    requires LoopKnown(s, t)
  {
    var id := s.tasks[t].kind.loop;
    match outcome
    case RaisedCancelled => CloseWindow(s, t, id, false)
    case Undelivered =>
      if id !in s.reg || !s.objs[id].active then
        CloseWindow(s.(fails := s.fails - {id}), t, id, true)
      else
        var n := (if id in s.fails then s.fails[id] else 0) + 1;
        CloseWindow(ArmTimer(s.(fails := s.fails[id := n]), id, Backoff(n, s.objs[id].idle), Some(t)), t, id, true)
    case Delivered(now) =>
      SetPc(s.(fails := s.fails - {id},
               objs := s.objs[id := s.objs[id].(cycles := s.objs[id].cycles + 1, lastFire := now)]),
            t, PersistWait)
  }

  function DoPersistFinish(s: State, t: TaskId): State
    requires LoopKnown(s, t) && s.tasks[t].pc.PersistWrite? && Settled(s, s.tasks[t].pc.w)
  {
    var id := s.tasks[t].kind.loop;
    var r := Release(s);
    if s.writes[s.tasks[t].pc.w].Failed? then CloseWindow(r, t, id, false)
    else if IsChannelKey(s.objs[id].slot) && s.objs[id].active && id in s.reg then
      CloseWindow(ArmTimer(r, id, s.objs[id].idle, Some(t)), t, id, true)
    else CloseWindow(r, t, id, true)
  }

  function DoAddBegin(s: State, t: TaskId, existing: Option<LoopId>, id: LoopId): State
    requires At(s, t) && s.tasks[t].pc.AddWait? && id !in s.objs
  {
    var r := if existing.Some? then RemoveSync(s, existing.value, Some(t)) else s;
    var a := r.(objs := r.objs[id := NewLoop(s.tasks[t].pc.args)], reg := r.reg + {id});
    Submit(a, t, AddWrite(|s.snaps|, id))
  }

  function DoAddFinish(s: State, t: TaskId): State
    requires Enabled(s, AddFinish(t))
  {
    var id := s.tasks[t].pc.id;
    if s.writes[s.tasks[t].pc.w].Failed? then SetPc(Release(s), t, Finished(false))
    else SetPc(ArmTimer(Noted(Release(s), id), id, s.objs[id].idle, Some(t)), t, Finished(true))
  }

  /** The history notes a loop that is about to be armed over its own fire window. */
  function Noted(s: State, id: LoopId): State {
    if id in s.firing then s.(doubled := s.doubled + {id}) else s
  }

  function DoUpdateBegin(s: State, t: TaskId): State
    requires At(s, t) && s.tasks[t].pc.UpdateWait?
  {
    var id, change := s.tasks[t].pc.id, s.tasks[t].pc.change;
    if id !in s.reg || id !in s.objs then SetPc(s, t, Finished(true))
    else Submit(s.(objs := s.objs[id := ApplyChange(s.objs[id], change)]), t, UpdateWrite(|s.snaps|, id, change))
  }

  function DoUpdateFinish(s: State, t: TaskId): State
    requires Enabled(s, UpdateFinish(t))
  {
    var id := s.tasks[t].pc.id;
    var r := Release(s);
    if s.writes[s.tasks[t].pc.w].Failed? then SetPc(r, t, Finished(false))
    else if id in r.firing then SetPc(r, t, Finished(true))
    else
      var c := CancelTimer(r, id, Some(t));
      SetPc(if c.objs[id].active then ArmTimer(c, id, c.objs[id].idle, Some(t)) else c, t, Finished(true))
  }

  function DoRemoveBegin(s: State, t: TaskId): State
    requires At(s, t) && s.tasks[t].pc.RemoveWait?
  {
    var target, nested := s.tasks[t].pc.target, s.tasks[t].pc.nested;
    if target in s.reg then
      var r := RemoveSync(s, target, Some(t));
      Submit(r, t, RemoveWrite(|s.snaps|, nested))
    else RemoveReturns(s, t, nested, true)
  }

  function DoRemoveFinish(s: State, t: TaskId): State
    requires Enabled(s, RemoveFinish(t))
  {
    var pc := s.tasks[t].pc;
    RemoveReturns(Release(s), t, pc.nested, pc.RemoveWrite? && s.writes[pc.w].Landed?)
  }

  function DoNotifyTurn(s: State, hit: Option<LoopId>): State
    requires hit.Some? ==> hit.value in s.objs
  {
    if hit.None? || !s.objs[hit.value].active then s
    else if hit.value in s.firing then s.(rearm := s.rearm + {hit.value})
    else ArmTimer(s, hit.value, s.objs[hit.value].idle, None)
  }

  function DoNotifyInput(s: State, hit: Option<LoopId>): State {
    if hit.None? then s
    else if hit.value in s.firing then s.(rearm := s.rearm - {hit.value})
    else CancelTimer(s, hit.value, None)
  }

  /** CancelledError is raised at the await where `t` is parked.  Raised inside the fire
      callback it is the callback's to propagate (RaisedCancelled) or to swallow. */
  function DoDeliverCancel(s: State, t: TaskId): State
    requires Enabled(s, DeliverCancel(t))
  {
    var task := s.tasks[t];
    match task.pc
    case InCallback => SetPc(s, t, InCallback)
    case PersistWait => CloseWindow(s, t, task.kind.loop, false)
    case PersistWrite(_) => CloseWindow(Release(s), t, task.kind.loop, false)
    case RemoveWait(_, nested) => RemoveReturns(s, t, nested, false)
    case RemoveWrite(w, nested) => SetPc(s, t, RemoveDrain(w, nested))
    case RemoveDrain(_, nested) => RemoveReturns(Release(s), t, nested, false)
    case AddWrite(_, _) => SetPc(Release(s), t, Finished(false))
    case UpdateWrite(_, _, _) => SetPc(Release(s), t, Finished(false))
    case _ => SetPc(s, t, Finished(false))
  }

  function DoSpawnCall(s: State, pc: Pc): State {
    Spawn(Spawn(s, Task(Inner, pc, false)), Task(Caller, Awaiting(s.next), false))
  }

  function Apply(s: State, l: Label): State
    requires Enabled(s, l)
  {
    match l
    case AddCall(args) => DoSpawnCall(s, AddWait(args))
    case UpdateCall(id, change) => DoSpawnCall(s, UpdateWait(id, change))
    case RemoveCall(id) => Spawn(s, Task(Caller, RemoveWait(id, false), false))
    case CancelCaller(t) => RequestCancel(s, t)
    case NotifyTurn(_, hit) => DoNotifyTurn(s, hit)
    case NotifyInput(_, hit) => DoNotifyInput(s, hit)
    case AddBegin(t, existing, id) => DoAddBegin(s, t, existing, id)
    case AddFinish(t) => DoAddFinish(s, t)
    case UpdateBegin(t) => DoUpdateBegin(s, t)
    case UpdateFinish(t) => DoUpdateFinish(s, t)
    case RemoveBegin(t) => DoRemoveBegin(s, t)
    case RemoveFinish(t) => DoRemoveFinish(s, t)
    case PersistBegin(t) => Submit(s, t, PersistWrite(|s.snaps|))
    case PersistFinish(t) => DoPersistFinish(s, t)
    case WriteLands(w) => s.(writes := s.writes[w := Landed], landed := s.landed + [w], disk := s.snaps[w])
    case WriteFails(w) => s.(writes := s.writes[w := Failed])
    case TimerWake(t, env) => DoTimerWake(s, t, env)
    case CallbackRemoves(t, id) => SetPc(s, t, RemoveWait(id, true))
    case CallbackReturns(t, outcome) => DoCallbackReturns(s, t, outcome)
    case InnerDone(t) => SetPc(s, t, Finished(s.tasks[s.tasks[t].pc.inner].pc.ok))
    case DeliverCancel(t) => DoDeliverCancel(s, t)
  }

  /** The observers hear "expired" exactly when the cap branch of a timer resumes normally. */
  ghost predicate EmitsExpired(s: State, l: Label)
    requires Enabled(s, l)
  {
    l.InnerDone? && s.tasks[l.t].pc.AtCap? && s.tasks[s.tasks[l.t].pc.inner].pc.ok
  }

  /** A fire starts: the callback is invoked for loop `id`. */
  ghost predicate StartsFire(s: State, l: Label, id: LoopId)
    requires Enabled(s, l)
  {
    && l.TimerWake? && s.tasks[l.t].kind.loop == id
    && l.env == Run(true) && !AtCapNow(s.objs[id])
  }

  /** add() completes although its new loop, armed by a turn-complete hook during the write, is
      already inside a fire window.  `_add_locked` arms without looking at `_firing`. */
  ghost predicate ArmsOverWindow(s: State, l: Label)
    requires Enabled(s, l)
  {
    l.AddFinish? && s.tasks[l.t].pc.id in s.firing && s.writes[s.tasks[l.t].pc.w].Landed?
  }

  /** The service just after start(): every active loop has a sleeping timer, nothing else runs. */
  ghost predicate Init(s: State) {
    && s.reg == s.objs.Keys
    && s.firing == map[] && s.rearm == {} && s.fails == map[] && s.lock == None
    && s.timers.Keys == (set id | id in s.reg && s.objs[id].active)
    && (forall id :: id in s.timers ==>
      s.timers[id] in s.tasks && s.tasks[s.timers[id]] == Task(Timer(id), Sleeping(s.objs[id].idle), false))
    && (forall t :: t in s.tasks ==>
      t < s.next && s.tasks[t].kind.Timer? && s.tasks[t].kind.loop in s.timers && s.timers[s.tasks[t].kind.loop] == t)
    && s.doubled == {}
    && s.disk == Live(s) && s.snaps == [s.disk] && s.writes == [Landed] && s.landed == [0]
  }

  ghost predicate IsRun(ss: seq<State>, ls: seq<Label>) {
    && |ss| == |ls| + 1 && Init(ss[0])
    && forall i :: 0 <= i < |ls| ==> StepAt(ss, ls, i)
  }

  ghost predicate StepAt(ss: seq<State>, ls: seq<Label>, i: nat)
    requires |ss| == |ls| + 1 && i < |ls|
  {
    Enabled(ss[i], ls[i]) && ss[i + 1] == Apply(ss[i], ls[i])
  }
}

/** Timer tasks of core/async.cc: registrations shared between a timer and the per-CPU workers.

    A step is a section under the timer's mutex, a compare-exchange of a registration's state, a
    push to a worker's queue of released registrations, or a section of a worker under the
    preemption lock.  `log` records for every reschedule what became of its registration.
 */
module TimerTasks {

  import opened Wrappers

  datatype TaskState = ACTIVE | FIRING | RELEASED

  /** percpu_timer_task; `reg`: the registration it was last used for. */
  datatype Task = Task(worker: nat, state: TaskState, master: nat, queued: bool, reg: nat)

  /** Open for calls, mutex held inside reschedule(), destructor waiting, destroyed. */
  datatype Stage = Open | Rescheduling | Dying | Dead

  datatype Timer = Timer(active: Option<nat>, regs: multiset<nat>, stage: Stage)

  /** A worker's thread: waiting, has taken a task that was not released, has marked it FIRING and
      waits for the timer's mutex, or runs the callback. */
  datatype Worker = Idle | Popped(task: nat) | Firing(task: nat) | Calling(task: nat)

  /** One registration: by which timer and task, how often its callback began, how often it was
      given back, and whether cancel(), reschedule() or the destructor called it off. */
  datatype Reg = Reg(timer: nat, task: nat, fired: nat, freed: nat, off: bool)

  /** `limbo`: tasks about to be pushed to their worker's queue; `released`: tasks in these queues. */
  datatype State = State(tasks: seq<Task>, timers: seq<Timer>, workers: seq<Worker>,
                         limbo: multiset<nat>, released: multiset<nat>, log: seq<Reg>, panic: bool)

  // ------------------------------------------------------------------ steps

  predicate Shape(s: State) {
    && (forall k :: 0 <= k < |s.tasks| ==>
          s.tasks[k].worker < |s.workers| && s.tasks[k].master < |s.timers| && s.tasks[k].reg < |s.log|)
    && (forall t :: 0 <= t < |s.timers| ==> s.timers[t].active.Some? ==> s.timers[t].active.value < |s.tasks|)
    && (forall w :: 0 <= w < |s.workers| ==> !s.workers[w].Idle? ==> s.workers[w].task < |s.tasks|)
  }

  function SetTimer(s: State, t: nat, x: Timer): State
    requires t < |s.timers|
  {
    s.(timers := s.timers[t := x])
  }

  function SetTask(s: State, k: nat, x: Task): State
    requires k < |s.tasks|
  {
    s.(tasks := s.tasks[k := x])
  }

  function SetWorker(s: State, w: nat, x: Worker): State
    requires w < |s.workers|
  {
    s.(workers := s.workers[w := x])
  }

  function SetLog(s: State, r: nat, x: Reg): State
    requires r < |s.log|
  {
    s.(log := s.log[r := x])
  }

  /** Task k goes to RELEASED and leaves the list of timer t: free_registration(). */
  function Release(s: State, t: nat, k: nat): State
    requires t < |s.timers| && k < |s.tasks| && s.tasks[k].reg < |s.log|
  {
    var r := s.tasks[k].reg;
    var s1 := SetTask(s, k, s.tasks[k].(state := RELEASED));
    var s2 := SetTimer(s1, t, s.timers[t].(regs := s.timers[t].regs - multiset{k}));
    SetLog(s2, r, s.log[r].(freed := s.log[r].freed + 1)).(limbo := s.limbo + multiset{k})
  }

  function CallOff(s: State, r: nat): State
    requires r < |s.log|
  {
    SetLog(s, r, s.log[r].(off := true))
  }

  /** cancel(): call the active registration off, and give it back unless its worker is firing it. */
  function DoCancel(s: State, t: nat): State
    requires Shape(s) && t < |s.timers|
  {
    if s.timers[t].active.None? then s
    else
      var k := s.timers[t].active.value;
      var s1 := CallOff(SetTimer(s, t, s.timers[t].(active := None)), s.tasks[k].reg);
      if s.tasks[k].state.ACTIVE? then Release(s1, t, k) else s1
  }

  /** The rest of reschedule() on CPU w: borrow_task(), the new registration, insert(). */
  function DoSchedule(s: State, t: nat, w: nat, pick: Option<nat>): State
    requires t < |s.timers| && w < |s.workers| && (pick.Some? ==> pick.value < |s.tasks|)
  {
    var r := |s.log|;
    var k := if pick.Some? then pick.value else |s.tasks|;
    var task := Task(w, ACTIVE, t, true, r);
    var tasks := if pick.Some? then s.tasks[k := task] else s.tasks + [task];
    var timer := s.timers[t].(active := Some(k), regs := s.timers[t].regs + multiset{k}, stage := Open);
    SetTimer(s, t, timer).(tasks := tasks, log := s.log + [Reg(t, k, 0, 0, false)],
                           released := if pick.Some? then s.released - multiset{k} else s.released)
  }

  datatype Move =
    | Cancel(t: nat)
    | RescheduleBegin(t: nat)
    | RescheduleEnd(t: nat, w: nat, pick: Option<nat>)
    | DestroyBegin(t: nat)
    | DestroyOne(t: nat, k: nat)   // one registration: ACTIVE -> RELEASED
    | DestroyEnd(t: nat)
    | PushReleased(k: nat)
    | Pop(w: nat, k: nat)          // pop_expired(), mark_removed(), state != RELEASED ?
    | Cas(w: nat)                  // fire(): ACTIVE -> FIRING
    | FireEnter(w: nat)            // timer_task::fire(): take the mutex
    | FireExit(w: nat)             // after the callback

  /** The mutex of the timer is free. */
  predicate Unlocked(s: State, t: nat) {
    t < |s.timers| && !s.timers[t].stage.Rescheduling?
  }

  ghost predicate Step(s: State, m: Move, s': State) {
    && Shape(s) && !s.panic
    && match m
       case Cancel(t) => t < |s.timers| && s.timers[t].stage.Open? && s' == DoCancel(s, t)
       case RescheduleBegin(t) =>
         && t < |s.timers| && s.timers[t].stage.Open?
         && var s1 := DoCancel(s, t); |s1.timers| == |s.timers| && s' == SetTimer(s1, t, s1.timers[t].(stage := Rescheduling))
       case RescheduleEnd(t, w, pick) =>
         && t < |s.timers| && s.timers[t].stage.Rescheduling?
         && w < |s.workers| && !s.workers[w].Popped?
         && (pick.Some? ==> pick.value in s.released && pick.value < |s.tasks| && s.tasks[pick.value].worker == w)
         && s' == DoSchedule(s, t, w, pick)
       case DestroyBegin(t) =>
         && t < |s.timers| && s.timers[t].stage.Open?
         && var s1 := SetTimer(s, t, s.timers[t].(active := None, stage := Dying));
            s' == if s.timers[t].active.Some? then CallOff(s1, s.tasks[s.timers[t].active.value].reg) else s1
       case DestroyOne(t, k) =>
         && t < |s.timers| && s.timers[t].stage.Dying? && k < |s.tasks| && k in s.timers[t].regs && s.tasks[k].state.ACTIVE?
         && s' == Release(s, t, k)
       case DestroyEnd(t) =>
         && t < |s.timers| && s.timers[t].stage.Dying? && s.timers[t].regs == multiset{}
         && s' == SetTimer(s, t, s.timers[t].(stage := Dead))
       case PushReleased(k) =>
         && k in s.limbo && s' == s.(limbo := s.limbo - multiset{k}, released := s.released + multiset{k})
       case Pop(w, k) =>
         && w < |s.workers| && s.workers[w].Idle? && k < |s.tasks| && s.tasks[k].worker == w && s.tasks[k].queued
         && var s1 := SetTask(s, k, s.tasks[k].(queued := false));
            s' == if s.tasks[k].state.RELEASED? then s1 else SetWorker(s1, w, Popped(k))
       case Cas(w) =>
         && w < |s.workers| && s.workers[w].Popped?
         && var k := s.workers[w].task;
            s' == (if s.tasks[k].state.ACTIVE? then SetWorker(SetTask(s, k, s.tasks[k].(state := FIRING)), w, Firing(k))
                   else if s.tasks[k].state.RELEASED? then SetWorker(s, w, Idle)
                   else s.(panic := true))
       case FireEnter(w) =>
         && w < |s.workers| && s.workers[w].Firing?
         && var k := s.workers[w].task; var t := s.tasks[k].master;
            && Unlocked(s, t)
            && s' == (if s.timers[t].stage.Dead? then s.(panic := true)
                      else if s.timers[t].active != Some(k) then SetWorker(Release(s, t, k), w, Idle)
                      else
                        var r := s.tasks[k].reg;
                        SetWorker(SetLog(SetTimer(s, t, s.timers[t].(active := None)), r, s.log[r].(fired := s.log[r].fired + 1)),
                                  w, Calling(k)))
       case FireExit(w) =>
         && w < |s.workers| && s.workers[w].Calling?
         && var k := s.workers[w].task; var t := s.tasks[k].master;
            && Unlocked(s, t)
            && s' == (if s.timers[t].stage.Dead? then s.(panic := true) else SetWorker(Release(s, t, k), w, Idle))
  }

  predicate Init(s: State) {
    && s.tasks == [] && s.log == [] && s.limbo == multiset{} && s.released == multiset{} && !s.panic
    && (forall t :: 0 <= t < |s.timers| ==> s.timers[t] == Timer(None, multiset{}, Open))
    && (forall w :: 0 <= w < |s.workers| ==> s.workers[w] == Idle)
  }

  ghost predicate History(run: seq<State>, moves: seq<Move>) {
    && |run| == |moves| + 1
    && Init(run[0])
    && (forall i {:trigger moves[i]} :: 0 <= i < |moves| ==> Step(run[i], moves[i], run[i + 1]))
  }

  // ------------------------------------------------------------------ invariant

  /** Is the task in use by timer t? */
  predicate UsedBy(s: State, k: nat, t: nat) {
    k < |s.tasks| && !s.tasks[k].state.RELEASED? && s.tasks[k].master == t
  }

  predicate IsFree(s: State, k: nat) {
    k < |s.tasks| && s.tasks[k].state.RELEASED?
  }

  /** The worker's thread is firing task k. */
  predicate Fires(p: Worker, k: nat) {
    (p.Firing? || p.Calling?) && p.task == k
  }

  /** A task is either free and waiting once to be reused, or in use by one timer and on its list once. */
  predicate TaskOk(s: State, k: nat) {
    && s.limbo[k] + s.released[k] == (if IsFree(s, k) then 1 else 0)
    && (k < |s.tasks| ==>
          var x := s.tasks[k];
          && x.worker < |s.workers| && x.master < |s.timers| && x.reg < |s.log|
          && s.log[x.reg].timer == x.master && s.log[x.reg].task == k
          && s.log[x.reg].freed == (if x.state.RELEASED? then 1 else 0)
          && (x.state.FIRING? <==> Fires(s.workers[x.worker], k))
          && (x.state.ACTIVE? ==> s.timers[x.master].active == Some(k) || s.timers[x.master].stage.Dying?)
          && (x.state.ACTIVE? && s.timers[x.master].active != Some(k) ==> s.log[x.reg].off)
          && (x.state.ACTIVE? ==> x.queued || s.workers[x.worker] == Popped(k)))
  }

  predicate ListOk(s: State, t: nat, k: nat) {
    t < |s.timers| ==> s.timers[t].regs[k] == if UsedBy(s, k, t) then 1 else 0
  }

  predicate TimerOk(s: State, t: nat) {
    t < |s.timers| ==>
      var x := s.timers[t];
      && (x.active.Some? ==>
            && x.stage.Open? && UsedBy(s, x.active.value, t) && s.tasks[x.active.value].reg < |s.log|
            && !s.log[s.tasks[x.active.value].reg].off && s.log[s.tasks[x.active.value].reg].fired == 0)
      && (x.stage.Dead? ==> x.regs == multiset{})
  }

  predicate WorkerOk(s: State, w: nat) {
    w < |s.workers| && !s.workers[w].Idle? ==>
      var k := s.workers[w].task;
      && k < |s.tasks| && s.tasks[k].worker == w && s.tasks[k].reg < |s.log| && s.tasks[k].master < |s.timers|
      && (s.workers[w].Calling? ==> s.log[s.tasks[k].reg].fired == 1 && s.timers[s.tasks[k].master].active != Some(k))
      && (s.workers[w].Firing? && s.timers[s.tasks[k].master].active != Some(k) ==> s.log[s.tasks[k].reg].off)
  }

  predicate RegOk(s: State, r: nat) {
    r < |s.log| ==>
      var x := s.log[r];
      && x.task < |s.tasks| && x.fired <= 1 && x.freed <= 1 && (x.off ==> x.fired == 0)
      && (x.freed == 0 ==> s.tasks[x.task].reg == r)
      && (x.freed == 1 ==> x.fired == 1 || x.off)
  }

  ghost predicate Inv(s: State) {
    && !s.panic
    && (forall k: nat :: TaskOk(s, k))
    && (forall t: nat, k: nat :: ListOk(s, t, k))
    && (forall t: nat :: TimerOk(s, t))
    && (forall w: nat :: WorkerOk(s, w))
    && (forall r: nat :: RegOk(s, r))
  }

  // ------------------------------------------------------------------ giving a registration back

  /** Task k, in use by timer t, is given back: called off if it was still the active one, and the
      worker that was firing it, if any, goes on to other work. */
  ghost predicate GivenBack(s: State, s': State, t: nat, k: nat)
    requires Shape(s) && t < |s.timers| && k < |s.tasks|
  {
    var r, w := s.tasks[k].reg, s.tasks[k].worker;
    var was := s.timers[t].active == Some(k);
    && s'.tasks == s.tasks[k := s.tasks[k].(state := RELEASED)]
    && s'.timers == s.timers[t := s.timers[t].(active := if was then None else s.timers[t].active,
                                               regs := s.timers[t].regs - multiset{k})]
    && s'.workers == (if s.tasks[k].state.FIRING? then s.workers[w := Idle] else s.workers)
    && s'.limbo == s.limbo + multiset{k} && s'.released == s.released
    && s'.log == s.log[r := s.log[r].(freed := s.log[r].freed + 1, off := s.log[r].off || was)]
    && s'.panic == s.panic
  }

  ghost predicate MayGiveBack(s: State, t: nat, k: nat) {
    && Inv(s) && Shape(s) && t < |s.timers| && UsedBy(s, k, t) && TaskOk(s, k) && ListOk(s, t, k) && TimerOk(s, t)
    && RegOk(s, s.tasks[k].reg) && WorkerOk(s, s.tasks[k].worker)
    && !(s.tasks[k].state.FIRING? && s.timers[t].active == Some(k))
  }

  lemma GiveBackTasks(s: State, s': State, t: nat, k: nat)
    requires MayGiveBack(s, t, k) && GivenBack(s, s', t, k)
    ensures forall j: nat :: TaskOk(s', j)
  {
    forall j: nat ensures TaskOk(s', j) { assert TaskOk(s, j); }
  }

  lemma GiveBackLists(s: State, s': State, t: nat, k: nat)
    requires MayGiveBack(s, t, k) && GivenBack(s, s', t, k)
    ensures forall u: nat, j: nat :: ListOk(s', u, j)
  {
    forall u: nat, j: nat ensures ListOk(s', u, j) { assert ListOk(s, u, j); }
  }

  lemma GiveBackTimers(s: State, s': State, t: nat, k: nat)
    requires MayGiveBack(s, t, k) && GivenBack(s, s', t, k)
    ensures forall u: nat :: TimerOk(s', u)
  {
    forall u: nat ensures TimerOk(s', u) { assert TimerOk(s, u) && (u < |s.timers| && s.timers[u].active.Some? ==> TaskOk(s, s.timers[u].active.value)); }
  }

  lemma GiveBackWorkers(s: State, s': State, t: nat, k: nat)
    requires MayGiveBack(s, t, k) && GivenBack(s, s', t, k)
    ensures forall v: nat :: WorkerOk(s', v)
  {
    forall v: nat ensures WorkerOk(s', v) { assert WorkerOk(s, v); }
  }

  lemma GiveBackRegs(s: State, s': State, t: nat, k: nat)
    requires MayGiveBack(s, t, k) && GivenBack(s, s', t, k)
    ensures forall q: nat :: RegOk(s', q)
  {
    forall q: nat ensures RegOk(s', q) { assert RegOk(s, q); }
  }

  lemma GiveBackKeeps(s: State, s': State, t: nat, k: nat)
    requires MayGiveBack(s, t, k) && GivenBack(s, s', t, k)
    ensures Inv(s')
  {
    GiveBackTasks(s, s', t, k);
    GiveBackLists(s, s', t, k);
    GiveBackTimers(s, s', t, k);
    GiveBackWorkers(s, s', t, k);
    GiveBackRegs(s, s', t, k);
  }

  /** What is known of a task when it is about to be given back. */
  lemma Known(s: State, t: nat, k: nat)
    requires Inv(s) && Shape(s) && t < |s.timers| && UsedBy(s, k, t) && !(s.tasks[k].state.FIRING? && s.timers[t].active == Some(k))
    ensures MayGiveBack(s, t, k)
  {
    assert TaskOk(s, k) && ListOk(s, t, k) && TimerOk(s, t) && RegOk(s, s.tasks[k].reg) && WorkerOk(s, s.tasks[k].worker);
  }

  // ------------------------------------------------------------------ every step keeps the invariant

  lemma CancelKeeps(s: State, t: nat)
    requires Inv(s) && Shape(s) && t < |s.timers| && s.timers[t].stage.Open?
    ensures Inv(DoCancel(s, t))
  {
    var s' := DoCancel(s, t);
    if s.timers[t].active.Some? {
      var k := s.timers[t].active.value;
      assert TimerOk(s, t) && TaskOk(s, k);
      if s.tasks[k].state.ACTIVE? {
        Known(s, t, k);
        GiveBackKeeps(s, s', t, k);
      } else {
        CallOffKeeps(s, t, Open);
      }
    }
  }

  /** The active registration is called off and left to the worker that is firing it, or to the
      destructor. */
  lemma CallOffKeeps(s: State, t: nat, stage: Stage)
    requires Inv(s) && Shape(s) && t < |s.timers| && s.timers[t].active.Some? && (stage.Open? || stage.Dying?)
    requires stage.Open? ==> s.tasks[s.timers[t].active.value].state.FIRING?
    ensures Inv(CallOff(SetTimer(s, t, s.timers[t].(active := None, stage := stage)), s.tasks[s.timers[t].active.value].reg))
  {
    var k := s.timers[t].active.value;
    var s' := CallOff(SetTimer(s, t, s.timers[t].(active := None, stage := stage)), s.tasks[k].reg);
    assert TimerOk(s, t) && TaskOk(s, k) && ListOk(s, t, k) && RegOk(s, s.tasks[k].reg) && WorkerOk(s, s.tasks[k].worker);
    forall j: nat ensures TaskOk(s', j) { assert TaskOk(s, j); }
    forall u: nat, j: nat ensures ListOk(s', u, j) { assert ListOk(s, u, j); }
    forall u: nat ensures TimerOk(s', u) { assert TimerOk(s, u) && (u < |s.timers| && s.timers[u].active.Some? ==> TaskOk(s, s.timers[u].active.value)); }
    forall v: nat ensures WorkerOk(s', v) { assert WorkerOk(s, v); }
    forall q: nat ensures RegOk(s', q) { assert RegOk(s, q); }
  }

  /** Only the stage of a timer without an active registration changes. */
  lemma StageKeeps(s: State, t: nat, stage: Stage)
    requires Inv(s) && t < |s.timers| && s.timers[t].active.None? && !s.timers[t].stage.Dead?
    requires s.timers[t].stage.Dying? ==> stage.Dead?
    requires stage.Dead? ==> s.timers[t].regs == multiset{}
    ensures Inv(SetTimer(s, t, s.timers[t].(stage := stage)))
  {
    var s' := SetTimer(s, t, s.timers[t].(stage := stage));
    forall j: nat ensures TaskOk(s', j) { assert TaskOk(s, j) && ListOk(s, t, j); }
    forall u: nat, j: nat ensures ListOk(s', u, j) { assert ListOk(s, u, j); }
    forall u: nat ensures TimerOk(s', u) { assert TimerOk(s, u); }
    forall v: nat ensures WorkerOk(s', v) { assert WorkerOk(s, v); }
    forall q: nat ensures RegOk(s', q) { assert RegOk(s, q); }
  }

  lemma ScheduleTasks(s: State, t: nat, w: nat, pick: Option<nat>, s': State)
    requires Inv(s) && Step(s, RescheduleEnd(t, w, pick), s')
    ensures forall j: nat :: TaskOk(s', j)
  {
    var k := if pick.Some? then pick.value else |s.tasks|;
    assert TaskOk(s, k) && TimerOk(s, t) && ListOk(s, t, k);
    if pick.Some? { assert RegOk(s, s.tasks[k].reg); }
    forall j: nat ensures TaskOk(s', j) { assert TaskOk(s, j); }
  }

  lemma ScheduleLists(s: State, t: nat, w: nat, pick: Option<nat>, s': State)
    requires Inv(s) && Step(s, RescheduleEnd(t, w, pick), s')
    ensures forall u: nat, j: nat :: ListOk(s', u, j)
  {
    var k := if pick.Some? then pick.value else |s.tasks|;
    assert TaskOk(s, k) && TimerOk(s, t) && ListOk(s, t, k);
    if pick.Some? { assert RegOk(s, s.tasks[k].reg); }
    forall u: nat, j: nat ensures ListOk(s', u, j) { assert ListOk(s, u, j); }
  }

  lemma ScheduleTimers(s: State, t: nat, w: nat, pick: Option<nat>, s': State)
    requires Inv(s) && Step(s, RescheduleEnd(t, w, pick), s')
    ensures forall u: nat :: TimerOk(s', u)
  {
    var k := if pick.Some? then pick.value else |s.tasks|;
    assert TaskOk(s, k) && TimerOk(s, t) && ListOk(s, t, k);
    if pick.Some? { assert RegOk(s, s.tasks[k].reg); }
    forall u: nat ensures TimerOk(s', u) { assert TimerOk(s, u) && (u < |s.timers| && s.timers[u].active.Some? ==> TaskOk(s, s.timers[u].active.value)); }
  }

  lemma ScheduleWorkers(s: State, t: nat, w: nat, pick: Option<nat>, s': State)
    requires Inv(s) && Step(s, RescheduleEnd(t, w, pick), s')
    ensures forall v: nat :: WorkerOk(s', v)
  {
    var k := if pick.Some? then pick.value else |s.tasks|;
    assert TaskOk(s, k) && TimerOk(s, t) && ListOk(s, t, k);
    if pick.Some? { assert RegOk(s, s.tasks[k].reg); }
    forall v: nat ensures WorkerOk(s', v) { assert WorkerOk(s, v); }
  }

  lemma ScheduleRegs(s: State, t: nat, w: nat, pick: Option<nat>, s': State)
    requires Inv(s) && Step(s, RescheduleEnd(t, w, pick), s')
    ensures forall q: nat :: RegOk(s', q)
  {
    var k := if pick.Some? then pick.value else |s.tasks|;
    assert TaskOk(s, k) && TimerOk(s, t) && ListOk(s, t, k);
    if pick.Some? { assert RegOk(s, s.tasks[k].reg); }
    forall q: nat ensures RegOk(s', q) { assert RegOk(s, q); }
  }

  lemma PushKeeps(s: State, m: Move, s': State)
    requires Inv(s) && Step(s, m, s') && m.PushReleased?
    ensures Inv(s')
  {
    assert TaskOk(s, m.k);
    forall j: nat ensures TaskOk(s', j) { assert TaskOk(s, j); }
    forall u: nat, j: nat ensures ListOk(s', u, j) { assert ListOk(s, u, j); }
    forall u: nat ensures TimerOk(s', u) { assert TimerOk(s, u); }
    forall v: nat ensures WorkerOk(s', v) { assert WorkerOk(s, v); }
    forall q: nat ensures RegOk(s', q) { assert RegOk(s, q); }
  }

  lemma PopKeeps(s: State, m: Move, s': State)
    requires Inv(s) && Step(s, m, s') && m.Pop?
    ensures Inv(s')
  {
    assert TaskOk(s, m.k) && WorkerOk(s, m.w);
    forall j: nat ensures TaskOk(s', j) { assert TaskOk(s, j); }
    forall u: nat, j: nat ensures ListOk(s', u, j) { assert ListOk(s, u, j); }
    forall u: nat ensures TimerOk(s', u) { assert TimerOk(s, u); }
    forall v: nat ensures WorkerOk(s', v) { assert WorkerOk(s, v); }
    forall q: nat ensures RegOk(s', q) { assert RegOk(s, q); }
  }

  lemma CasTasks(s: State, m: Move, s': State)
    requires Inv(s) && Step(s, m, s') && m.Cas?
    ensures forall j: nat :: TaskOk(s', j)
  {
    assert WorkerOk(s, m.w) && TaskOk(s, s.workers[m.w].task);
    forall j: nat ensures TaskOk(s', j) { assert TaskOk(s, j); }
  }

  lemma CasKeeps(s: State, m: Move, s': State)
    requires Inv(s) && Step(s, m, s') && m.Cas?
    ensures Inv(s')
  {
    var a := s.workers[m.w].task;
    assert WorkerOk(s, m.w) && TaskOk(s, a) && RegOk(s, s.tasks[a].reg);
    assert TimerOk(s, s.tasks[a].master) && ListOk(s, s.tasks[a].master, a);
    CasTasks(s, m, s');
    forall u: nat, j: nat ensures ListOk(s', u, j) { assert ListOk(s, u, j); }
    forall u: nat ensures TimerOk(s', u) { assert TimerOk(s, u) && (u < |s.timers| && s.timers[u].active.Some? ==> TaskOk(s, s.timers[u].active.value)); }
    forall v: nat ensures WorkerOk(s', v) { assert WorkerOk(s, v); }
    forall q: nat ensures RegOk(s', q) { assert RegOk(s, q); }
  }

  /** The callback of the active registration begins. */
  lemma CallKeeps(s: State, w: nat, s': State)
    requires Inv(s) && Step(s, FireEnter(w), s')
    requires s.timers[s.tasks[s.workers[w].task].master].active == Some(s.workers[w].task)
    ensures Inv(s')
  {
    var a := s.workers[w].task;
    assert WorkerOk(s, w) && TaskOk(s, a) && RegOk(s, s.tasks[a].reg);
    assert TimerOk(s, s.tasks[a].master) && ListOk(s, s.tasks[a].master, a);
    forall j: nat ensures TaskOk(s', j) { assert TaskOk(s, j); }
    forall u: nat, j: nat ensures ListOk(s', u, j) { assert ListOk(s, u, j); }
    forall u: nat ensures TimerOk(s', u) { assert TimerOk(s, u) && (u < |s.timers| && s.timers[u].active.Some? ==> TaskOk(s, s.timers[u].active.value)); }
    forall v: nat ensures WorkerOk(s', v) { assert WorkerOk(s, v); }
    forall q: nat ensures RegOk(s', q) { assert RegOk(s, q); }
  }

  lemma FireKeeps(s: State, m: Move, s': State)
    requires Inv(s) && Step(s, m, s') && (m.FireEnter? || m.FireExit?)
    ensures Inv(s')
  {
    var k := s.workers[m.w].task;
    var t := s.tasks[k].master;
    assert WorkerOk(s, m.w) && TaskOk(s, k) && ListOk(s, t, k) && TimerOk(s, t);
    if s.timers[t].active == Some(k) {
      CallKeeps(s, m.w, s');
    } else {
      Known(s, t, k);
      GiveBackKeeps(s, s', t, k);
    }
  }

  lemma StepKeeps(s: State, m: Move, s': State)
    requires Inv(s) && Step(s, m, s')
    ensures Inv(s')
  {
    match m {
      case Cancel(t) => CancelKeeps(s, t);
      case RescheduleBegin(t) =>
        CancelKeeps(s, t);
        StageKeeps(DoCancel(s, t), t, Rescheduling);
      case RescheduleEnd(t, w, pick) =>
        ScheduleTasks(s, t, w, pick, s');
        ScheduleLists(s, t, w, pick, s');
        ScheduleTimers(s, t, w, pick, s');
        ScheduleWorkers(s, t, w, pick, s');
        ScheduleRegs(s, t, w, pick, s');
      case DestroyBegin(t) =>
        if s.timers[t].active.Some? { CallOffKeeps(s, t, Dying); } else { StageKeeps(s, t, Dying); }
      case DestroyOne(t, k) =>
        assert ListOk(s, t, k) && TimerOk(s, t);
        Known(s, t, k);
        GiveBackKeeps(s, s', t, k);
      case DestroyEnd(t) =>
        assert TimerOk(s, t);
        StageKeeps(s, t, Dead);
      case PushReleased(_) => PushKeeps(s, m, s');
      case Pop(_, _) => PopKeeps(s, m, s');
      case Cas(_) => CasKeeps(s, m, s');
      case FireEnter(_) => FireKeeps(s, m, s');
      case FireExit(_) => FireKeeps(s, m, s');
    }
  }

  // ------------------------------------------------------------------ all runs

  lemma InitKeeps(s: State)
    requires Init(s)
    ensures Inv(s)
  {
    forall k: nat ensures TaskOk(s, k) {}
    forall t: nat, k: nat ensures ListOk(s, t, k) {}
    forall t: nat ensures TimerOk(s, t) {}
    forall w: nat ensures WorkerOk(s, w) {}
    forall r: nat ensures RegOk(s, r) {}
  }

  lemma KeepsAt(run: seq<State>, moves: seq<Move>, i: nat)
    requires History(run, moves) && i < |moves| && Inv(run[i])
    ensures Inv(run[i + 1])
  {
    StepKeeps(run[i], moves[i], run[i + 1]);
  }

  /** The invariant holds in every state of every run; in particular no assertion has failed and no
      worker has touched a destroyed timer. */
  lemma {:induction false} RunKeeps(run: seq<State>, moves: seq<Move>, i: nat)
    requires History(run, moves) && i < |run|
    ensures Inv(run[i]) && !run[i].panic
  {
    if i == 0 {
      InitKeeps(run[0]);
    } else {
      RunKeeps(run, moves, i - 1);
      KeepsAt(run, moves, i - 1);
    }
  }

  /** What happens to a registration is never undone, and a destroyed timer stays destroyed. */
  ghost predicate Later(s: State, s': State) {
    && |s.log| <= |s'.log| && |s.timers| == |s'.timers|
    && (forall r :: 0 <= r < |s.log| ==> (s.log[r].off ==> s'.log[r].off) && s.log[r].timer == s'.log[r].timer
                                         && s.log[r].fired <= s'.log[r].fired && s.log[r].freed <= s'.log[r].freed)
    && (forall t :: 0 <= t < |s.timers| && s.timers[t].stage.Dead? ==> s'.timers[t].stage.Dead?)
  }

  lemma CancelLater(s: State, t: nat)
    requires Shape(s) && t < |s.timers|
    ensures Later(s, DoCancel(s, t)) && DoCancel(s, t).timers[t].stage == s.timers[t].stage
  {}

  lemma ReleaseLater(s: State, t: nat, k: nat)
    requires t < |s.timers| && k < |s.tasks| && s.tasks[k].reg < |s.log|
    ensures Later(s, Release(s, t, k))
  {}

  lemma FireLater(s: State, m: Move, s': State)
    requires Step(s, m, s') && (m.FireEnter? || m.FireExit?)
    ensures Later(s, s')
  {
    var k := s.workers[m.w].task;
    ReleaseLater(s, s.tasks[k].master, k);
  }

  lemma StepLater(s: State, m: Move, s': State)
    requires Step(s, m, s')
    ensures Later(s, s')
  {
    match m {
      case Cancel(t) => CancelLater(s, t);
      case RescheduleBegin(t) => CancelLater(s, t);
      case RescheduleEnd(_, _, _) =>
      case DestroyBegin(_) =>
      case DestroyOne(t, k) => ReleaseLater(s, t, k);
      case DestroyEnd(_) =>
      case PushReleased(_) =>
      case Pop(_, _) =>
      case Cas(_) =>
      case FireEnter(_) => FireLater(s, m, s');
      case FireExit(_) => FireLater(s, m, s');
    }
  }

  lemma LaterAt(run: seq<State>, moves: seq<Move>, i: nat)
    requires History(run, moves) && i < |moves|
    ensures Later(run[i], run[i + 1])
  {
    StepLater(run[i], moves[i], run[i + 1]);
  }

  lemma {:induction false} RunLater(run: seq<State>, moves: seq<Move>, i: nat, j: nat)
    requires History(run, moves) && i <= j < |run|
    ensures Later(run[i], run[j])
  {
    if i < j {
      RunLater(run, moves, i, j - 1);
      LaterAt(run, moves, j - 1);
    }
  }

  /** In every run, the callback of a registration begins at most once, and the registration is given
      back at most once: exactly when no task is in use for it any more, and then it had fired or had
      been called off, not both. */
  lemma EachOnce(run: seq<State>, moves: seq<Move>, i: nat, r: nat)
    requires History(run, moves) && i < |run| && r < |run[i].log|
    ensures var s, x := run[i], run[i].log[r];
            && x.fired <= 1 && x.freed <= 1 && !(x.off && x.fired == 1)
            && (x.freed == 1 ==> x.off || x.fired == 1)
            && (x.freed == 0 <==> exists k :: 0 <= k < |s.tasks| && s.tasks[k].reg == r && !s.tasks[k].state.RELEASED?)
  {
    RunKeeps(run, moves, i);
    var s := run[i];
    assert RegOk(s, r) && TaskOk(s, s.log[r].task);
    forall k: nat | k < |s.tasks| && s.tasks[k].reg == r ensures k == s.log[r].task {
      assert TaskOk(s, k);
    }
  }

  /** In every run: a registration that was active when cancel(), reschedule() or the destructor was
      called never runs its callback afterwards. */
  lemma SupersededNeverRuns(run: seq<State>, moves: seq<Move>, i: nat, j: nat, t: nat, k: nat)
    requires History(run, moves) && i < j < |run| && t < |run[i].timers|
    requires moves[i] == Cancel(t) || moves[i] == RescheduleBegin(t) || moves[i] == DestroyBegin(t)
    requires run[i].timers[t].active == Some(k)
    ensures k < |run[i].tasks| && run[i].tasks[k].reg < |run[j].log|
    ensures run[j].log[run[i].tasks[k].reg].fired == 0
  {
    RunKeeps(run, moves, i);
    assert TimerOk(run[i], t) && TaskOk(run[i], k);
    assert Step(run[i], moves[i], run[i + 1]);
    RunLater(run, moves, i + 1, j);
    RunKeeps(run, moves, j);
    assert RegOk(run[j], run[i].tasks[k].reg);
  }

  /** In every run: when cancel() finds nothing pending, no registration of the timer can still come to
      fire: each has been given back or is already being fired. */
  lemma NothingPending(run: seq<State>, moves: seq<Move>, i: nat, t: nat, k: nat)
    requires History(run, moves) && i < |run| && t < |run[i].timers| && k < |run[i].tasks|
    requires run[i].timers[t].stage.Open? && run[i].timers[t].active.None? && run[i].tasks[k].master == t
    ensures !run[i].tasks[k].state.ACTIVE?
  {
    RunKeeps(run, moves, i);
    assert TaskOk(run[i], k);
  }

  /** In every run: once the destructor has returned, no ACTIVE or FIRING task refers to the timer and
      no worker will touch it, then or at any later time. */
  lemma DestroyedIsQuiet(run: seq<State>, moves: seq<Move>, i: nat, j: nat, t: nat, k: nat, w: nat)
    requires History(run, moves) && i <= j < |run| && t < |run[i].timers| && run[i].timers[t].stage.Dead?
    ensures k < |run[j].tasks| && run[j].tasks[k].master == t ==> run[j].tasks[k].state.RELEASED?
    ensures w < |run[j].workers| && (run[j].workers[w].Firing? || run[j].workers[w].Calling?) ==>
              run[j].workers[w].task < |run[j].tasks| && run[j].tasks[run[j].workers[w].task].master != t
  {
    RunLater(run, moves, i, j);
    RunKeeps(run, moves, j);
    var s := run[j];
    assert TimerOk(s, t) && ListOk(s, t, k) && WorkerOk(s, w);
    if w < |s.workers| && !s.workers[w].Idle? {
      assert TaskOk(s, s.workers[w].task) && ListOk(s, t, s.workers[w].task);
    }
  }

  // ------------------------------------------------------------------ nothing is lost

  /** In every run, the pending registration of a timer is in its worker's timer set, or its worker has
      taken it to fire it: it waits for its time, or its callback is about to be considered. */
  lemma PendingIsKept(run: seq<State>, moves: seq<Move>, i: nat, t: nat)
    requires History(run, moves) && i < |run| && t < |run[i].timers| && run[i].timers[t].active.Some?
    ensures var s, k := run[i], run[i].timers[t].active.value;
            && k < |s.tasks| && s.tasks[k].master == t && s.tasks[k].worker < |s.workers|
            && (if s.tasks[k].state.ACTIVE? then s.tasks[k].queued || s.workers[s.tasks[k].worker] == Popped(k)
                else s.tasks[k].state.FIRING? && s.workers[s.tasks[k].worker] == Firing(k))
  {
    RunKeeps(run, moves, i);
    var s := run[i];
    assert TimerOk(s, t) && TaskOk(s, s.timers[t].active.value);
    assert WorkerOk(s, s.tasks[s.timers[t].active.value].worker);
  }

  /** What reschedule() promises: the timer has one registration more, the new one is what is pending, it
      has not fired, and it is in the timer set of the worker of the CPU. */
  lemma Rescheduled(run: seq<State>, moves: seq<Move>, i: nat)
    requires History(run, moves) && i < |moves| && moves[i].RescheduleEnd?
    ensures var s, s', t, w := run[i], run[i + 1], moves[i].t, moves[i].w;
            && t < |s'.timers| && s'.timers[t].stage.Open? && s'.timers[t].active.Some?
            && var k := s'.timers[t].active.value;
            && k < |s'.tasks| && (k < |s.tasks| ==> s.tasks[k].state.RELEASED?)
            && s'.tasks[k] == Task(w, ACTIVE, t, true, |s.log|)
            && |s'.log| == |s.log| + 1 && !s'.log[|s.log|].off && s'.log[|s.log|].fired == 0
            && s'.timers[t].regs == s.timers[t].regs + multiset{k}
  {
    RunKeeps(run, moves, i);
    RunKeeps(run, moves, i + 1);
    assert Step(run[i], moves[i], run[i + 1]);
    if moves[i].pick.Some? {
      assert TaskOk(run[i], moves[i].pick.value);
    }
  }

  lemma ShapeHolds(s: State)
    requires Inv(s)
    ensures Shape(s)
  {
    forall k | 0 <= k < |s.tasks|
      ensures s.tasks[k].worker < |s.workers| && s.tasks[k].master < |s.timers| && s.tasks[k].reg < |s.log| {
      assert TaskOk(s, k);
    }
    forall t | 0 <= t < |s.timers| && s.timers[t].active.Some? ensures s.timers[t].active.value < |s.tasks| {
      assert TimerOk(s, t);
    }
    forall w | 0 <= w < |s.workers| && !s.workers[w].Idle? ensures s.workers[w].task < |s.tasks| {
      assert WorkerOk(s, w);
    }
  }

  /** In every run, a worker can always go on unless it waits for a timer's mutex: with a task to take it
      takes it out of its set, to fire it unless it was released; a task still ACTIVE it goes on to fire;
      the callback begins if the registration is the pending one, and else nothing happens but its release. */
  lemma WorkerGoesOn(run: seq<State>, moves: seq<Move>, i: nat, w: nat, k: nat)
    requires History(run, moves) && i < |run| && w < |run[i].workers| && k < |run[i].tasks|
    ensures var s := run[i];
            && (s.workers[w].Idle? && s.tasks[k].worker == w && s.tasks[k].queued ==>
                  exists s' :: Step(s, Pop(w, k), s') && |s'.workers| == |s.workers| && |s'.tasks| == |s.tasks| &&
                               !s'.tasks[k].queued && s'.workers[w] == if s.tasks[k].state.RELEASED? then Idle else Popped(k))
            && (s.workers[w] == Popped(k) ==>
                  exists s' :: Step(s, Cas(w), s') && |s'.workers| == |s.workers| &&
                               s'.workers[w] == if s.tasks[k].state.ACTIVE? then Firing(k) else Idle)
            && s.tasks[k].master < |s.timers|
            && (s.workers[w] == Firing(k) && !s.timers[s.tasks[k].master].stage.Rescheduling? ==>
                  exists s' :: Step(s, FireEnter(w), s') && |s'.workers| == |s.workers| &&
                               s'.workers[w] == if s.timers[s.tasks[k].master].active == Some(k) then Calling(k) else Idle)
            && (s.workers[w] == Calling(k) && !s.timers[s.tasks[k].master].stage.Rescheduling? ==>
                  exists s' :: Step(s, FireExit(w), s') && |s'.workers| == |s.workers| && s'.workers[w] == Idle)
  {
    RunKeeps(run, moves, i);
    ShapeHolds(run[i]);
    PopGoesOn(run[i], w, k);
    FireGoesOn(run[i], w, k);
  }

  lemma PopGoesOn(s: State, w: nat, k: nat)
    requires Inv(s) && Shape(s) && w < |s.workers| && k < |s.tasks|
    ensures s.workers[w].Idle? && s.tasks[k].worker == w && s.tasks[k].queued ==>
              exists s' :: Step(s, Pop(w, k), s') && |s'.workers| == |s.workers| && |s'.tasks| == |s.tasks| &&
                           !s'.tasks[k].queued && s'.workers[w] == if s.tasks[k].state.RELEASED? then Idle else Popped(k)
    ensures s.workers[w] == Popped(k) ==>
              exists s' :: Step(s, Cas(w), s') && |s'.workers| == |s.workers| &&
                           s'.workers[w] == if s.tasks[k].state.ACTIVE? then Firing(k) else Idle
  {
    if s.workers[w].Idle? && s.tasks[k].worker == w && s.tasks[k].queued {
      var s1 := SetTask(s, k, s.tasks[k].(queued := false));
      assert Step(s, Pop(w, k), if s.tasks[k].state.RELEASED? then s1 else SetWorker(s1, w, Popped(k)));
    } else if s.workers[w] == Popped(k) {
      assert TaskOk(s, k) && WorkerOk(s, w);
      assert Step(s, Cas(w), if s.tasks[k].state.ACTIVE? then SetWorker(SetTask(s, k, s.tasks[k].(state := FIRING)), w, Firing(k))
                                else SetWorker(s, w, Idle));
    }
  }

  lemma FireGoesOn(s: State, w: nat, k: nat)
    requires Inv(s) && Shape(s) && w < |s.workers| && k < |s.tasks|
    ensures s.workers[w] == Firing(k) && Unlocked(s, s.tasks[k].master) ==>
              exists s' :: Step(s, FireEnter(w), s') && |s'.workers| == |s.workers| &&
                           s'.workers[w] == if s.timers[s.tasks[k].master].active == Some(k) then Calling(k) else Idle
    ensures s.workers[w] == Calling(k) && Unlocked(s, s.tasks[k].master) ==>
              exists s' :: Step(s, FireExit(w), s') && |s'.workers| == |s.workers| && s'.workers[w] == Idle
  {
    var t := s.tasks[k].master;
    if (s.workers[w] == Firing(k) || s.workers[w] == Calling(k)) && Unlocked(s, t) {
      assert TaskOk(s, k) && WorkerOk(s, w) && TimerOk(s, t) && ListOk(s, t, k);
      var released := SetWorker(Release(s, t, k), w, Idle);
      if s.workers[w] == Calling(k) {
        assert Step(s, FireExit(w), released);
      } else if s.timers[t].active != Some(k) {
        assert Step(s, FireEnter(w), released);
      } else {
        var r := s.tasks[k].reg;
        assert Step(s, FireEnter(w), SetWorker(SetLog(SetTimer(s, t, s.timers[t].(active := None)), r,
                                                         s.log[r].(fired := s.log[r].fired + 1)), w, Calling(k)));
      }
    }
  }

  /** In every run, while reschedule() holds the mutex of a timer nobody else changes the timer. */
  lemma MutexHeld(run: seq<State>, moves: seq<Move>, i: nat, t: nat)
    requires History(run, moves) && i < |moves| && t < |run[i].timers| && run[i].timers[t].stage.Rescheduling?
    requires !(moves[i].RescheduleEnd? && moves[i].t == t)
    ensures t < |run[i + 1].timers| && run[i + 1].timers[t] == run[i].timers[t]
  {
    RunKeeps(run, moves, i);
    var s, m := run[i], moves[i];
    assert Step(s, m, run[i + 1]);
    if m.FireEnter? || m.FireExit? {
      assert WorkerOk(s, m.w) && TaskOk(s, s.workers[m.w].task) && s.tasks[s.workers[m.w].task].master != t;
    }
  }

  /** In every run, a released task is about to be pushed to its worker's queue, and can be, or is in it. */
  lemma ReleasedIsKept(run: seq<State>, moves: seq<Move>, i: nat, k: nat)
    requires History(run, moves) && i < |run| && k < |run[i].tasks| && run[i].tasks[k].state.RELEASED?
    ensures k in run[i].limbo <==> k !in run[i].released
    ensures k in run[i].limbo ==> exists s' :: Step(run[i], PushReleased(k), s') && k in s'.released
  {
    RunKeeps(run, moves, i);
    var s := run[i];
    ShapeHolds(s);
    assert TaskOk(s, k);
    if k in s.limbo {
      assert Step(s, PushReleased(k), s.(limbo := s.limbo - multiset{k}, released := s.released + multiset{k}));
    }
  }

  /** What a timer has to be for a call, and a CPU and a released task for reschedule(). */
  predicate MayCall(s: State, m: Move) {
    match m
    case Cancel(t) => t < |s.timers| && s.timers[t].stage.Open?
    case RescheduleBegin(t) => t < |s.timers| && s.timers[t].stage.Open?
    case DestroyBegin(t) => t < |s.timers| && s.timers[t].stage.Open?
    case RescheduleEnd(t, w, pick) =>
      && t < |s.timers| && s.timers[t].stage.Rescheduling? && w < |s.workers| && !s.workers[w].Popped?
      && (pick.Some? ==> pick.value in s.released && pick.value < |s.tasks| && s.tasks[pick.value].worker == w)
    case _ => false
  }

  /** In every run, cancel(), reschedule() and the destructor can be called exactly on an open timer; after
      the first two nothing is pending; and reschedule() finds a task, a new one or any released one of the
      CPU, exactly while the worker of the CPU holds no task that it has yet to mark. */
  lemma CallsGoOn(run: seq<State>, moves: seq<Move>, i: nat, m: Move)
    requires History(run, moves) && i < |run| && (m.Cancel? || m.RescheduleBegin? || m.RescheduleEnd? || m.DestroyBegin?)
    ensures (exists s' :: Step(run[i], m, s')) <==> MayCall(run[i], m)
    ensures i < |moves| && moves[i] == m && (m.Cancel? || m.RescheduleBegin?) ==>
              m.t < |run[i + 1].timers| && run[i + 1].timers[m.t].active.None?
  {
    RunKeeps(run, moves, i);
    var s := run[i];
    ShapeHolds(s);
    if m.t < |s.timers| { CancelPending(s, m.t, m.t); }
    CallEnabled(s, m);
    if i < |moves| {
      assert Step(s, moves[i], run[i + 1]);
    }
  }

  lemma CallEnabled(s: State, m: Move)
    requires Shape(s) && !s.panic && (m.Cancel? || m.RescheduleBegin? || m.RescheduleEnd? || m.DestroyBegin?)
    requires m.t < |s.timers| ==> |DoCancel(s, m.t).timers| == |s.timers|
    ensures (exists s' :: Step(s, m, s')) <==> MayCall(s, m)
  {
    if MayCall(s, m) {
      match m {
        case Cancel(t) => assert Step(s, m, DoCancel(s, t));
        case RescheduleBegin(t) =>
          var s1 := DoCancel(s, t);
          assert Step(s, m, SetTimer(s1, t, s1.timers[t].(stage := Rescheduling)));
        case RescheduleEnd(t, w, pick) => assert Step(s, m, DoSchedule(s, t, w, pick));
        case DestroyBegin(t) =>
          var s1 := SetTimer(s, t, s.timers[t].(active := None, stage := Dying));
          assert Step(s, m, if s.timers[t].active.Some? then CallOff(s1, s.tasks[s.timers[t].active.value].reg) else s1);
      }
    }
  }

  /** In every run, the destructor gets to its end: it can give back each registration that is not being
      fired, the worker of each other one is under way to give it back, and with none left it can return. */
  lemma DestructorGoesOn(run: seq<State>, moves: seq<Move>, i: nat, t: nat, k: nat)
    requires History(run, moves) && i < |run| && t < |run[i].timers| && run[i].timers[t].stage.Dying?
    ensures var s := run[i];
            && (s.timers[t].regs == multiset{} ==>
                  exists s' :: Step(s, DestroyEnd(t), s') && |s'.timers| == |s.timers| && s'.timers[t].stage.Dead?)
            && (k in s.timers[t].regs ==>
                  k < |s.tasks| && s.tasks[k].master == t && s.tasks[k].worker < |s.workers| &&
                  if s.tasks[k].state.ACTIVE? then
                    exists s' :: Step(s, DestroyOne(t, k), s') && |s'.timers| == |s.timers| && k !in s'.timers[t].regs
                  else
                    s.workers[s.tasks[k].worker] == Firing(k) || s.workers[s.tasks[k].worker] == Calling(k))
  {
    RunKeeps(run, moves, i);
    var s := run[i];
    ShapeHolds(s);
    if s.timers[t].regs == multiset{} {
      assert Step(s, DestroyEnd(t), SetTimer(s, t, s.timers[t].(stage := Dead)));
    }
    if k in s.timers[t].regs {
      assert ListOk(s, t, k) && TaskOk(s, k);
      if s.tasks[k].state.ACTIVE? {
        assert Step(s, DestroyOne(t, k), Release(s, t, k));
      }
    }
  }

  // ------------------------------------------------------------------ serial_timer_task

  /** A serial_timer_task over a timer of the machine above; its lock is that timer's mutex.
      `untried`: workers whose callback has begun and has not yet called try_fire().  The last two
      count the calls of reschedule() and the calls of try_fire() that returned true. */
  datatype Serial = Serial(active: bool, scheduled: int, untried: set<nat>, reschedules: nat, passed: nat)

  /** A step of the machine, or the call of try_fire() in the callback that worker w runs. */
  datatype SerialMove = Base(m: Move) | TryFire(w: nat)

  /** _task.is_pending(), as a number. */
  function Pending(s: State, t: nat): (r: nat)
    requires t < |s.timers|
  {
    if s.timers[t].active.Some? then 1 else 0
  }

  /** Worker w is about to begin the callback of timer t. */
  predicate Begins(s: State, w: nat, t: nat) {
    && w < |s.workers| && s.workers[w].Firing? && s.workers[w].task < |s.tasks| && t < |s.timers|
    && s.tasks[s.workers[w].task].master == t && s.timers[t].active == Some(s.workers[w].task)
  }

  predicate Runs(s: State, w: nat, t: nat) {
    w < |s.workers| && s.workers[w].Calling? && s.workers[w].task < |s.tasks| && s.tasks[s.workers[w].task].master == t
  }

  /** What the methods do to the counters beside the timer's own step. */
  function SerialAfter(s: State, x: Serial, t: nat, m: Move): (r: Serial)
    requires t < |s.timers|
  {
    if m == Cancel(t) then x.(active := false, scheduled := x.scheduled - Pending(s, t))
    else if m == RescheduleBegin(t) then x.(scheduled := x.scheduled - Pending(s, t))
    else if m.RescheduleEnd? && m.t == t then x.(active := true, scheduled := x.scheduled + 1, reschedules := x.reschedules + 1)
    else if m.FireEnter? && Begins(s, m.w, t) then x.(untried := x.untried + {m.w})
    else x
  }

  function DoTryFire(s: State, x: Serial, t: nat, w: nat): (r: Serial)
    requires t < |s.timers|
  {
    var x1 := x.(scheduled := x.scheduled - 1, untried := x.untried - {w});
    if Pending(s, t) == 0 && x.active then x1.(active := false, passed := x.passed + 1) else x1
  }

  /** The callback calls try_fire() once before it returns, and the object is destroyed only when its
      count is zero, as its destructor asserts. */
  ghost predicate SerialStep(s: State, x: Serial, t: nat, mv: SerialMove, s': State, x': Serial) {
    t < |s.timers| &&
    match mv
    case Base(m) =>
      && Step(s, m, s') && x' == SerialAfter(s, x, t, m)
      && (m.FireExit? ==> m.w !in x.untried) && (m == DestroyBegin(t) ==> x.scheduled == 0)
    case TryFire(w) => w in x.untried && Unlocked(s, t) && s' == s && x' == DoTryFire(s, x, t, w)
  }

  ghost predicate SerialRun(run: seq<State>, xs: seq<Serial>, t: nat, moves: seq<SerialMove>) {
    && |run| == |xs| == |moves| + 1
    && Init(run[0]) && t < |run[0].timers| && xs[0] == Serial(false, 0, {}, 0, 0)
    && (forall i {:trigger moves[i]} :: 0 <= i < |moves| ==> SerialStep(run[i], xs[i], t, moves[i], run[i + 1], xs[i + 1]))
  }

  /** The count is the number of callbacks pending or begun, and a pending callback may pass. */
  ghost predicate SerialOk(s: State, x: Serial, t: nat) {
    && Inv(s) && t < |s.timers|
    && x.scheduled == |x.untried| + Pending(s, t)
    && (Pending(s, t) == 1 ==> x.active)
    && (x.active ==> Pending(s, t) == 1 || x.untried != {} || s.timers[t].stage.Rescheduling?)
    && (forall w :: w in x.untried ==> Runs(s, w, t))
  }

  /** A task keeps its timer until it is borrowed again. */
  lemma MasterStays(s: State, m: Move, s': State, k: nat)
    requires Step(s, m, s') && k < |s.tasks| && !(m.RescheduleEnd? && m.pick == Some(k))
    ensures k < |s'.tasks| && s'.tasks[k].master == s.tasks[k].master
  {
    if m.Cancel? || m.RescheduleBegin? {
      CancelMasters(s, m.t, k);
    } else if m.FireEnter? || m.FireExit? {
      ReleaseMasters(s, s.tasks[s.workers[m.w].task].master, s.workers[m.w].task, k);
    }
  }

  lemma CancelMasters(s: State, t: nat, k: nat)
    requires Shape(s) && t < |s.timers| && k < |s.tasks|
    ensures |DoCancel(s, t).tasks| == |s.tasks| && DoCancel(s, t).tasks[k].master == s.tasks[k].master
  {}

  lemma ReleaseMasters(s: State, t: nat, j: nat, k: nat)
    requires t < |s.timers| && j < |s.tasks| && s.tasks[j].reg < |s.log| && k < |s.tasks|
    ensures |Release(s, t, j).tasks| == |s.tasks| && Release(s, t, j).tasks[k].master == s.tasks[k].master
  {}

  lemma CallStays(s: State, m: Move, s': State, w: nat)
    requires Step(s, m, s') && w < |s.workers| && s.workers[w].Calling? && !(m.FireExit? && m.w == w)
    ensures w < |s'.workers| && s'.workers[w] == s.workers[w]
  {}

  /** Callbacks that run go on running until they return. */
  lemma RunsOn(s: State, m: Move, s': State, w: nat, t: nat)
    requires Inv(s) && Step(s, m, s') && Runs(s, w, t) && !(m.FireExit? && m.w == w)
    ensures Runs(s', w, t)
  {
    var k := s.workers[w].task;
    assert WorkerOk(s, w) && TaskOk(s, k);
    MasterStays(s, m, s', k);
    CallStays(s, m, s', w);
  }

  lemma CancelPending(s: State, t: nat, u: nat)
    requires Shape(s) && t < |s.timers| && u < |s.timers|
    ensures |DoCancel(s, t).timers| == |s.timers|
    ensures DoCancel(s, t).timers[u].active == if u == t then None else s.timers[u].active
  {}

  lemma FirePending(s: State, m: Move, s': State, t: nat)
    requires Inv(s) && Step(s, m, s') && t < |s.timers| && (m.FireEnter? || m.FireExit?)
    ensures t < |s'.timers|
    ensures s'.timers[t].active == if m.FireEnter? && Begins(s, m.w, t) then None else s.timers[t].active
    ensures m.FireEnter? && Begins(s, m.w, t) ==> Runs(s', m.w, t) && !Runs(s, m.w, t)
  {
    var k := s.workers[m.w].task;
    assert WorkerOk(s, m.w) && TaskOk(s, k) && ListOk(s, s.tasks[k].master, k) && TimerOk(s, s.tasks[k].master);
  }

  /** Only the timer's own calls and the start of its callback change what is pending. */
  lemma PendingAfter(s: State, m: Move, s': State, t: nat)
    requires Inv(s) && Step(s, m, s') && t < |s.timers|
    ensures t < |s'.timers|
    ensures Pending(s', t) == if m == Cancel(t) || m == RescheduleBegin(t) || m == DestroyBegin(t) then 0
                              else if m.RescheduleEnd? && m.t == t then 1
                              else if m.FireEnter? && Begins(s, m.w, t) then 0 else Pending(s, t)
    ensures m.RescheduleEnd? && m.t == t ==> Pending(s, t) == 0
    ensures m.FireEnter? && Begins(s, m.w, t) ==> Runs(s', m.w, t) && !Runs(s, m.w, t)
  {
    assert TimerOk(s, t);
    if m.Cancel? || m.RescheduleBegin? {
      CancelPending(s, m.t, t);
    } else if m.FireEnter? || m.FireExit? {
      FirePending(s, m, s', t);
    }
  }

  /** A timer is between cancel() and the new registration only inside reschedule(). */
  lemma StageAfter(s: State, m: Move, s': State, t: nat)
    requires Step(s, m, s') && t < |s.timers|
    ensures t < |s'.timers|
    ensures s'.timers[t].stage.Rescheduling? <==>
              m == RescheduleBegin(t) || (s.timers[t].stage.Rescheduling? && !(m.RescheduleEnd? && m.t == t))
  {
    if m.Cancel? || m.RescheduleBegin? {
      CancelLater(s, m.t);
    } else if m.FireEnter? || m.FireExit? {
      FireStage(s, m, s', t);
    }
  }

  lemma FireStage(s: State, m: Move, s': State, t: nat)
    requires Step(s, m, s') && (m.FireEnter? || m.FireExit?) && t < |s.timers|
    ensures t < |s'.timers| && s'.timers[t].stage == s.timers[t].stage
  {}

  lemma SerialKeeps(s: State, x: Serial, t: nat, mv: SerialMove, s': State, x': Serial)
    requires SerialOk(s, x, t) && SerialStep(s, x, t, mv, s', x')
    ensures SerialOk(s', x', t)
  {
    if mv.Base? {
      StepKeeps(s, mv.m, s');
      SerialBase(s, x, t, mv.m, s', x');
    }
  }

  lemma SerialBase(s: State, x: Serial, t: nat, m: Move, s': State, x': Serial)
    requires SerialOk(s, x, t) && SerialStep(s, x, t, Base(m), s', x') && Inv(s')
    ensures SerialOk(s', x', t)
  {
    PendingAfter(s, m, s', t);
    StageAfter(s, m, s', t);
    forall w | w in x'.untried ensures Runs(s', w, t) {
      if w in x.untried { RunsOn(s, m, s', w, t); }
    }
  }

  lemma SerialKeepsAt(run: seq<State>, xs: seq<Serial>, t: nat, moves: seq<SerialMove>, i: nat)
    requires SerialRun(run, xs, t, moves) && i < |moves| && SerialOk(run[i], xs[i], t)
    ensures SerialOk(run[i + 1], xs[i + 1], t)
  {
    SerialKeeps(run[i], xs[i], t, moves[i], run[i + 1], xs[i + 1]);
  }

  lemma {:induction false} SerialInv(run: seq<State>, xs: seq<Serial>, t: nat, moves: seq<SerialMove>, i: nat)
    requires SerialRun(run, xs, t, moves) && i < |run|
    ensures SerialOk(run[i], xs[i], t)
  {
    if i == 0 {
      InitKeeps(run[0]);
    } else {
      SerialInv(run, xs, t, moves, i - 1);
      SerialKeepsAt(run, xs, t, moves, i - 1);
    }
  }

  /** In every run: `_n_scheduled` is the number of callbacks pending or begun; it is zero exactly when
      none is pending and every callback that began has called try_fire(). */
  lemma SerialCount(run: seq<State>, xs: seq<Serial>, t: nat, moves: seq<SerialMove>, i: nat)
    requires SerialRun(run, xs, t, moves) && i < |run|
    ensures t < |run[i].timers| && xs[i].scheduled == |xs[i].untried| + Pending(run[i], t)
    ensures xs[i].scheduled == 0 <==> run[i].timers[t].active.None? && xs[i].untried == {}
  {
    SerialInv(run, xs, t, moves, i);
  }

  /** In every run, try_fire() passes exactly if the timer is active and not pending again, and takes the
      activity with it; it waits for the mutex and for nothing else; and while the timer is active a callback is pending or has yet to call try_fire(),
      so that the last one to call it passes. */
  lemma TryFirePasses(run: seq<State>, xs: seq<Serial>, t: nat, moves: seq<SerialMove>, i: nat)
    requires SerialRun(run, xs, t, moves) && i < |moves|
    ensures moves[i].TryFire? ==>
              if xs[i].active && run[i].timers[t].active.None?
              then xs[i + 1].passed == xs[i].passed + 1 && !xs[i + 1].active
              else xs[i + 1].passed == xs[i].passed && xs[i + 1].active == xs[i].active
    ensures t < |run[i].timers|
    ensures forall w :: w in xs[i].untried ==>
              ((exists s', x' :: SerialStep(run[i], xs[i], t, TryFire(w), s', x')) <==> !run[i].timers[t].stage.Rescheduling?)
    ensures run[i].timers[t].stage.Open? && xs[i].active ==>
              run[i].timers[t].active.Some? || xs[i].untried != {}
  {
    SerialInv(run, xs, t, moves, i);
    assert SerialStep(run[i], xs[i], t, moves[i], run[i + 1], xs[i + 1]);
    forall w | w in xs[i].untried && !run[i].timers[t].stage.Rescheduling?
      ensures exists s', x' :: SerialStep(run[i], xs[i], t, TryFire(w), s', x')
    {
      assert SerialStep(run[i], xs[i], t, TryFire(w), run[i], DoTryFire(run[i], xs[i], t, w));
    }
  }

  /** The calls of reschedule() that no successful try_fire() has used and none can use any more. */
  function Credit(x: Serial): (r: int) { x.reschedules - x.passed - (if x.active then 1 else 0) }

  lemma CreditAt(run: seq<State>, xs: seq<Serial>, t: nat, moves: seq<SerialMove>, i: nat)
    requires SerialRun(run, xs, t, moves) && i < |moves|
    ensures Credit(xs[i]) <= Credit(xs[i + 1])
  {
    assert SerialStep(run[i], xs[i], t, moves[i], run[i + 1], xs[i + 1]);
  }

  lemma {:induction false} CreditGrows(run: seq<State>, xs: seq<Serial>, t: nat, moves: seq<SerialMove>, i: nat, j: nat)
    requires SerialRun(run, xs, t, moves) && i <= j < |run|
    ensures Credit(xs[i]) <= Credit(xs[j])
  {
    if i < j {
      CreditGrows(run, xs, t, moves, i, j - 1);
      CreditAt(run, xs, t, moves, j - 1);
    }
  }

  /** Over any part of any run, no more calls of try_fire() succeed than there are calls of reschedule(),
      plus one if the timer was active at the beginning: however many callbacks have fired, one passes
      for each reschedule(), and none between a cancel() and the next reschedule(). */
  lemma OnePassPerReschedule(run: seq<State>, xs: seq<Serial>, t: nat, moves: seq<SerialMove>, i: nat, j: nat)
    requires SerialRun(run, xs, t, moves) && i <= j < |run|
    ensures xs[j].passed - xs[i].passed <= xs[j].reschedules - xs[i].reschedules + (if xs[i].active then 1 else 0)
    ensures i < |moves| && moves[i] == Base(Cancel(t)) && i < j ==>
              xs[j].passed - xs[i].passed <= xs[j].reschedules - xs[i].reschedules
  {
    CreditGrows(run, xs, t, moves, i, j);
    if i < |moves| && moves[i] == Base(Cancel(t)) && i < j {
      assert SerialStep(run[i], xs[i], t, moves[i], run[i + 1], xs[i + 1]);
      CreditGrows(run, xs, t, moves, i + 1, j);
    }
  }
}

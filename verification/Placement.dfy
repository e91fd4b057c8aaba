/** Where the scheduler of core/sched.cc keeps every thread: a step machine over thread status,
    per-CPU run queues and incoming-wakeup lists.

    A step is one operation that other CPUs can observe.  What a CPU does with interrupts
    disabled to data that is its own (its run queue, its current thread) is part of one step.
    Local runtimes are kept as ordering keys; the field `panic` records a failed assertion.
 */
module ThreadPlacement {

  import opened Lists

  datatype Status = Running | Queued | Waiting | Waking

  /** Who is waking a thread: nobody, a CPU that has not put it on a list yet, or one that has. */
  datatype Trip = NotWoken | Held(cpu: nat) | Sent(cpu: nat)

  /** Where a thread is in wait code: elsewhere, after prepare_wait(), or in the loop of stop_wait(). */
  datatype Code = Plain | Prepared | Stopping

  /** Local runtime; infinite for idle threads. */
  datatype Time = Finite(t: real) | Infinite

  datatype Why = Poll | Reschedule(voluntary: bool)

  /** What a CPU is doing: thread code, handle_incoming_wakeups(), or the rest of a reschedule. */
  datatype Mode = User | Drain(todo: set<nat>, why: Why) | Decide(voluntary: bool)

  datatype Thread = Thread(status: Status, home: nat, trip: Trip, code: Code, pin: nat, prio: nat, rt: Time)

  datatype Cpu = Cpu(current: nat, idle: nat, runq: seq<nat>, mode: Mode, mask: set<nat>, incoming: seq<seq<nat>>)

  /** `marks`: wakers that have put a thread on list (cpu, from) and have yet to set the mask bit. */
  datatype State = State(threads: seq<Thread>, cpus: seq<Cpu>, marks: multiset<(nat, nat)>, panic: bool)

  // ------------------------------------------------------------------ the run queue

  predicate Less(a: Time, b: Time) {
    a.Finite? && (b.Infinite? || a.t < b.t)
  }

  /** thread_runtime_compare. */
  predicate Before(a: Thread, b: Thread) {
    if a.prio > b.prio then true else if b.prio > 0 then false else Less(a.rt, b.rt)
  }

  /** The first place in the queue whose thread does not come before t. */
  function LowerBound(q: seq<nat>, ts: seq<Thread>, t: Thread): (k: nat)
    requires forall i :: 0 <= i < |q| ==> q[i] < |ts|
    ensures k <= |q| && (k < |q| ==> !Before(ts[q[k]], t))
    ensures forall i :: 0 <= i < k ==> Before(ts[q[i]], t)
  {
    if q == [] || !Before(ts[q[0]], t) then 0 else 1 + LowerBound(q[1..], ts, t)
  }

  /** The first place in the queue whose thread comes after t. */
  function UpperBound(q: seq<nat>, ts: seq<Thread>, t: Thread): (k: nat)
    requires forall i :: 0 <= i < |q| ==> q[i] < |ts|
    ensures k <= |q| && (k < |q| ==> Before(t, ts[q[k]]))
    ensures forall i :: 0 <= i < k ==> !Before(t, ts[q[i]])
  {
    if q == [] || Before(t, ts[q[0]]) then 0 else 1 + UpperBound(q[1..], ts, t)
  }

  // ------------------------------------------------------------------ steps

  predicate Shape(s: State) {
    && (forall c :: 0 <= c < |s.cpus| ==>
          && |s.cpus[c].incoming| == |s.cpus| && s.cpus[c].current < |s.threads|
          && forall i :: 0 <= i < |s.cpus[c].runq| ==> s.cpus[c].runq[i] < |s.threads|)
    && (forall t :: 0 <= t < |s.threads| ==> s.threads[t].home < |s.cpus|)
  }

  function SetThread(s: State, t: nat, x: Thread): State
    requires t < |s.threads|
  {
    s.(threads := s.threads[t := x])
  }

  function SetCpu(s: State, c: nat, x: Cpu): State
    requires c < |s.cpus|
  {
    s.(cpus := s.cpus[c := x])
  }

  datatype Move =
    | WakeCas(t: nat, c: nat)                // wake_impl(): waiting -> waking
    | WakePush(t: nat)                       // incoming_wakeups[c].push_back(t)
    | SetMask(d: nat, c: nat)                // incoming_wakeups_mask.set(c)
    | Prepare(c: nat)                        // prepare_wait()
    | StopWait(c: nat)                       // stop_wait(): waiting -> running, or else
    | StopEnd(c: nat)                        // ... the end of its loop
    | Enter(c: nat, why: Why)                // handle_incoming_wakeups(): take the mask
    | Pop(c: nat, from: nat, x: Time)        // one thread of one list; x: its runtime afterwards
    | NextList(c: nat, from: nat)            // the list is empty
    | Drained(c: nat)
    | Switch(c: nat, x: Time, y: Time, z: Time)   // p->ran_for(), hysteresis_run_stop(), n's runtime
    | Balance(c: nat, d: nat, k: nat)        // load_balance() moves runqueue[k] to CPU d
    | Migratable(c: nat, up: bool)           // migrate_disable(), migrate_enable()

  function Push(s: State, d: nat, c: nat, t: nat): State
    requires d < |s.cpus| && c < |s.cpus[d].incoming|
  {
    SetCpu(s, d, s.cpus[d].(incoming := s.cpus[d].incoming[c := s.cpus[d].incoming[c] + [t]]))
      .(marks := s.marks + multiset{(d, c)})
  }

  predicate CanPop(s: State, c: nat, from: nat) {
    && c < |s.cpus| && s.cpus[c].mode.Drain? && from in s.cpus[c].mode.todo && from < |s.cpus[c].incoming|
    && s.cpus[c].incoming[from] != [] && s.cpus[c].incoming[from][0] < |s.threads|
  }

  function DoPop(s: State, c: nat, from: nat, x: Time): State
    requires Shape(s) && CanPop(s, c, from)
  {
    var cpu := s.cpus[c];
    var t := cpu.incoming[from][0];
    var th := s.threads[t];
    var cpu' := cpu.(incoming := cpu.incoming[from := cpu.incoming[from][1..]]);
    if t == cpu.current then
      SetCpu(SetThread(s, t, th.(status := Running, trip := NotWoken)), c, cpu')
    else if th.home != c then
      SetCpu(s, c, cpu')
    else
      var th' := th.(status := Queued, trip := NotWoken, rt := if th.rt.Infinite? then Infinite else x);
      SetCpu(SetThread(s, t, th'), c, cpu'.(runq := InsertAt(cpu.runq, UpperBound(cpu.runq, s.threads, th'), t)))
  }

  /** p keeps running: the early returns of reschedule_from_interrupt(). */
  predicate Stays(p: Thread, q: seq<nat>, ts: seq<Thread>, voluntary: bool)
    requires q != [] ==> q[0] < |ts|
  {
    p.status.Running? &&
    (q == [] ||
     var t := ts[q[0]];
     if !voluntary then
       if p.prio > 0 then t.prio <= p.prio else t.prio == 0 && Less(p.rt, t.rt)
     else p.prio > 0 && t.prio < p.prio)
  }

  /** The rest of reschedule_from_interrupt(); x, y: runtime of the current thread after ran_for()
      and after hysteresis_run_stop(), z: runtime of the next thread. */
  function DoSwitch(s: State, c: nat, x: Time, y: Time, z: Time): State
    requires Shape(s) && c < |s.cpus| && s.cpus[c].mode.Decide?
  {
    var cpu := s.cpus[c].(mode := User);
    var voluntary := s.cpus[c].mode.voluntary;
    var p := cpu.current;
    var tp := s.threads[p].(rt := x);
    if tp.status.Queued? then s.(panic := true)
    else if Stays(tp, cpu.runq, s.threads, voluntary) then SetCpu(SetThread(s, p, tp), c, cpu)
    else
      var tp' := if tp.status.Running? then tp.(status := Queued, rt := y) else tp.(rt := y);
      var q := if tp.status.Running? && !voluntary
               then InsertAt(cpu.runq, LowerBound(cpu.runq, s.threads, tp'), p) else cpu.runq;
      if q == [] then s.(panic := true)
      else
        var n := q[0];
        var ts := s.threads[p := tp'];
        if !ts[n].status.Queued? || n == p then s.(panic := true)
        else
          var q' := if voluntary then InsertAt(q[1..], UpperBound(q[1..], s.threads, tp'), p) else q[1..];
          SetCpu(s.(threads := ts[n := ts[n].(status := Running, rt := z)]), c, cpu.(current := n, runq := q'))
  }

  predicate CanBalance(s: State, c: nat, d: nat, k: nat) {
    && c < |s.cpus| && d < |s.cpus| && d != c && s.cpus[c].mode.User? && k < |s.cpus[c].runq|
    && |s.cpus[d].incoming| == |s.cpus|
    && (forall i :: 0 <= i < |s.cpus[c].runq| ==> s.cpus[c].runq[i] < |s.threads|)
    && s.threads[s.cpus[c].runq[k]].pin == 0
    && (forall i :: k < i < |s.cpus[c].runq| ==> s.threads[s.cpus[c].runq[i]].pin > 0)
  }

  function DoBalance(s: State, c: nat, d: nat, k: nat): State
    requires CanBalance(s, c, d, k)
  {
    var cpu := s.cpus[c];
    var t := cpu.runq[k];
    if !s.threads[t].status.Queued? then s.(panic := true)
    else
      var s1 := SetCpu(s, c, cpu.(runq := Without(cpu.runq, k)));
      Push(SetThread(s1, t, s.threads[t].(status := Waking, home := d, trip := Sent(c))), d, c, t)
  }

  predicate UserCode(s: State, c: nat) {
    c < |s.cpus| && s.cpus[c].mode.User? && s.cpus[c].current < |s.threads|
  }

  /** What a yield checks before it reschedules: yield(); a plain reschedule needs nothing. */
  predicate MayEnter(s: State, c: nat, why: Why) {
    && UserCode(s, c)
    && (why == Reschedule(true) ==>
          && s.cpus[c].runq != [] && s.cpus[c].runq[0] != s.cpus[c].idle && s.cpus[c].current != s.cpus[c].idle
          && s.threads[s.cpus[c].current].code.Plain?)
  }

  ghost predicate Step(s: State, m: Move, s': State) {
    && Shape(s) && !s.panic
    && match m
       case WakeCas(t, c) =>
         && t < |s.threads| && c < |s.cpus| && s.threads[t].status.Waiting?
         && s' == SetThread(s, t, s.threads[t].(status := Waking, trip := Held(c)))
       case WakePush(t) =>
         && t < |s.threads| && s.threads[t].trip.Held? && s.threads[t].trip.cpu < |s.cpus|
         && var c := s.threads[t].trip.cpu;
            s' == Push(SetThread(s, t, s.threads[t].(trip := Sent(c))), s.threads[t].home, c, t)
       case SetMask(d, c) =>
         && (d, c) in s.marks && d < |s.cpus|
         && s' == SetCpu(s, d, s.cpus[d].(mask := s.cpus[d].mask + {c})).(marks := s.marks - multiset{(d, c)})
       case Prepare(c) =>
         && UserCode(s, c) && s.cpus[c].current != s.cpus[c].idle
         && var t := s.cpus[c].current;
            && s.threads[t].code.Plain?
            && s' == (if s.threads[t].status.Running? then SetThread(s, t, s.threads[t].(status := Waiting, code := Prepared))
                      else s.(panic := true))
       case StopWait(c) =>
         && UserCode(s, c)
         && var t := s.cpus[c].current;
            && s.threads[t].code.Prepared?
            && s' == SetThread(s, t, if s.threads[t].status.Waiting? then s.threads[t].(status := Running, code := Plain)
                                     else s.threads[t].(code := Stopping))
       case StopEnd(c) =>
         && UserCode(s, c)
         && var t := s.cpus[c].current;
            && s.threads[t].code.Stopping? && !s.threads[t].status.Waking?
            && s' == (if s.threads[t].status.Running? then SetThread(s, t, s.threads[t].(code := Plain))
                      else s.(panic := true))
       case Enter(c, why) =>
         && MayEnter(s, c, why)
         && s' == (if why == Reschedule(true) && !s.threads[s.cpus[c].current].status.Running? then s.(panic := true)
                   else SetCpu(s, c, s.cpus[c].(mode := Drain(s.cpus[c].mask, why), mask := {})))
       case Pop(c, from, x) => CanPop(s, c, from) && x.Finite? && s' == DoPop(s, c, from, x)
       case NextList(c, from) =>
         && c < |s.cpus| && s.cpus[c].mode.Drain? && from in s.cpus[c].mode.todo
         && (from < |s.cpus[c].incoming| ==> s.cpus[c].incoming[from] == [])
         && s' == SetCpu(s, c, s.cpus[c].(mode := Drain(s.cpus[c].mode.todo - {from}, s.cpus[c].mode.why)))
       case Drained(c) =>
         && c < |s.cpus| && s.cpus[c].mode.Drain? && s.cpus[c].mode.todo == {}
         && s' == SetCpu(s, c, s.cpus[c].(mode := if s.cpus[c].mode.why.Poll? then User else Decide(s.cpus[c].mode.why.voluntary)))
       case Switch(c, x, y, z) =>
         && c < |s.cpus| && s.cpus[c].mode.Decide? && RuntimesOk(s, c, x, y, z)
         && s' == DoSwitch(s, c, x, y, z)
       case Balance(c, d, k) => CanBalance(s, c, d, k) && s' == DoBalance(s, c, d, k)
       case Migratable(c, up) =>
         && UserCode(s, c)
         && var t := s.cpus[c].current;
            && (!up ==> s.threads[t].pin > 0 && t != s.cpus[c].idle)
            && s' == SetThread(s, t, s.threads[t].(pin := if up then s.threads[t].pin + 1 else s.threads[t].pin - 1))
  }

  /** Idle threads stay at infinity; giving back the hysteresis makes a runtime greater. */
  predicate RuntimesOk(s: State, c: nat, x: Time, y: Time, z: Time)
    requires Shape(s) && c < |s.cpus|
  {
    var idle := s.threads[s.cpus[c].current].rt.Infinite?;
    && (if idle then x.Infinite? && y.Infinite? else x.Finite? && y.Finite? && x.t < y.t)
    && (s.cpus[c].runq != [] ==> (z.Infinite? <==> s.threads[s.cpus[c].runq[0]].rt.Infinite?))
  }

  // ------------------------------------------------------------------ invariant

  /** The queue of CPU c holds queued threads of that CPU, once each and in order. */
  ghost predicate QueueOk(q: seq<nat>, ts: seq<Thread>, c: nat) {
    && NoRepeats(q)
    && (forall i :: 0 <= i < |q| ==> q[i] < |ts| && ts[q[i]].status.Queued? && ts[q[i]].home == c)
    && (forall i: nat :: Leads(q, ts, i))
  }

  /** No later thread of the queue comes before the one at position i. */
  predicate Leads(q: seq<nat>, ts: seq<Thread>, i: nat) {
    i < |q| && q[i] < |ts| ==> forall j :: i < j < |q| && q[j] < |ts| ==> !Before(ts[q[j]], ts[q[i]])
  }

  /** The list that CPU c fills for CPU d holds threads on their way to d, once each. */
  ghost predicate ListOk(l: seq<nat>, ts: seq<Thread>, d: nat, c: nat) {
    && NoRepeats(l)
    && (forall i :: 0 <= i < |l| ==> l[i] < |ts| && ts[l[i]].status.Waking? && ts[l[i]].home == d && ts[l[i]].trip == Sent(c))
  }

  predicate ThreadOk(s: State, t: nat) {
    t < |s.threads| ==>
      var th := s.threads[t];
      && th.home < |s.cpus| && |s.cpus[th.home].incoming| == |s.cpus|
      && (th.status.Running? ==> s.cpus[th.home].current == t)
      && (th.trip.NotWoken? <==> !th.status.Waking?) && (!th.trip.NotWoken? ==> th.trip.cpu < |s.cpus|)
      && (th.status.Waiting? ==> th.code.Prepared?)
      && (th.status.Queued? ==> t in s.cpus[th.home].runq)
      && (th.trip.Sent? ==> t in s.cpus[th.home].incoming[th.trip.cpu])
      && (th.rt.Infinite? ==> s.cpus[th.home].idle == t)
  }

  ghost predicate CpuOk(s: State, c: nat) {
    c < |s.cpus| ==>
      var cpu := s.cpus[c];
      && |cpu.incoming| == |s.cpus|
      && cpu.current < |s.threads| && CurrentOk(s.threads[cpu.current], c)
      && cpu.idle < |s.threads| && IdleOk(s.threads[cpu.idle], c)
      && QueueOk(cpu.runq, s.threads, c)
      && (YieldMode(cpu.mode) ==> cpu.runq != [] && cpu.runq[0] != cpu.idle && s.threads[cpu.current].status.Running?)
  }

  predicate CurrentOk(th: Thread, c: nat) {
    th.home == c && !th.status.Queued? && (th.code.Plain? ==> th.status.Running?)
  }

  predicate IdleOk(th: Thread, c: nat) {
    && th.home == c && th.pin > 0 && th.prio == 0 && th.rt.Infinite? && th.code.Plain?
    && (th.status.Running? || th.status.Queued?)
  }

  predicate YieldMode(m: Mode) {
    (m.Drain? && m.why == Reschedule(true)) || (m.Decide? && m.voluntary)
  }

  /** Lists in order, and whoever is on one will be found: the mask bit is set, is about to be set,
      or the CPU has yet to come to this list. */
  ghost predicate LinkOk(s: State, d: nat, c: nat) {
    d < |s.cpus| && c < |s.cpus[d].incoming| ==>
      var l := s.cpus[d].incoming[c];
      && ListOk(l, s.threads, d, c)
      && (l != [] ==> c in s.cpus[d].mask || (d, c) in s.marks || (s.cpus[d].mode.Drain? && c in s.cpus[d].mode.todo))
  }

  ghost predicate Inv(s: State) {
    && !s.panic
    && (forall t: nat :: ThreadOk(s, t))
    && (forall c: nat :: CpuOk(s, c))
    && (forall d: nat, c: nat :: LinkOk(s, d, c))
  }

  // ------------------------------------------------------------------ queues

  /** Thread t, now queued, joins the queue at a place that suits its key. */
  lemma QueueInsert(q: seq<nat>, ts: seq<Thread>, c: nat, k: nat, t: nat, x: Thread)
    requires QueueOk(q, ts, c) && t < |ts| && t !in q && k <= |q| && x.status.Queued? && x.home == c
    requires forall i :: 0 <= i < k ==> !Before(x, ts[q[i]])
    requires forall i :: k <= i < |q| ==> !Before(ts[q[i]], x)
    ensures QueueOk(InsertAt(q, k, t), ts[t := x], c)
  {
    InsertMembers(q, k, t);
    var r, ts' := InsertAt(q, k, t), ts[t := x];
    assert forall i :: 0 <= i < |r| ==> r[i] == if i < k then q[i] else if i == k then t else q[i - 1];
    assert forall i :: 0 <= i < |q| ==> q[i] != t;
    forall i: nat ensures Leads(r, ts', i) {
      assert Leads(q, ts, i) && (i > 0 ==> Leads(q, ts, i - 1));
    }
  }

  lemma BeforeTrans(a: Thread, b: Thread, x: Thread)
    ensures Before(a, b) && !Before(x, b) ==> Before(a, x)
    ensures Before(a, b) && !Before(a, x) ==> Before(x, b)
    ensures Before(a, b) ==> !Before(b, a)
  {}

  lemma LowerFits(q: seq<nat>, ts: seq<Thread>, c: nat, x: Thread)
    requires QueueOk(q, ts, c)
    ensures var k := LowerBound(q, ts, x);
            && (forall i :: 0 <= i < k ==> !Before(x, ts[q[i]]))
            && (forall i :: k <= i < |q| ==> !Before(ts[q[i]], x))
  {
    var k := LowerBound(q, ts, x);
    forall i | 0 <= i < k ensures !Before(x, ts[q[i]]) {
      BeforeTrans(ts[q[i]], x, x);
    }
    forall i | k <= i < |q| ensures !Before(ts[q[i]], x) {
      assert Leads(q, ts, k);
      BeforeTrans(ts[q[i]], x, ts[q[k]]);
    }
  }

  lemma UpperFits(q: seq<nat>, ts: seq<Thread>, c: nat, x: Thread)
    requires QueueOk(q, ts, c)
    ensures var k := UpperBound(q, ts, x);
            && (forall i :: 0 <= i < k ==> !Before(x, ts[q[i]]))
            && (forall i :: k <= i < |q| ==> !Before(ts[q[i]], x))
  {
    var k := UpperBound(q, ts, x);
    forall i | k <= i < |q| ensures !Before(ts[q[i]], x) {
      assert Leads(q, ts, k);
      BeforeTrans(x, ts[q[k]], ts[q[i]]);
      BeforeTrans(x, ts[q[i]], x);
    }
  }

  lemma QueueRemove(q: seq<nat>, ts: seq<Thread>, c: nat, k: nat, x: Thread)
    requires QueueOk(q, ts, c) && k < |q|
    ensures QueueOk(Without(q, k), ts[q[k] := x], c)
  {
    WithoutMembers(q, k);
    var r, ts' := Without(q, k), ts[q[k] := x];
    forall i | 0 <= i < |r| ensures r[i] != q[k] && r[i] == q[if i < k then i else i + 1] {
      WithoutAt(q, k, i);
    }
    forall i: nat ensures Leads(r, ts', i) {
      LeadsWithout(q, ts, ts', k, i);
    }
  }

  lemma LeadsWithout(q: seq<nat>, ts: seq<Thread>, ts': seq<Thread>, k: nat, i: nat)
    requires k < |q| && NoRepeats(q) && |ts'| == |ts|
    requires forall n :: 0 <= n < |ts| && n != q[k] ==> ts'[n] == ts[n]
    requires forall i: nat :: Leads(q, ts, i)
    ensures Leads(Without(q, k), ts', i)
  {
    var r := Without(q, k);
    if i < |r| {
      WithoutAt(q, k, i);
      assert Leads(q, ts, if i < k then i else i + 1);
      forall j | i < j < |r| && r[j] < |ts| && r[i] < |ts| ensures !Before(ts'[r[j]], ts'[r[i]]) {
        WithoutAt(q, k, j);
      }
    }
  }

  /** A queue is not touched by what happens to a thread that is not on it, or that keeps its key. */
  lemma QueueFrame(q: seq<nat>, ts: seq<Thread>, c: nat, t: nat, x: Thread)
    requires QueueOk(q, ts, c) && t < |ts|
    requires t !in q || (x.status == ts[t].status && x.home == ts[t].home && x.prio == ts[t].prio && x.rt == ts[t].rt)
    ensures QueueOk(q, ts[t := x], c)
  {
    var ts' := ts[t := x];
    forall i: nat ensures Leads(q, ts', i) {
      assert Leads(q, ts, i);
    }
  }

  lemma ListFrame(l: seq<nat>, ts: seq<Thread>, d: nat, c: nat, t: nat, x: Thread)
    requires ListOk(l, ts, d, c) && t < |ts| && t !in l
    ensures ListOk(l, ts[t := x], d, c)
  {}

  lemma ListTail(l: seq<nat>, ts: seq<Thread>, d: nat, c: nat, x: Thread)
    requires ListOk(l, ts, d, c) && l != []
    ensures ListOk(l[1..], ts[l[0] := x], d, c)
  {
    TailMembers(l);
    assert forall i :: 0 <= i < |l[1..]| ==> l[1..][i] in l[1..] && l[1..][i] == l[i + 1];
  }

  // ------------------------------------------------------------------ steps on one thread

  /** The thread is in no queue and on no list. */
  predicate Loose(th: Thread) {
    !th.status.Queued? && !th.trip.Sent?
  }

  /** A thread in no queue changes its status, or a thread its pin count. */
  lemma ThreadStep(s: State, t: nat, x: Thread)
    requires Inv(s) && t < |s.threads| && ThreadOk(s, t)
    requires var th := s.threads[t];
             && x.home == th.home && x.prio == th.prio && (x.rt.Infinite? <==> th.rt.Infinite?)
             && (x.rt == th.rt || (!th.status.Queued? && !x.status.Queued?))
             && ((Loose(th) && Loose(x)) || (x.status == th.status && x.trip == th.trip))
             && (x.status.Running? ==> s.cpus[th.home].current == t)
             && (x.trip.NotWoken? <==> !x.status.Waking?) && (!x.trip.NotWoken? ==> x.trip.cpu < |s.cpus|)
             && (x.status.Waiting? ==> x.code.Prepared?)
             && (s.cpus[th.home].current == t ==> CurrentOk(x, th.home) && (YieldMode(s.cpus[th.home].mode) ==> x.status == th.status))
             && (s.cpus[th.home].idle == t ==> IdleOk(x, th.home))
    ensures Inv(SetThread(s, t, x))
  {
    var s' := SetThread(s, t, x);
    forall u: nat ensures ThreadOk(s', u) {
      assert ThreadOk(s, u);
    }
    forall c: nat ensures CpuOk(s', c) {
      assert CpuOk(s, c);
      if c < |s.cpus| { QueueFrame(s.cpus[c].runq, s.threads, c, t, x); }
    }
    forall d: nat, c: nat ensures LinkOk(s', d, c) {
      assert LinkOk(s, d, c);
    }
  }

  lemma WakeCasKeeps(s: State, t: nat, c: nat, s': State)
    requires Inv(s) && Step(s, WakeCas(t, c), s')
    ensures Inv(s')
  {
    assert ThreadOk(s, t) && CpuOk(s, s.threads[t].home);
    ThreadStep(s, t, s'.threads[t]);
  }

  lemma CodeKeeps(s: State, m: Move, s': State)
    requires Inv(s) && Step(s, m, s') && (m.Prepare? || m.StopWait? || m.StopEnd? || m.Migratable?)
    ensures Inv(s')
  {
    var t := s.cpus[m.c].current;
    assert CpuOk(s, m.c) && ThreadOk(s, t);
    ThreadStep(s, t, s'.threads[t]);
  }

  // ------------------------------------------------------------------ masks, modes and lists

  /** Only a CPU's mode and mask change, or the marks. */
  lemma ModeStep(s: State, c: nat, s': State)
    requires Inv(s) && c < |s.cpus| == |s'.cpus| && s'.cpus == s.cpus[c := s.cpus[c].(mode := s'.cpus[c].mode, mask := s'.cpus[c].mask)]
    requires s' == s.(cpus := s'.cpus, marks := s'.marks)
    requires YieldMode(s'.cpus[c].mode) ==> s.cpus[c].runq != [] && s.cpus[c].runq[0] != s.cpus[c].idle && s.cpus[c].current < |s.threads| && s.threads[s.cpus[c].current].status.Running?
    requires forall d: nat, e: nat :: LinkOk(s', d, e)
    ensures Inv(s')
  {
    forall u: nat ensures ThreadOk(s', u) {
      assert ThreadOk(s, u);
    }
    forall d: nat ensures CpuOk(s', d) {
      assert CpuOk(s, d);
    }
  }

  lemma MaskKeeps(s: State, m: Move, s': State)
    requires Inv(s) && Step(s, m, s') && (m.SetMask? || m.Enter? || m.NextList? || m.Drained?)
    ensures Inv(s')
  {
    var c := if m.SetMask? then m.d else m.c;
    assert CpuOk(s, c) && ThreadOk(s, s.cpus[c].current);
    forall d: nat, e: nat ensures LinkOk(s', d, e) {
      assert LinkOk(s, d, e);
    }
    ModeStep(s, c, s');
  }

  /** A waking thread that is on no list joins one. */
  lemma PushKeeps(s: State, t: nat, x: Thread, c: nat)
    requires Inv(s) && t < |s.threads| && c < |s.cpus| && ThreadOk(s, t)
    requires s.threads[t].trip.Held? && x == s.threads[t].(trip := Sent(c)) && |s.cpus[x.home].incoming| == |s.cpus|
    ensures Inv(Push(SetThread(s, t, x), x.home, c, t))
  {
    var d := x.home;
    var s' := Push(SetThread(s, t, x), d, c, t);
    assert LinkOk(s, d, c) && t !in s.cpus[d].incoming[c];
    AppendMembers(s.cpus[d].incoming[c], t);
    forall u: nat ensures ThreadOk(s', u) {
      assert ThreadOk(s, u);
      assert u in s.cpus[d].incoming[c] ==> u in s'.cpus[d].incoming[c];
    }
    forall e: nat ensures CpuOk(s', e) {
      assert CpuOk(s, e);
      if e < |s.cpus| { QueueFrame(s.cpus[e].runq, s.threads, e, t, x); }
    }
    forall e: nat, f: nat ensures LinkOk(s', e, f) {
      assert LinkOk(s, e, f);
    }
  }

  lemma WakePushKeeps(s: State, t: nat, s': State)
    requires Inv(s) && Step(s, WakePush(t), s')
    ensures Inv(s')
  {
    assert ThreadOk(s, t);
    PushKeeps(s, t, s'.threads[t], s.threads[t].trip.cpu);
  }

  // ------------------------------------------------------------------ taking a thread off a list

  /** The first thread of a list that CPU c is emptying is the current thread or belongs to this CPU. */
  lemma PopFinds(s: State, c: nat, from: nat)
    requires Inv(s) && CanPop(s, c, from)
    ensures var t := s.cpus[c].incoming[from][0];
            && s.threads[t].home == c && s.threads[t].status.Waking? && s.threads[t].trip == Sent(from)
            && t !in s.cpus[c].runq
  {
    assert LinkOk(s, c, from) && CpuOk(s, c);
  }

  lemma PopKeeps(s: State, c: nat, from: nat, x: Time, s': State)
    requires Inv(s) && Step(s, Pop(c, from, x), s')
    ensures Inv(s')
  {
    PopQueue(s, c, from, x, s');
    PopLists(s, c, from, x, s');
    forall u: nat ensures ThreadOk(s', u) {
      PopThread(s, c, from, x, s', u);
    }
    forall e: nat ensures CpuOk(s', e) {
      PopCpu(s, c, from, x, s', e);
    }
  }

  lemma PopThread(s: State, c: nat, from: nat, x: Time, s': State, u: nat)
    requires Inv(s) && Step(s, Pop(c, from, x), s')
    requires forall v :: v in s'.cpus[c].runq <==> v in s.cpus[c].runq || (v == s.cpus[c].incoming[from][0] && v != s.cpus[c].current)
    ensures ThreadOk(s', u)
  {
    PopFinds(s, c, from);
    var l := s.cpus[c].incoming[from];
    assert ThreadOk(s, u) && ThreadOk(s, l[0]) && CpuOk(s, c);
    assert u in l && u != l[0] ==> u in l[1..];
  }

  lemma PopCpu(s: State, c: nat, from: nat, x: Time, s': State, e: nat)
    requires Inv(s) && Step(s, Pop(c, from, x), s') && QueueOk(s'.cpus[c].runq, s'.threads, c)
    ensures CpuOk(s', e)
  {
    PopFinds(s, c, from);
    var t := s.cpus[c].incoming[from][0];
    assert CpuOk(s, e) && CpuOk(s, c);
    assert s.cpus[c].runq != [] ==> s'.cpus[c].runq != [] && (s'.cpus[c].runq[0] == s.cpus[c].runq[0] || s'.cpus[c].runq[0] == t);
    if e < |s.cpus| && e != c {
      assert t !in s.cpus[e].runq;
      QueueFrame(s.cpus[e].runq, s.threads, e, t, s'.threads[t]);
    }
  }

  lemma PopQueue(s: State, c: nat, from: nat, x: Time, s': State)
    requires Inv(s) && Step(s, Pop(c, from, x), s')
    ensures var t := s.cpus[c].incoming[from][0];
            && QueueOk(s'.cpus[c].runq, s'.threads, c)
            && (forall u :: u in s'.cpus[c].runq <==> u in s.cpus[c].runq || (u == t && t != s.cpus[c].current))
  {
    PopFinds(s, c, from);
    assert CpuOk(s, c);
    var q, t := s.cpus[c].runq, s.cpus[c].incoming[from][0];
    if t == s.cpus[c].current {
      QueueFrame(q, s.threads, c, t, s'.threads[t]);
    } else {
      UpperFits(q, s.threads, c, s'.threads[t]);
      QueueInsert(q, s.threads, c, UpperBound(q, s.threads, s'.threads[t]), t, s'.threads[t]);
      InsertMembers(q, UpperBound(q, s.threads, s'.threads[t]), t);
    }
  }

  lemma PopLists(s: State, c: nat, from: nat, x: Time, s': State)
    requires Inv(s) && Step(s, Pop(c, from, x), s')
    ensures forall e: nat, f: nat :: LinkOk(s', e, f)
  {
    PopFinds(s, c, from);
    var t := s.cpus[c].incoming[from][0];
    forall e: nat, f: nat ensures LinkOk(s', e, f) {
      assert LinkOk(s, e, f);
      if e < |s.cpus| && f < |s.cpus[e].incoming| {
        if e == c && f == from {
          ListTail(s.cpus[e].incoming[f], s.threads, e, f, s'.threads[t]);
        } else {
          ListFrame(s.cpus[e].incoming[f], s.threads, e, f, t, s'.threads[t]);
        }
      }
    }
  }

  // ------------------------------------------------------------------ switching threads

  /** A running thread that does not stay comes after the first of the queue once it has given back its
      hysteresis. */
  lemma Overtaken(p: Thread, q: seq<nat>, ts: seq<Thread>, voluntary: bool, y: Time)
    requires q != [] && q[0] < |ts| && p.status.Running? && !Stays(p, q, ts, voluntary) && !voluntary
    requires p.rt.Infinite? ==> ts[q[0]].rt.Finite? && y.Infinite?
    requires p.rt.Finite? ==> y.Finite? && p.rt.t < y.t
    ensures Before(ts[q[0]], p.(status := Queued, rt := y))
  {}

  /** The thread the scheduler takes: the first of the queue, queued, and not the one that ran. */
  lemma NextThread(s: State, c: nat, x: Time, y: Time, z: Time)
    requires Inv(s) && Shape(s) && c < |s.cpus| && s.cpus[c].mode.Decide? && RuntimesOk(s, c, x, y, z)
    requires !Stays(s.threads[s.cpus[c].current].(rt := x), s.cpus[c].runq, s.threads, s.cpus[c].mode.voluntary)
    ensures var cpu := s.cpus[c];
            && cpu.runq != [] && cpu.current !in cpu.runq && s.threads[cpu.runq[0]].status.Queued? && cpu.runq[0] != cpu.current
            && (cpu.mode.voluntary ==> s.threads[cpu.current].status.Running?)
            && (s.threads[cpu.current].status.Running? && !cpu.mode.voluntary ==>
                  LowerBound(cpu.runq, s.threads, s.threads[cpu.current].(status := Queued, rt := y)) > 0)
  {
    var cpu := s.cpus[c];
    var p := cpu.current;
    assert CpuOk(s, c) && ThreadOk(s, p) && ThreadOk(s, cpu.idle);
    assert p !in cpu.runq;
    if cpu.runq != [] {
      assert ThreadOk(s, cpu.runq[0]);
      if s.threads[p].status.Running? && !cpu.mode.voluntary {
        Overtaken(s.threads[p].(rt := x), cpu.runq, s.threads, false, y);
      }
    }
  }

  /** The first thread leaves the queue for the CPU; p may join the rest. */
  ghost predicate QueueAfter(q: seq<nat>, q': seq<nat>, ts': seq<Thread>, c: nat, p: nat, joins: bool)
    requires q != []
  {
    QueueOk(q', ts', c) && forall u :: u in q' <==> (u in q && u != q[0]) || (u == p && joins)
  }

  /** What a switch from p to n does. */
  ghost predicate Switched(s: State, c: nat, s': State, x: Thread, n': Thread)
    requires c < |s.cpus| && s.cpus[c].runq != []
  {
    var p, n := s.cpus[c].current, s.cpus[c].runq[0];
    && p < |s.threads| && n < |s.threads| && |s'.cpus| == |s.cpus|
    && s'.threads == s.threads[p := x][n := n']
    && s'.cpus == s.cpus[c := s.cpus[c].(mode := User, current := n, runq := s'.cpus[c].runq)]
    && s'.marks == s.marks && !s'.panic
    && QueueAfter(s.cpus[c].runq, s'.cpus[c].runq, s'.threads, c, p, x.status.Queued?)
  }

  lemma RestOfQueue(q: seq<nat>, ts: seq<Thread>, c: nat, x: Thread)
    requires QueueOk(q, ts, c) && q != []
    ensures QueueOk(q[1..], ts[q[0] := x], c)
    ensures forall u :: u in q[1..] <==> u in q && u != q[0]
  {
    TailMembers(q);
    assert forall i :: 0 <= i < |q[1..]| ==> q[1..][i] in q[1..] && q[1..][i] == q[i + 1];
    var r, ts' := q[1..], ts[q[0] := x];
    forall i: nat ensures Leads(r, ts', i) {
      assert Leads(q, ts, i + 1);
    }
  }

  /** The rest of the queue with p put in at a place that suits it. */
  lemma JoinRest(q: seq<nat>, ts: seq<Thread>, c: nat, k: nat, p: nat, x: Thread, n': Thread)
    requires QueueOk(q, ts, c) && q != [] && p < |ts| && p !in q && x.status.Queued? && x.home == c && k <= |q| - 1
    requires forall i :: 1 <= i <= k ==> !Before(x, ts[q[i]])
    requires forall i :: k < i < |q| ==> !Before(ts[q[i]], x)
    ensures QueueAfter(q, InsertAt(q[1..], k, p), ts[p := x][q[0] := n'], c, p, true)
  {
    RestOfQueue(q, ts, c, n');
    var ts1 := ts[q[0] := n'];
    assert forall i :: 0 <= i < |q| - 1 ==> q[1..][i] in q[1..] && ts1[q[1..][i]] == ts[q[i + 1]];
    QueueInsert(q[1..], ts1, c, k, p, x);
    InsertMembers(q[1..], k, p);
    assert ts1[p := x] == ts[p := x][q[0] := n'];
  }

  lemma InsertBehind(q: seq<nat>, k: nat, p: nat)
    requires 0 < k <= |q|
    ensures InsertAt(q, k, p)[0] == q[0] && InsertAt(q, k, p)[1..] == InsertAt(q[1..], k - 1, p)
  {}

  lemma JoinLower(q: seq<nat>, ts: seq<Thread>, c: nat, p: nat, x: Thread, n': Thread)
    requires QueueOk(q, ts, c) && q != [] && p < |ts| && p !in q && x.status.Queued? && x.home == c
    requires LowerBound(q, ts, x) > 0
    ensures var r := InsertAt(q, LowerBound(q, ts, x), p);
            r[0] == q[0] && QueueAfter(q, r[1..], ts[p := x][q[0] := n'], c, p, true)
  {
    LowerFits(q, ts, c, x);
    var k := LowerBound(q, ts, x);
    InsertBehind(q, k, p);
    JoinRest(q, ts, c, k - 1, p, x, n');
  }

  lemma JoinUpper(q: seq<nat>, ts: seq<Thread>, c: nat, p: nat, x: Thread, n': Thread)
    requires QueueOk(q, ts, c) && q != [] && p < |ts| && p !in q && x.status.Queued? && x.home == c
    requires forall i :: 0 <= i < |q[1..]| ==> q[1..][i] < |ts|
    ensures QueueAfter(q, InsertAt(q[1..], UpperBound(q[1..], ts, x), p), ts[p := x][q[0] := n'], c, p, true)
  {
    RestOfQueue(q, ts, c, ts[q[0]]);
    assert ts[q[0] := ts[q[0]]] == ts;
    UpperFits(q[1..], ts, c, x);
    var k := UpperBound(q[1..], ts, x);
    assert forall i :: 1 <= i < |q| ==> q[i] == q[1..][i - 1];
    JoinRest(q, ts, c, k, p, x, n');
  }

  lemma NoneJoins(q: seq<nat>, ts: seq<Thread>, c: nat, p: nat, x: Thread, n': Thread)
    requires QueueOk(q, ts, c) && q != [] && p < |ts| && p !in q
    ensures QueueAfter(q, q[1..], ts[p := x][q[0] := n'], c, p, false)
  {
    QueueFrame(q, ts, c, p, x);
    RestOfQueue(q, ts[p := x], c, n');
  }

  lemma SwitchShape(s: State, c: nat, x: Time, y: Time, z: Time, s': State)
    requires Inv(s) && Step(s, Switch(c, x, y, z), s')
    requires !Stays(s.threads[s.cpus[c].current].(rt := x), s.cpus[c].runq, s.threads, s.cpus[c].mode.voluntary)
    ensures var cpu := s.cpus[c];
            var th := s.threads[cpu.current];
            && cpu.runq != [] && cpu.runq[0] < |s.threads|
            && Switched(s, c, s', if th.status.Running? then th.(status := Queued, rt := y) else th.(rt := y),
                        s.threads[cpu.runq[0]].(status := Running, rt := z))
  {
    NextThread(s, c, x, y, z);
    assert CpuOk(s, c);
    var cpu := s.cpus[c];
    var p, q, ts := cpu.current, cpu.runq, s.threads;
    var th := ts[p];
    var n' := ts[q[0]].(status := Running, rt := z);
    if !th.status.Running? {
      NoneJoins(q, ts, c, p, th.(rt := y), n');
    } else if cpu.mode.voluntary {
      JoinUpper(q, ts, c, p, th.(status := Queued, rt := y), n');
    } else {
      JoinLower(q, ts, c, p, th.(status := Queued, rt := y), n');
    }
  }

  lemma SwitchThread(s: State, c: nat, s': State, x: Thread, n': Thread, u: nat)
    requires Inv(s) && c < |s.cpus| && s.cpus[c].runq != [] && Switched(s, c, s', x, n')
    requires var th, n := s.threads[s.cpus[c].current], s.threads[s.cpus[c].runq[0]];
             && (x.rt.Infinite? <==> th.rt.Infinite?) && (n'.rt.Infinite? <==> n.rt.Infinite?)
             && x == th.(status := if th.status.Running? then Queued else th.status, rt := x.rt)
             && n' == n.(status := Running, rt := n'.rt)
    ensures ThreadOk(s', u)
  {
    assert ThreadOk(s, u) && CpuOk(s, c);
    assert ThreadOk(s, s.cpus[c].current) && ThreadOk(s, s.cpus[c].runq[0]);
    assert s.cpus[c].runq[0] in s.cpus[c].runq;
  }

  lemma SwitchCpu(s: State, c: nat, s': State, x: Thread, n': Thread, e: nat)
    requires Inv(s) && c < |s.cpus| && s.cpus[c].runq != [] && Switched(s, c, s', x, n')
    requires var th, n := s.threads[s.cpus[c].current], s.threads[s.cpus[c].runq[0]];
             && (x.rt.Infinite? <==> th.rt.Infinite?) && (n'.rt.Infinite? <==> n.rt.Infinite?)
             && x == th.(status := if th.status.Running? then Queued else th.status, rt := x.rt)
             && n' == n.(status := Running, rt := n'.rt)
    ensures CpuOk(s', e)
  {
    var p, n := s.cpus[c].current, s.cpus[c].runq[0];
    assert CpuOk(s, e) && CpuOk(s, c);
    if e < |s.cpus| && e != c {
      assert p !in s.cpus[e].runq && n !in s.cpus[e].runq;
      QueueFrame(s.cpus[e].runq, s.threads, e, p, x);
      QueueFrame(s.cpus[e].runq, s.threads[p := x], e, n, n');
    }
  }

  /** The current thread goes on running. */
  lemma StayKeeps(s: State, c: nat, x: Time, y: Time, z: Time, s': State)
    requires Inv(s) && Step(s, Switch(c, x, y, z), s')
    requires Stays(s.threads[s.cpus[c].current].(rt := x), s.cpus[c].runq, s.threads, s.cpus[c].mode.voluntary)
    ensures Inv(s')
  {
    var p := s.cpus[c].current;
    assert CpuOk(s, c) && ThreadOk(s, p);
    var s1 := SetThread(s, p, s.threads[p].(rt := x));
    ThreadStep(s, p, s.threads[p].(rt := x));
    forall d: nat, e: nat ensures LinkOk(s', d, e) {
      assert LinkOk(s1, d, e);
    }
    ModeStep(s1, c, s');
  }

  /** Another thread runs. */
  lemma LeaveKeeps(s: State, c: nat, s': State, x: Thread, n': Thread)
    requires Inv(s) && c < |s.cpus| && s.cpus[c].runq != [] && s.cpus[c].mode.Decide? && Switched(s, c, s', x, n')
    requires var th, n := s.threads[s.cpus[c].current], s.threads[s.cpus[c].runq[0]];
             && (x.rt.Infinite? <==> th.rt.Infinite?) && (n'.rt.Infinite? <==> n.rt.Infinite?)
             && x == th.(status := if th.status.Running? then Queued else th.status, rt := x.rt)
             && n' == n.(status := Running, rt := n'.rt)
    ensures Inv(s')
  {
    forall u: nat ensures ThreadOk(s', u) {
      SwitchThread(s, c, s', x, n', u);
    }
    forall e: nat ensures CpuOk(s', e) {
      SwitchCpu(s, c, s', x, n', e);
    }
    forall d: nat, e: nat ensures LinkOk(s', d, e) {
      SwitchLink(s, c, s', x, n', d, e);
    }
  }

  lemma SwitchLink(s: State, c: nat, s': State, x: Thread, n': Thread, d: nat, e: nat)
    requires Inv(s) && c < |s.cpus| && s.cpus[c].runq != [] && s.cpus[c].mode.Decide? && Switched(s, c, s', x, n')
    requires var th, n := s.threads[s.cpus[c].current], s.threads[s.cpus[c].runq[0]];
             && x == th.(status := if th.status.Running? then Queued else th.status, rt := x.rt)
             && n' == n.(status := Running, rt := n'.rt)
    ensures LinkOk(s', d, e)
  {
    assert LinkOk(s, d, e) && CpuOk(s, c);
  }

  lemma SwitchKeeps(s: State, c: nat, x: Time, y: Time, z: Time, s': State)
    requires Inv(s) && Step(s, Switch(c, x, y, z), s')
    ensures Inv(s')
  {
    var p := s.cpus[c].current;
    assert CpuOk(s, c) && ThreadOk(s, p);
    var th := s.threads[p];
    if Stays(th.(rt := x), s.cpus[c].runq, s.threads, s.cpus[c].mode.voluntary) {
      StayKeeps(s, c, x, y, z, s');
    } else {
      SwitchShape(s, c, x, y, z, s');
      var x' := if th.status.Running? then th.(status := Queued, rt := y) else th.(rt := y);
      LeaveKeeps(s, c, s', x', s.threads[s.cpus[c].runq[0]].(status := Running, rt := z));
    }
  }

  // ------------------------------------------------------------------ moving a thread to another CPU

  lemma BalanceShape(s: State, c: nat, d: nat, k: nat, s': State)
    requires Inv(s) && Step(s, Balance(c, d, k), s')
    ensures var t := s.cpus[c].runq[k];
            && t < |s.threads| && s.threads[t].status.Queued? && s.threads[t].home == c && s.threads[t].rt.Finite?
            && s.threads[t].pin == 0 && c != d
            && (forall i :: k < i < |s.cpus[c].runq| ==> s.cpus[c].runq[i] < |s.threads| && s.threads[s.cpus[c].runq[i]].pin > 0)
            && !s'.panic && s'.threads == s.threads[t := s.threads[t].(status := Waking, home := d, trip := Sent(c))]
            && s'.cpus[c] == s.cpus[c].(runq := s'.cpus[c].runq)
            && QueueOk(s'.cpus[c].runq, s'.threads, c)
            && (forall u :: u in s'.cpus[c].runq <==> u in s.cpus[c].runq && u != t)
  {
    var q := s.cpus[c].runq;
    var t := q[k];
    assert CpuOk(s, c) && ThreadOk(s, t);
    QueueRemove(q, s.threads, c, k, s'.threads[t]);
    WithoutMembers(q, k);
  }

  lemma BalanceThread(s: State, c: nat, d: nat, k: nat, s': State, u: nat)
    requires Inv(s) && Step(s, Balance(c, d, k), s')
    ensures ThreadOk(s', u)
  {
    BalanceShape(s, c, d, k, s');
    var t := s.cpus[c].runq[k];
    assert ThreadOk(s, u) && CpuOk(s, c) && CpuOk(s, d);
    assert t in s'.cpus[d].incoming[c];
    assert u in s.cpus[d].incoming[c] ==> u in s'.cpus[d].incoming[c];
  }

  lemma BalanceLink(s: State, c: nat, d: nat, k: nat, s': State, e: nat, f: nat)
    requires Inv(s) && Step(s, Balance(c, d, k), s')
    ensures LinkOk(s', e, f)
  {
    BalanceShape(s, c, d, k, s');
    assert LinkOk(s, e, f) && LinkOk(s, d, c) && CpuOk(s, d);
    if e == d && f == c {
      AppendMembers(s.cpus[d].incoming[c], s.cpus[c].runq[k]);
    }
  }

  lemma BalanceCpu(s: State, c: nat, d: nat, k: nat, s': State, e: nat)
    requires Inv(s) && Step(s, Balance(c, d, k), s')
    ensures CpuOk(s', e)
  {
    BalanceShape(s, c, d, k, s');
    var t := s.cpus[c].runq[k];
    assert CpuOk(s, e) && CpuOk(s, c);
    if e < |s.cpus| && e != c {
      assert t !in s.cpus[e].runq;
      QueueFrame(s.cpus[e].runq, s.threads, e, t, s'.threads[t]);
    }
  }

  lemma BalanceKeeps(s: State, c: nat, d: nat, k: nat, s': State)
    requires Inv(s) && Step(s, Balance(c, d, k), s')
    ensures Inv(s')
  {
    BalanceShape(s, c, d, k, s');
    forall u: nat ensures ThreadOk(s', u) { BalanceThread(s, c, d, k, s', u); }
    forall e: nat ensures CpuOk(s', e) { BalanceCpu(s, c, d, k, s', e); }
    forall e: nat, f: nat ensures LinkOk(s', e, f) { BalanceLink(s, c, d, k, s', e, f); }
  }

  // ------------------------------------------------------------------ all runs

  lemma StepKeeps(s: State, m: Move, s': State)
    requires Inv(s) && Step(s, m, s')
    ensures Inv(s')
  {
    match m {
      case WakeCas(t, c) => WakeCasKeeps(s, t, c, s');
      case WakePush(t) => WakePushKeeps(s, t, s');
      case SetMask(_, _) => MaskKeeps(s, m, s');
      case Prepare(_) => CodeKeeps(s, m, s');
      case StopWait(_) => CodeKeeps(s, m, s');
      case StopEnd(_) => CodeKeeps(s, m, s');
      case Enter(_, _) => MaskKeeps(s, m, s');
      case Pop(c, from, x) => PopKeeps(s, c, from, x, s');
      case NextList(_, _) => MaskKeeps(s, m, s');
      case Drained(_) => MaskKeeps(s, m, s');
      case Switch(c, x, y, z) => SwitchKeeps(s, c, x, y, z, s');
      case Balance(c, d, k) => BalanceKeeps(s, c, d, k, s');
      case Migratable(_, _) => CodeKeeps(s, m, s');
    }
  }

  /** Every CPU runs its idle thread; all other threads sleep. */
  predicate Init(s: State) {
    && Shape(s) && !s.panic && s.marks == multiset{}
    && (forall c :: 0 <= c < |s.cpus| ==>
          var cpu := s.cpus[c];
          && cpu.idle == cpu.current < |s.threads|
          && s.threads[cpu.idle] == Thread(Running, c, NotWoken, Plain, s.threads[cpu.idle].pin, 0, Infinite)
          && s.threads[cpu.idle].pin > 0
          && cpu.runq == [] && cpu.mode == User && cpu.mask == {} && |cpu.incoming| == |s.cpus|
          && forall d :: 0 <= d < |s.cpus| ==> cpu.incoming[d] == [])
    && (forall t :: 0 <= t < |s.threads| ==>
          var th := s.threads[t];
          if s.cpus[th.home].idle == t then true
          else th.status.Waiting? && th.trip.NotWoken? && th.code.Prepared? && th.rt.Finite?)
  }

  ghost predicate History(run: seq<State>, moves: seq<Move>) {
    && |run| == |moves| + 1
    && Init(run[0])
    && (forall i {:trigger moves[i]} :: 0 <= i < |moves| ==> Step(run[i], moves[i], run[i + 1]))
  }

  lemma InitKeeps(s: State)
    requires Init(s)
    ensures Inv(s)
  {
    forall t: nat ensures ThreadOk(s, t) {
      if t < |s.threads| { assert s.cpus[s.threads[t].home].idle == t || s.threads[t].status.Waiting?; }
    }
    forall c: nat ensures CpuOk(s, c) {}
    forall d: nat, c: nat ensures LinkOk(s, d, c) {}
  }

  lemma KeepsAt(run: seq<State>, moves: seq<Move>, i: nat)
    requires History(run, moves) && i < |moves| && Inv(run[i])
    ensures Inv(run[i + 1])
  {
    StepKeeps(run[i], moves[i], run[i + 1]);
  }

  /** The invariant holds in every state of every run; in particular no assertion has failed. */
  lemma {:induction false} RunKeeps(run: seq<State>, moves: seq<Move>, i: nat)
    requires History(run, moves) && i < |run|
    ensures Inv(run[i]) && !run[i].panic
  {
    if i == 0 {
      InitKeeps(run[0]);
    } else {
      RunKeeps(run, moves, i - 1);
      KeepsAt(run, moves, i - 1);
    }
  }

  // ------------------------------------------------------------------ what follows

  /** A place that can hold a thread: position i of a run queue, or of the list from CPU c to CPU d. */
  datatype Place = InQueue(c: nat, i: nat) | OnList(d: nat, c: nat, i: nat)

  predicate Holds(s: State, pl: Place, t: nat) {
    match pl
    case InQueue(c, i) => c < |s.cpus| && i < |s.cpus[c].runq| && s.cpus[c].runq[i] == t
    case OnList(d, c, i) => d < |s.cpus| && c < |s.cpus[d].incoming| && i < |s.cpus[d].incoming[c]| && s.cpus[d].incoming[c][i] == t
  }

  /** In every run, a thread is in at most one place of one queue or list. */
  lemma OnePlace(run: seq<State>, moves: seq<Move>, i: nat, t: nat, a: Place, b: Place)
    requires History(run, moves) && i < |run| && Holds(run[i], a, t) && Holds(run[i], b, t)
    ensures a == b
  {
    RunKeeps(run, moves, i);
    var s := run[i];
    PlaceOf(s, t, a);
    PlaceOf(s, t, b);
    if a.InQueue? {
      SamePlace(s.cpus[a.c].runq, a.i, b.i);
    } else {
      SamePlace(s.cpus[a.d].incoming[a.c], a.i, b.i);
    }
  }

  lemma PlaceOf(s: State, t: nat, a: Place)
    requires Inv(s) && Holds(s, a, t)
    ensures t < |s.threads| && ThreadOk(s, t)
    ensures match a
            case InQueue(c, _) => s.threads[t].status.Queued? && s.threads[t].home == c && NoRepeats(s.cpus[c].runq)
            case OnList(d, c, _) => s.threads[t].status.Waking? && s.threads[t].home == d && s.threads[t].trip == Sent(c)
                                    && NoRepeats(s.cpus[d].incoming[c])
  {
    match a {
      case InQueue(c, i) => assert CpuOk(s, c);
      case OnList(d, c, i) => assert LinkOk(s, d, c);
    }
    assert ThreadOk(s, t);
  }

  /** In every run: a queued thread is in the run queue of its own CPU, the idle thread of a CPU is
      running there or queued there, and the current thread of a CPU is not queued. */
  lemma Placed(run: seq<State>, moves: seq<Move>, i: nat, t: nat, c: nat)
    requires History(run, moves) && i < |run| && t < |run[i].threads| && c < |run[i].cpus|
    ensures var s := run[i];
            && s.threads[t].home < |s.cpus|
            && (s.threads[t].status.Queued? <==> t in s.cpus[s.threads[t].home].runq)
            && s.cpus[c].idle < |s.threads| && s.cpus[c].current < |s.threads|
            && ((s.cpus[c].current == s.cpus[c].idle && s.threads[s.cpus[c].idle].status.Running?) || s.cpus[c].idle in s.cpus[c].runq)
            && !s.threads[s.cpus[c].current].status.Queued? && s.cpus[c].current !in s.cpus[c].runq
  {
    RunKeeps(run, moves, i);
    var s := run[i];
    assert ThreadOk(s, t) && CpuOk(s, c) && CpuOk(s, s.threads[t].home) && ThreadOk(s, s.cpus[c].idle);
  }

  /** Thread a is to run rather than b, whose runtime is x: by real-time priority, and by less runtime
      between two threads of priority 0. */
  predicate Precedes(a: Thread, b: Thread) {
    a.prio > b.prio || (a.prio == 0 && b.prio == 0 && a.rt.Finite? && (b.rt.Finite? ==> a.rt.t < b.rt.t))
  }

  /** In every run, a reschedule lets the thread that ran go on exactly if it is runnable and nobody is
      queued; or it was not a yield, and nobody queued has a greater priority nor, between threads of
      priority 0, as little runtime; or it was, and everybody queued has less priority. */
  lemma StaysExactly(run: seq<State>, moves: seq<Move>, i: nat)
    requires History(run, moves) && i < |moves| && moves[i].Switch?
    ensures var s, s', c, x := run[i], run[i + 1], moves[i].c, moves[i].x;
            && c < |s.cpus| && c < |s'.cpus| && s.cpus[c].mode.Decide? && s.cpus[c].current < |s.threads| && s'.cpus[c].mode.User?
            && var q, p := s.cpus[c].runq, s.threads[s.cpus[c].current];
            && (forall u :: u in q ==> u < |s.threads|)
            && (s'.cpus[c].current == s.cpus[c].current <==>
                  && p.status.Running?
                  && (forall u :: u in q ==>
                        if s.cpus[c].mode.voluntary then s.threads[u].prio < p.prio
                        else s.threads[u].prio <= p.prio &&
                             (p.prio == 0 ==> x.Finite? && (s.threads[u].rt.Finite? ==> x.t < s.threads[u].rt.t))))
            && (s'.cpus[c].current == s.cpus[c].current ==> s'.cpus[c].runq == q)
            && s'.cpus[c].current < |s'.threads| && s'.threads[s'.cpus[c].current].status.Running?
  {
    RunKeeps(run, moves, i);
    var s, m, s' := run[i], moves[i], run[i + 1];
    assert Step(s, m, s') && CpuOk(s, m.c);
    var q, p := s.cpus[m.c].runq, s.threads[s.cpus[m.c].current].(rt := m.x);
    if q != [] {
      FirstSpeaks(s, m.c, p, s.cpus[m.c].mode.voluntary);
    }
    if !Stays(p, q, s.threads, s.cpus[m.c].mode.voluntary) {
      SwitchShape(s, m.c, m.x, m.y, m.z, s');
    }
  }

  /** Whether a thread stays depends on the first of the queue only, which speaks for all. */
  lemma FirstSpeaks(s: State, c: nat, p: Thread, voluntary: bool)
    requires Inv(s) && c < |s.cpus| && s.cpus[c].runq != [] && s.cpus[c].runq[0] < |s.threads|
    requires forall u :: u in s.cpus[c].runq ==> u < |s.threads|
    ensures Stays(p, s.cpus[c].runq, s.threads, voluntary) <==>
              && p.status.Running?
              && (forall u :: u in s.cpus[c].runq ==>
                    if voluntary then s.threads[u].prio < p.prio
                    else s.threads[u].prio <= p.prio &&
                         (p.prio == 0 ==> p.rt.Finite? && (s.threads[u].rt.Finite? ==> p.rt.t < s.threads[u].rt.t)))
  {
    assert s.cpus[c].runq[0] in s.cpus[c].runq;
    forall u | u in s.cpus[c].runq ensures !Before(s.threads[u], s.threads[s.cpus[c].runq[0]]) {
      FirstIsBest(s, c, u);
    }
  }

  /** In every run, a switch goes to a queued thread that no other queued thread precedes, and a yield
      never goes to the idle thread. */
  lemma PicksFirst(run: seq<State>, moves: seq<Move>, i: nat, u: nat)
    requires History(run, moves) && i < |moves| && moves[i].Switch?
    requires run[i].cpus[moves[i].c].current != run[i + 1].cpus[moves[i].c].current
    ensures var s, n := run[i], run[i + 1].cpus[moves[i].c].current;
            && n in s.cpus[moves[i].c].runq && n < |s.threads|
            && (u in s.cpus[moves[i].c].runq ==> u < |s.threads| && !Precedes(s.threads[u], s.threads[n]))
            && (s.cpus[moves[i].c].mode.Decide? && s.cpus[moves[i].c].mode.voluntary ==> n != s.cpus[moves[i].c].idle)
  {
    RunKeeps(run, moves, i);
    var s, m, s' := run[i], moves[i], run[i + 1];
    assert Step(s, m, s');
    if u in s.cpus[m.c].runq { FirstIsBest(s, m.c, u); }
    assert CpuOk(s, m.c);
    if !Stays(s.threads[s.cpus[m.c].current].(rt := m.x), s.cpus[m.c].runq, s.threads, s.cpus[m.c].mode.voluntary) {
      SwitchShape(s, m.c, m.x, m.y, m.z, s');
    }
  }

  /** Thread p is put into the queue q at place k, after its equals or before them. */
  ghost predicate Joins(q: seq<nat>, ts: seq<Thread>, p: nat, x: Thread, k: nat, after: bool, q': seq<nat>) {
    && k <= |q| && q' == q[..k] + [p] + q[k..]
    && (forall i :: 0 <= i < |q| ==> q[i] < |ts|)
    && (forall i :: 0 <= i < k ==> if after then !Precedes(x, ts[q[i]]) else Precedes(ts[q[i]], x))
    && (forall i :: k <= i < |q| ==> if after then Precedes(x, ts[q[i]]) else !Precedes(ts[q[i]], x))
  }

  /** In every run, a runnable thread that loses the CPU goes back to the queue, behind the one that gets
      it: before its equals if it was preempted, after them if it yielded; one that is not runnable stays out. */
  lemma RequeuedAmongEquals(run: seq<State>, moves: seq<Move>, i: nat)
    requires History(run, moves) && i < |moves| && moves[i].Switch?
    requires run[i].cpus[moves[i].c].current != run[i + 1].cpus[moves[i].c].current
    ensures var s, s', c := run[i], run[i + 1], moves[i].c;
            && s.cpus[c].mode.Decide? && s.cpus[c].runq != [] && s.cpus[c].current < |s.threads| && s.cpus[c].current < |s'.threads|
            && var p, rest := s.cpus[c].current, s.cpus[c].runq[1..];
            && s'.cpus[c].current == s.cpus[c].runq[0]
            && if s.threads[p].status.Running? then
                 && s'.threads[p].status.Queued?
                 && exists k: nat :: Joins(rest, s.threads, p, s'.threads[p], k, s.cpus[c].mode.voluntary, s'.cpus[c].runq)
               else s'.threads[p].status == s.threads[p].status && s'.cpus[c].runq == rest
  {
    RunKeeps(run, moves, i);
    var s, m, s' := run[i], moves[i], run[i + 1];
    assert Step(s, m, s') && CpuOk(s, m.c);
    var q, p := s.cpus[m.c].runq, s.cpus[m.c].current;
    assert !Stays(s.threads[p].(rt := m.x), q, s.threads, s.cpus[m.c].mode.voluntary);
    NextThread(s, m.c, m.x, m.y, m.z);
    if s.threads[p].status.Running? {
      JoinsAt(s, m.c, m.x, m.y, m.z, s');
    }
  }

  lemma JoinsAt(s: State, c: nat, x: Time, y: Time, z: Time, s': State)
    requires Inv(s) && Step(s, Switch(c, x, y, z), s') && s.threads[s.cpus[c].current].status.Running?
    requires !Stays(s.threads[s.cpus[c].current].(rt := x), s.cpus[c].runq, s.threads, s.cpus[c].mode.voluntary)
    ensures s.cpus[c].runq != [] && s.cpus[c].current < |s'.threads| && s'.threads[s.cpus[c].current].status.Queued?
    ensures exists k: nat :: Joins(s.cpus[c].runq[1..], s.threads, s.cpus[c].current, s'.threads[s.cpus[c].current], k,
                                   s.cpus[c].mode.voluntary, s'.cpus[c].runq)
  {
    NextThread(s, c, x, y, z);
    assert CpuOk(s, c);
    var q, p, ts := s.cpus[c].runq, s.cpus[c].current, s.threads;
    var th := ts[p].(status := Queued, rt := y);
    assert s'.threads[p] == th;
    if s.cpus[c].mode.voluntary {
      RestJoins(q, ts, c, p, th);
      assert s'.cpus[c].runq == InsertAt(q[1..], UpperBound(q[1..], ts, th), p);
    } else {
      LowerJoins(q, ts, c, p, th);
      assert s'.cpus[c].runq == InsertAt(q, LowerBound(q, ts, th), p)[1..];
    }
  }

  lemma RestJoins(q: seq<nat>, ts: seq<Thread>, c: nat, t: nat, x: Thread)
    requires QueueOk(q, ts, c) && q != []
    ensures forall i :: 0 <= i < |q[1..]| ==> q[1..][i] < |ts|
    ensures Joins(q[1..], ts, t, x, UpperBound(q[1..], ts, x), true, InsertAt(q[1..], UpperBound(q[1..], ts, x), t))
  {
    RestOfQueue(q, ts, c, ts[q[0]]);
    assert ts[q[0] := ts[q[0]]] == ts;
    UpperJoins(q[1..], ts, c, t, x);
  }

  lemma LowerJoins(q: seq<nat>, ts: seq<Thread>, c: nat, t: nat, x: Thread)
    requires QueueOk(q, ts, c) && q != [] && LowerBound(q, ts, x) > 0
    ensures InsertAt(q, LowerBound(q, ts, x), t)[0] == q[0]
    ensures Joins(q[1..], ts, t, x, LowerBound(q, ts, x) - 1, false, InsertAt(q, LowerBound(q, ts, x), t)[1..])
  {
    LowerFits(q, ts, c, x);
    assert forall i :: 0 <= i < |q[1..]| ==> q[1..][i] == q[i + 1];
  }

  lemma UpperJoins(q: seq<nat>, ts: seq<Thread>, c: nat, t: nat, x: Thread)
    requires QueueOk(q, ts, c)
    ensures Joins(q, ts, t, x, UpperBound(q, ts, x), true, InsertAt(q, UpperBound(q, ts, x), t))
  {
    UpperFits(q, ts, c, x);
    var k := UpperBound(q, ts, x);
    forall i | k <= i < |q| ensures Precedes(x, ts[q[i]]) {
      assert Leads(q, ts, k);
      BeforeTrans(x, ts[q[k]], ts[q[i]]);
    }
  }

  /** In every run, a thread that a CPU finds on an incoming list belongs to it and leaves the list; if it is
      the current thread it goes on running, and else it joins the queue, with its runtime brought up to date,
      after its equals. */
  lemma WokenRuns(run: seq<State>, moves: seq<Move>, i: nat)
    requires History(run, moves) && i < |moves| && moves[i].Pop?
    ensures var s, s', c, f := run[i], run[i + 1], moves[i].c, moves[i].from;
            && c < |s.cpus| && c < |s'.cpus| && f < |s.cpus[c].incoming| && s.cpus[c].incoming[f] != []
            && f < |s'.cpus[c].incoming| && s'.cpus[c].incoming[f] == s.cpus[c].incoming[f][1..]
            && var t := s.cpus[c].incoming[f][0];
            && t < |s.threads| && t < |s'.threads| && s.threads[t].status.Waking? && s.threads[t].home == c
            && if t == s.cpus[c].current then s'.threads[t].status.Running? && s'.cpus[c].runq == s.cpus[c].runq
               else s'.threads[t].status.Queued? && s'.threads[t].rt == (if s.threads[t].rt.Finite? then moves[i].x else Infinite) &&
                    exists k: nat :: Joins(s.cpus[c].runq, s.threads, t, s'.threads[t], k, true, s'.cpus[c].runq)
  {
    RunKeeps(run, moves, i);
    var s, m, s' := run[i], moves[i], run[i + 1];
    assert Step(s, m, s') && CpuOk(s, m.c);
    PopFinds(s, m.c, m.from);
    var t := s.cpus[m.c].incoming[m.from][0];
    if t != s.cpus[m.c].current {
      UpperJoins(s.cpus[m.c].runq, s.threads, m.c, t, s'.threads[t]);
    }
  }

  /** In every run, nothing stands in the way of a wakeup: a waiting thread can be woken from any CPU; the
      waker can put it on the list and set the mark; a thread that was put on a list is on it. */
  lemma WakeGoesOn(run: seq<State>, moves: seq<Move>, i: nat, t: nat, c: nat, d: nat)
    requires History(run, moves) && i < |run| && t < |run[i].threads| && c < |run[i].cpus|
    ensures var s, th := run[i], run[i].threads[t];
            && (th.status.Waiting? ==> exists s' :: Step(s, WakeCas(t, c), s') && |s'.threads| == |s.threads| && s'.threads[t].status.Waking?)
            && (th.status.Waking? && th.trip.Held? ==> exists s' :: Step(s, WakePush(t), s'))
            && (th.status.Waking? && !th.trip.Held? ==>
                  th.trip.Sent? && th.home < |s.cpus| && th.trip.cpu < |s.cpus[th.home].incoming| && t in s.cpus[th.home].incoming[th.trip.cpu])
            && ((d, c) in s.marks && d < |s.cpus| ==>
                  exists s' :: Step(s, SetMask(d, c), s') && |s'.cpus| == |s.cpus| && c in s'.cpus[d].mask)
  {
    RunKeeps(run, moves, i);
    var s := run[i];
    ShapeHolds(s);
    assert ThreadOk(s, t);
    var th := s.threads[t];
    if th.status.Waiting? {
      assert Step(s, WakeCas(t, c), SetThread(s, t, th.(status := Waking, trip := Held(c))));
    } else if th.trip.Held? {
      assert Step(s, WakePush(t), Push(SetThread(s, t, th.(trip := Sent(th.trip.cpu))), th.home, th.trip.cpu, t));
    }
    if (d, c) in s.marks && d < |s.cpus| {
      assert Step(s, SetMask(d, c), SetCpu(s, d, s.cpus[d].(mask := s.cpus[d].mask + {c})).(marks := s.marks - multiset{(d, c)}));
    }
  }

  /** In every run, a thread in thread code that is not the idle thread can begin to wait; one that began can
      stop waiting, and then runs if nobody has woken it, and else stays until its wakeup has been taken off
      the list; a yield is possible exactly if it has somewhere to go. */
  lemma WaitCodeGoesOn(run: seq<State>, moves: seq<Move>, i: nat, c: nat)
    requires History(run, moves) && i < |run| && c < |run[i].cpus| && run[i].cpus[c].mode.User?
    ensures var s, t := run[i], run[i].cpus[c].current;
            && t < |s.threads|
            && (t != s.cpus[c].idle && s.threads[t].code.Plain? ==>
                  exists s' :: Step(s, Prepare(c), s') && |s'.threads| == |s.threads| && s'.threads[t].status.Waiting?)
            && (s.threads[t].code.Prepared? ==>
                  exists s' :: Step(s, StopWait(c), s') && |s'.threads| == |s.threads| &&
                               if s.threads[t].status.Waiting? then s'.threads[t].status.Running? && s'.threads[t].code.Plain?
                               else s'.threads[t].code.Stopping? && s'.threads[t].status == s.threads[t].status)
            && (s.threads[t].code.Stopping? ==>
                  ((exists s' :: Step(s, StopEnd(c), s')) <==> !s.threads[t].status.Waking?))
            && (s.threads[t].code.Plain? && t != s.cpus[c].idle ==>
                  ((exists s' :: Step(s, Enter(c, Reschedule(true)), s')) <==> s.cpus[c].runq != [] && s.cpus[c].runq[0] != s.cpus[c].idle))
  {
    RunKeeps(run, moves, i);
    var s, t := run[i], run[i].cpus[c].current;
    ShapeHolds(s);
    assert CpuOk(s, c) && ThreadOk(s, t);
    var th := s.threads[t];
    if th.code.Prepared? {
      assert Step(s, StopWait(c), SetThread(s, t, if th.status.Waiting? then th.(status := Running, code := Plain)
                                                  else th.(code := Stopping)));
    } else if th.code.Stopping? {
      assert !th.status.Waking? ==> Step(s, StopEnd(c), SetThread(s, t, th.(code := Plain)));
    } else if t != s.cpus[c].idle {
      assert Step(s, Prepare(c), SetThread(s, t, th.(status := Waiting, code := Prepared)));
      assert s.cpus[c].runq != [] && s.cpus[c].runq[0] != s.cpus[c].idle ==>
          Step(s, Enter(c, Reschedule(true)), SetCpu(s, c, s.cpus[c].(mode := Drain(s.cpus[c].mask, Reschedule(true)), mask := {})));
    }
  }

  lemma ShapeHolds(s: State)
    requires Inv(s)
    ensures Shape(s)
  {
    forall c | 0 <= c < |s.cpus|
      ensures && |s.cpus[c].incoming| == |s.cpus| && s.cpus[c].current < |s.threads|
              && forall i :: 0 <= i < |s.cpus[c].runq| ==> s.cpus[c].runq[i] < |s.threads| {
      assert CpuOk(s, c);
    }
    forall t | 0 <= t < |s.threads| ensures s.threads[t].home < |s.cpus| {
      assert ThreadOk(s, t);
    }
  }

  /** In every run, a CPU can always reschedule, takes every list that is marked, goes through the lists
      until it has none left, then decides if it is to reschedule, and comes back to thread code. */
  lemma CpuGoesOn(run: seq<State>, moves: seq<Move>, i: nat, c: nat, f: nat, x: Time, y: Time, z: Time)
    requires History(run, moves) && i < |run| && c < |run[i].cpus|
    ensures var s, cpu := run[i], run[i].cpus[c];
            && (cpu.mode.User? ==> exists s' :: Step(s, Enter(c, Reschedule(false)), s') && |s'.cpus| == |s.cpus| &&
                                                s'.cpus[c].mode == Drain(cpu.mask, Reschedule(false)))
            && (cpu.mode.Drain? && f in cpu.mode.todo && x.Finite? && f < |cpu.incoming| && cpu.incoming[f] != [] ==>
                  exists s' :: Step(s, Pop(c, f, x), s'))
            && (cpu.mode.Drain? && f in cpu.mode.todo && (f < |cpu.incoming| ==> cpu.incoming[f] == []) ==>
                  exists s' :: Step(s, NextList(c, f), s') && |s'.cpus| == |s.cpus| &&
                               s'.cpus[c].mode == Drain(cpu.mode.todo - {f}, cpu.mode.why))
            && (cpu.mode.Drain? && cpu.mode.todo == {} ==>
                  exists s' :: Step(s, Drained(c), s') && |s'.cpus| == |s.cpus| &&
                               s'.cpus[c].mode == if cpu.mode.why.Poll? then User else Decide(cpu.mode.why.voluntary))
            && (cpu.mode.Decide? && Shape(s) && RuntimesOk(s, c, x, y, z) ==> exists s' :: Step(s, Switch(c, x, y, z), s'))
  {
    RunKeeps(run, moves, i);
    var s, cpu := run[i], run[i].cpus[c];
    ShapeHolds(s);
    assert CpuOk(s, c) && LinkOk(s, c, f);
    if cpu.mode.User? {
      assert Step(s, Enter(c, Reschedule(false)), SetCpu(s, c, cpu.(mode := Drain(cpu.mask, Reschedule(false)), mask := {})));
    } else if cpu.mode.Decide? {
      assert RuntimesOk(s, c, x, y, z) ==> Step(s, Switch(c, x, y, z), DoSwitch(s, c, x, y, z));
    } else if cpu.mode.todo == {} {
      assert Step(s, Drained(c), SetCpu(s, c, cpu.(mode := if cpu.mode.why.Poll? then User else Decide(cpu.mode.why.voluntary))));
    } else if f < |cpu.incoming| && cpu.incoming[f] != [] {
      assert f in cpu.mode.todo && x.Finite? ==> Step(s, Pop(c, f, x), DoPop(s, c, f, x));
    } else {
      assert f in cpu.mode.todo ==> Step(s, NextList(c, f), SetCpu(s, c, cpu.(mode := Drain(cpu.mode.todo - {f}, cpu.mode.why))));
    }
  }

  lemma FirstIsBest(s: State, c: nat, u: nat)
    requires Inv(s) && c < |s.cpus| && u in s.cpus[c].runq
    ensures s.cpus[c].runq[0] < |s.threads| && u < |s.threads| && !Before(s.threads[u], s.threads[s.cpus[c].runq[0]])
  {
    assert CpuOk(s, c);
    var q := s.cpus[c].runq;
    var j :| 0 <= j < |q| && q[j] == u;
    assert Leads(q, s.threads, 0);
    BeforeTrans(s.threads[u], s.threads[u], s.threads[u]);
  }

  /** In every run, a thread on an incoming list will be seen by its CPU: the mask bit is set, a waker
      is about to set it, or the CPU is emptying that list. */
  lemma NoLostWakeup(run: seq<State>, moves: seq<Move>, i: nat, d: nat, c: nat)
    requires History(run, moves) && i < |run| && d < |run[i].cpus| && c < |run[i].cpus[d].incoming|
    ensures run[i].cpus[d].incoming[c] != [] ==>
              || c in run[i].cpus[d].mask || (d, c) in run[i].marks
              || (run[i].cpus[d].mode.Drain? && c in run[i].cpus[d].mode.todo)
  {
    RunKeeps(run, moves, i);
    assert LinkOk(run[i], d, c);
  }
}

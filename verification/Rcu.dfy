/** The RCU implementation of core/rcu.cc as a step machine.

    Every CPU has a double-buffered queue of deferred callbacks and a quiescent
    state thread; a step of that thread is one atomic operation, or a section
    that runs under the preemption lock.  Readers run with preemption disabled,
    so the thread of a CPU moves only while no reader is active on that CPU.
    The logs `deferred` and `ran` and the reader snapshots record the history.
 */
module ReadCopyUpdate {

  import opened Wrappers

  /** Capacity of one callback buffer. */
  const CAPACITY: nat := 2000

  /** One reader section: the CPU it runs on and a number of its own. */
  datatype Reader = Reader(cpu: nat, id: nat)

  /** A slot of a buffer.  `flush`: the rcu_flush() call whose semaphore it posts, if any. */
  datatype Callback = Null | Callback(id: nat, flush: Option<nat>)

  datatype Buffer = Buffer(cells: seq<Callback>, n: nat)

  /** Where a quiescent state thread is. */
  datatype Pc =
    | Top                              // swap the buffers if there is something to clean
    | Alloc                            // next_generation.fetch_add(1) + 1
    | Request(g: nat, j: nat)          // for cpu j: _request.load()
    | Raise(g: nat, j: nat, r: nat)    // generation > r && compare_exchange(r, generation)
    | SetOwn(g: nat)                   // _generation.store(g)
    | Wait(g: nat)                     // wait_until: _generation < _request ?
    | Scan(g: nat, k: nat)             // ... or check(g) of cpu k
    | Recheck(g: nat, all: bool)       // r = _request.load(); all: every check(g) was true
    | Serve(g: nat, r: nat)            // set_generation(r)
    | Take(g: nat)                     // ncallbacks[!buf] = 0
    | Run(g: nat, i: nat, n: nat)      // callbacks[i](); callbacks[i] = nullptr
    | Sleep                            // nothing to clean: wait for a request or a callback
    | ServeIdle(r: nat)                // set_generation(r)

  datatype Cpu = Cpu(pc: Pc, buf: nat, bufs: seq<Buffer>, flip: set<Reader>,
                     deferred: seq<Callback>, ran: seq<Callback>)

  /** One call of rcu_flush(): how many callbacks each CPU had been given when it began,
      where its own callback went on each CPU so far, and its semaphore. */
  datatype Flush = Flush(start: seq<nat>, mark: seq<nat>, posts: nat, returned: bool)

  datatype State = State(cpus: seq<Cpu>, gen: seq<nat>, req: seq<nat>, next: nat,
                         active: set<Reader>, nextReader: nat, flushes: seq<Flush>)

  // ------------------------------------------------------------------ steps

  predicate WellFormed(s: State) {
    |s.gen| == |s.cpus| == |s.req|
  }

  /** No reader section is active on CPU t: its threads can run. */
  ghost predicate Quiet(s: State, t: nat) {
    forall r :: r in s.active ==> r.cpu != t
  }

  /** The section under the preemption lock: switch buffers when the current one holds something. */
  function FlipBuffers(c: Cpu, active: set<Reader>): Cpu
    requires c.buf < 2 == |c.bufs|
  {
    if c.bufs[c.buf].n > 0 then c.(pc := Alloc, buf := 1 - c.buf, flip := active)
    else c.(pc := Sleep)
  }

  function TakeBuffer(c: Cpu): Cpu
    requires c.buf < 2 == |c.bufs| && c.pc.Take?
  {
    var b := 1 - c.buf;
    c.(pc := Run(c.pc.g, 0, c.bufs[b].n), bufs := c.bufs[b := c.bufs[b].(n := 0)])
  }

  /** One callback runs and its slot is cleared, or the loop ends. */
  function RunCallback(c: Cpu): Cpu
    requires c.buf < 2 == |c.bufs| && c.pc.Run?
  {
    var b := 1 - c.buf;
    var cells := c.bufs[b].cells;
    if c.pc.i < c.pc.n && c.pc.i < |cells| then
      c.(pc := Run(c.pc.g, c.pc.i + 1, c.pc.n), ran := c.ran + [cells[c.pc.i]],
         bufs := c.bufs[b := c.bufs[b].(cells := cells[c.pc.i := Null])])
    else c.(pc := Top)
  }

  /** rcu_defer(): store at callbacks[buf][ncallbacks[buf]++]. */
  function Append(c: Cpu, cb: Callback): Cpu
    requires c.buf < 2 == |c.bufs| && c.bufs[c.buf].n < |c.bufs[c.buf].cells|
  {
    var b := c.bufs[c.buf];
    c.(bufs := c.bufs[c.buf := Buffer(b.cells[b.n := cb], b.n + 1)], deferred := c.deferred + [cb])
  }

  /** The semaphore of flush f is posted when its callback runs. */
  function Post(flushes: seq<Flush>, cb: Callback): seq<Flush> {
    if cb.Callback? && cb.flush.Some? && cb.flush.value < |flushes| then
      var f := cb.flush.value;
      flushes[f := flushes[f].(posts := flushes[f].posts + 1)]
    else flushes
  }

  /** Steps of the thread of CPU t on its own buffers. */
  ghost predicate BufferStep(s: State, t: nat, s': State)
    requires WellFormed(s) && t < |s.cpus|
  {
    var c := s.cpus[t];
    && c.buf < 2 == |c.bufs|
    && (match c.pc
        case Top => s' == s.(cpus := s.cpus[t := FlipBuffers(c, s.active)])
        case Take(_) => s' == s.(cpus := s.cpus[t := TakeBuffer(c)])
        case Run(_, i, n) =>
          s' == s.(cpus := s.cpus[t := RunCallback(c)],
                   flushes := if i < n && i < |c.bufs[1 - c.buf].cells|
                              then Post(s.flushes, c.bufs[1 - c.buf].cells[i]) else s.flushes)
        case _ => false)
  }

  function Goto(s: State, t: nat, p: Pc): State
    requires t < |s.cpus|
  {
    s.(cpus := s.cpus[t := s.cpus[t].(pc := p)])
  }

  /** Steps of the thread of CPU t in the generation protocol; None when it is asleep. */
  function Protocol(s: State, t: nat): Option<State>
    requires WellFormed(s) && t < |s.cpus|
  {
    var c := s.cpus[t];
    match c.pc
    case Alloc => Some(Goto(s.(next := s.next + 1), t, Request(s.next + 1, 0)))
    case Request(g, j) =>
      if j >= |s.cpus| then Some(Goto(s, t, SetOwn(g)))
      else if j == t then Some(Goto(s, t, Request(g, j + 1)))
      else Some(Goto(s, t, Raise(g, j, s.req[j])))
    case Raise(g, j, r) =>
      if j >= |s.cpus| || g <= r then Some(Goto(s, t, Request(g, j + 1)))
      else if s.req[j] == r then Some(Goto(s.(req := s.req[j := g]), t, Request(g, j + 1)))
      else Some(Goto(s, t, Raise(g, j, s.req[j])))
    case SetOwn(g) => Some(Goto(s.(gen := s.gen[t := g]), t, Wait(g)))
    case Wait(g) => Some(Goto(s, t, if s.gen[t] < s.req[t] then Recheck(g, false) else Scan(g, 0)))
    case Scan(g, k) =>
      if k >= |s.cpus| then Some(Goto(s, t, Recheck(g, true)))
      else Some(Goto(s, t, if s.gen[k] >= g then Scan(g, k + 1) else Wait(g)))
    case Recheck(g, _) => Some(Goto(s, t, if s.gen[t] < s.req[t] then Serve(g, s.req[t]) else Take(g)))
    case Serve(g, r) => Some(Goto(s.(gen := s.gen[t := r]), t, Wait(g)))
    case Sleep =>
      if s.gen[t] < s.req[t] then Some(Goto(s, t, ServeIdle(s.req[t])))
      else if c.buf < |c.bufs| && c.bufs[c.buf].n > 0 then Some(Goto(s, t, Top))
      else None
    case ServeIdle(r) => Some(Goto(s.(gen := s.gen[t := r]), t, Top))
    case _ => None
  }

  /** rcu_defer() on CPU t; while the buffer is full the caller waits. */
  ghost predicate Defer(s: State, t: nat, id: nat, s': State)
    requires WellFormed(s) && t < |s.cpus|
  {
    var c := s.cpus[t];
    && c.buf < 2 == |c.bufs| && c.bufs[c.buf].n < |c.bufs[c.buf].cells|
    && s' == s.(cpus := s.cpus[t := Append(c, Callback(id, None))])
  }

  function Lengths(cpus: seq<Cpu>): seq<nat> {
    seq(|cpus|, i requires 0 <= i < |cpus| => |cpus[i].deferred|)
  }

  /** rcu_flush(): defers one posting callback on each CPU in turn, then waits for all posts. */
  ghost predicate FlushStep(s: State, f: nat, s': State)
    requires WellFormed(s)
  {
    if f >= |s.flushes| then
      s' == s.(flushes := s.flushes + [Flush(Lengths(s.cpus), [], 0, false)])
    else
      var fl := s.flushes[f];
      var t := |fl.mark|;
      if t < |s.cpus| then
        var c := s.cpus[t];
        && c.buf < 2 == |c.bufs| && c.bufs[c.buf].n < |c.bufs[c.buf].cells|
        && s' == s.(cpus := s.cpus[t := Append(c, Callback(0, Some(f)))],
                    flushes := s.flushes[f := fl.(mark := fl.mark + [|c.deferred|])])
      else
        fl.posts >= |s.cpus| && s' == s.(flushes := s.flushes[f := fl.(returned := true)])
  }

  /** What happens next: a quiescent state thread, a client, or a reader moves. */
  datatype Move = Thread(t: nat) | Client(t: nat, id: nat) | Flusher(f: nat) | Enter(cpu: nat) | Leave(r: Reader)

  ghost predicate Step(s: State, m: Move, s': State) {
    && WellFormed(s)
    && match m
       case Thread(t) =>
         t < |s.cpus| && Quiet(s, t) && (BufferStep(s, t, s') || Protocol(s, t) == Some(s'))
       case Client(t, id) => t < |s.cpus| && Defer(s, t, id, s')
       case Flusher(f) => FlushStep(s, f, s')
       case Enter(cpu) =>
         cpu < |s.cpus| && s' == s.(active := s.active + {Reader(cpu, s.nextReader)}, nextReader := s.nextReader + 1)
       case Leave(r) => s' == s.(active := s.active - {r})
  }

  function Empty(): Buffer {
    Buffer(seq(CAPACITY, _ => Null), 0)
  }

  predicate Init(s: State) {
    && WellFormed(s)
    && s.next == 0 && s.active == {} && s.flushes == []
    && (forall t :: 0 <= t < |s.cpus| ==> s.gen[t] == 0 && s.req[t] == 0)
    && (forall t :: 0 <= t < |s.cpus| ==> s.cpus[t] == Cpu(Top, 0, [Empty(), Empty()], {}, [], []))
  }

  ghost predicate History(run: seq<State>, moves: seq<Move>) {
    && |run| == |moves| + 1
    && Init(run[0])
    && (forall i {:trigger moves[i]} :: 0 <= i < |moves| ==> Step(run[i], moves[i], run[i + 1]))
  }

  // ------------------------------------------------------------------ invariant

  /** Between the swap of the buffers and the end of the callback loop. */
  predicate Cleaning(p: Pc) {
    !(p.Top? || p.Sleep? || p.ServeIdle?)
  }

  /** The thread has a generation number of its own to reach. */
  predicate HasGen(p: Pc) {
    Cleaning(p) && !p.Alloc?
  }

  /** Exactly the slots lo..hi hold a callback. */
  predicate Filled(b: Buffer, lo: nat, hi: nat) {
    && |b.cells| == CAPACITY && lo <= hi <= CAPACITY
    && (forall k :: 0 <= k < CAPACITY ==> (b.cells[k] != Null <==> lo <= k < hi))
  }

  /** The callbacks being cleaned that have not run yet. */
  function Rest(c: Cpu): seq<Callback>
    requires c.buf < 2 == |c.bufs|
  {
    var b := c.bufs[1 - c.buf];
    if c.pc.Run? then
      if c.pc.i <= c.pc.n <= |b.cells| then b.cells[c.pc.i..c.pc.n] else []
    else if b.n <= |b.cells| then b.cells[..b.n] else []
  }

  function Current(c: Cpu): seq<Callback>
    requires c.buf < 2 == |c.bufs|
  {
    var b := c.bufs[c.buf];
    if b.n <= |b.cells| then b.cells[..b.n] else []
  }

  /** Conservation: every callback handed in is run, waiting to run, or still in the current
      buffer, once and in order; and no slot in use is ever the next one to be written. */
  predicate BufferOk(c: Cpu) {
    && c.buf < 2 == |c.bufs|
    && Filled(c.bufs[c.buf], 0, c.bufs[c.buf].n)
    && (if c.pc.Run?
        then c.pc.i <= c.pc.n && c.bufs[1 - c.buf].n == 0 && Filled(c.bufs[1 - c.buf], c.pc.i, c.pc.n)
        else Filled(c.bufs[1 - c.buf], 0, c.bufs[1 - c.buf].n) && (!Cleaning(c.pc) ==> c.bufs[1 - c.buf].n == 0))
    && c.deferred == c.ran + Rest(c) + Current(c)
    && (forall k :: 0 <= k < |c.deferred| ==> c.deferred[k].Callback?)
  }

  ghost predicate BuffersOk(s: State) {
    forall t :: 0 <= t < |s.cpus| ==> BufferOk(s.cpus[t])
  }

  predicate GenLocal(p: Pc, gen: nat, req: nat, next: nat) {
    && gen <= next && req <= next
    && (HasGen(p) ==> p.g <= next)
    && (p.Request? || p.Raise? || p.SetOwn? ==> gen < p.g)
    && (p.Recheck? && !p.all ==> gen < req)
    && (p.Serve? || p.ServeIdle? ==> gen < p.r <= next)
  }

  ghost predicate GenOk(s: State)
    requires WellFormed(s)
  {
    forall t :: 0 <= t < |s.cpus| ==> GenLocal(s.cpus[t].pc, s.gen[t], s.req[t], s.next)
  }

  /** The CPUs below this one have been seen at the thread's generation. */
  function Reached(p: Pc, n: nat): nat {
    if p.Scan? then p.k else if p.Take? || p.Run? || (p.Recheck? && p.all) then n else 0
  }

  ghost predicate ReachOk(s: State)
    requires WellFormed(s)
  {
    forall t, k :: 0 <= t < |s.cpus| && 0 <= k < |s.gen| && k < Reached(s.cpus[t].pc, |s.cpus|) ==>
      HasGen(s.cpus[t].pc) && s.gen[k] >= s.cpus[t].pc.g
  }

  /** A reader section that was active at the swap and still is, is on a CPU that has not
      passed the thread's generation yet. */
  ghost predicate GraceOk(s: State)
    requires WellFormed(s)
  {
    && (forall r :: r in s.active ==> r.cpu < |s.gen| && r.id < s.nextReader)
    && (forall t, r :: 0 <= t < |s.cpus| && HasGen(s.cpus[t].pc) && r in s.cpus[t].flip && r in s.active ==>
          s.gen[r.cpu] < s.cpus[t].pc.g)
    && (forall t, r :: 0 <= t < |s.cpus| && r in s.cpus[t].flip ==> r.id < s.nextReader)
  }

  // -------------------------------------------------------- buffers, one CPU at a time

  lemma FlipKeeps(c: Cpu, active: set<Reader>)
    requires BufferOk(c) && c.pc.Top?
    ensures BufferOk(FlipBuffers(c, active))
    ensures Rest(FlipBuffers(c, active)) == Current(c) && Current(FlipBuffers(c, active)) == []
    ensures FlipBuffers(c, active).pc == if Current(c) == [] then Sleep else Alloc
  {
    assert Rest(c) == [];
    var c' := FlipBuffers(c, active);
    if c.bufs[c.buf].n > 0 {
      assert Current(c') == [] && Rest(c') == Current(c);
    }
  }

  lemma TakeKeeps(c: Cpu)
    requires BufferOk(c) && c.pc.Take?
    ensures BufferOk(TakeBuffer(c)) && Rest(TakeBuffer(c)) == Rest(c)
  {
    assert Current(TakeBuffer(c)) == Current(c);
  }

  lemma RunKeeps(c: Cpu)
    requires BufferOk(c) && c.pc.Run?
    ensures BufferOk(RunCallback(c))
    ensures c.pc.i < c.pc.n ==> RunCallback(c).ran == c.ran + [Rest(c)[0]] && Rest(RunCallback(c)) == Rest(c)[1..]
    ensures c.pc.i == c.pc.n ==> Rest(c) == [] == Rest(RunCallback(c))
  {
    var c' := RunCallback(c);
    assert Current(c') == Current(c);
    if c.pc.i < c.pc.n {
      var cells := c.bufs[1 - c.buf].cells;
      TakeCell(cells, c.pc.i, c.pc.n);
      MoveOne(c.ran, Rest(c), Current(c));
      assert Rest(c') == Rest(c)[1..];
    } else {
      assert Rest(c) == [] == Rest(c');
    }
  }

  lemma TakeCell(cells: seq<Callback>, i: nat, n: nat)
    requires i < n <= |cells|
    ensures cells[i..n] == [cells[i]] + cells[i := Null][i + 1..n]
  {}

  lemma MoveOne(a: seq<Callback>, b: seq<Callback>, c: seq<Callback>)
    requires b != []
    ensures a + b + c == (a + [b[0]]) + b[1..] + c
  {
    assert b == [b[0]] + b[1..];
  }

  lemma AppendKeeps(c: Cpu, cb: Callback)
    requires BufferOk(c) && c.bufs[c.buf].n < CAPACITY && cb.Callback?
    ensures BufferOk(Append(c, cb)) && Rest(Append(c, cb)) == Rest(c)
    ensures Append(c, cb).deferred == c.deferred + [cb] && Current(Append(c, cb)) == Current(c) + [cb]
    ensures c.bufs[c.buf].cells[c.bufs[c.buf].n] == Null
  {
    var c' := Append(c, cb);
    assert Current(c') == Current(c) + [cb];
    assert c'.deferred == c.ran + Rest(c) + (Current(c) + [cb]);
  }

  /** Steps of the generation protocol leave buffers and logs alone. */
  lemma GotoKeeps(c: Cpu, p: Pc)
    requires BufferOk(c) && !c.pc.Run? && !p.Run? && (Cleaning(p) || !Cleaning(c.pc))
    ensures BufferOk(c.(pc := p)) && Rest(c.(pc := p)) == Rest(c)
  {
    assert Current(c.(pc := p)) == Current(c);
  }

  // -------------------------------------------------------- steps of the generation protocol

  lemma ProtocolShape(s: State, t: nat, s': State)
    requires WellFormed(s) && t < |s.cpus| && Protocol(s, t) == Some(s')
    ensures s'.cpus == s.cpus[t := s.cpus[t].(pc := s'.cpus[t].pc)] && WellFormed(s')
    ensures !s.cpus[t].pc.Run? && !s'.cpus[t].pc.Run? && !s'.cpus[t].pc.Alloc?
    ensures Cleaning(s'.cpus[t].pc) <==> Cleaning(s.cpus[t].pc)
    ensures s'.active == s.active && s'.nextReader == s.nextReader && s'.flushes == s.flushes
    ensures s'.next == s.next || (s.cpus[t].pc.Alloc? && s'.next == s.next + 1)
  {}

  /** What a step does to the generation counters: only the thread's own, and only upwards. */
  lemma ProtocolCounters(s: State, t: nat, s': State)
    requires WellFormed(s) && t < |s.cpus| && Protocol(s, t) == Some(s')
    requires GenLocal(s.cpus[t].pc, s.gen[t], s.req[t], s.next)
    ensures WellFormed(s') && GenLocal(s'.cpus[t].pc, s'.gen[t], s'.req[t], s'.next)
    ensures s.gen[t] <= s'.gen[t] && s'.gen == s.gen[t := s'.gen[t]]
    ensures forall k :: 0 <= k < |s.req| ==> s'.req[k] == s.req[k] || s.req[k] < s'.req[k] <= s'.next
  {
    ProtocolRequests(s, t, s');
  }

  lemma ProtocolRequests(s: State, t: nat, s': State)
    requires WellFormed(s) && t < |s.cpus| && Protocol(s, t) == Some(s')
    requires GenLocal(s.cpus[t].pc, s.gen[t], s.req[t], s.next)
    ensures |s'.req| == |s.req| && s.next <= s'.next
    ensures forall k :: 0 <= k < |s.req| ==> s'.req[k] == s.req[k] || s.req[k] < s'.req[k] <= s'.next
  {}

  lemma ProtocolGen(s: State, t: nat, s': State)
    requires WellFormed(s) && t < |s.cpus| && Protocol(s, t) == Some(s') && GenOk(s)
    ensures WellFormed(s') && GenOk(s')
    ensures s.gen[t] <= s'.gen[t] && s'.gen == s.gen[t := s'.gen[t]]
  {
    ProtocolShape(s, t, s');
    ProtocolCounters(s, t, s');
  }

  lemma ReachSelf(s: State, t: nat, s': State, k: nat)
    requires WellFormed(s) && t < |s.cpus| && Protocol(s, t) == Some(s') && k < |s.cpus|
    requires |s'.cpus| == |s.cpus| && k < Reached(s'.cpus[t].pc, |s.cpus|)
    requires GenLocal(s.cpus[t].pc, s.gen[t], s.req[t], s.next)
    requires k < Reached(s.cpus[t].pc, |s.cpus|) ==> HasGen(s.cpus[t].pc) && s.gen[k] >= s.cpus[t].pc.g
    ensures HasGen(s'.cpus[t].pc) && s.gen[k] >= s'.cpus[t].pc.g
  {}

  lemma ProtocolReach(s: State, t: nat, s': State)
    requires WellFormed(s) && t < |s.cpus| && Protocol(s, t) == Some(s') && GenOk(s) && ReachOk(s)
    ensures WellFormed(s') && ReachOk(s')
  {
    ProtocolShape(s, t, s');
    ProtocolGen(s, t, s');
    var n := |s.cpus|;
    forall u, k | 0 <= u < n && 0 <= k < n && k < Reached(s'.cpus[u].pc, n)
      ensures HasGen(s'.cpus[u].pc) && s'.gen[k] >= s'.cpus[u].pc.g
    {
      assert s'.gen[k] >= s.gen[k];
      if u == t {
        ReachSelf(s, t, s', k);
      } else {
        assert k < Reached(s.cpus[u].pc, n);
      }
    }
  }

  lemma ProtocolGrace(s: State, t: nat, s': State)
    requires WellFormed(s) && t < |s.cpus| && Protocol(s, t) == Some(s') && Quiet(s, t) && GenOk(s) && GraceOk(s)
    ensures WellFormed(s') && GraceOk(s')
  {
    ProtocolShape(s, t, s');
    ProtocolGen(s, t, s');
    forall u, r | 0 <= u < |s.cpus| && HasGen(s'.cpus[u].pc) && r in s'.cpus[u].flip && r in s'.active
      ensures s'.gen[r.cpu] < s'.cpus[u].pc.g
    {
      assert r.cpu != t && s'.gen[r.cpu] == s.gen[r.cpu];
      if u == t && s.cpus[t].pc.Alloc? {
        assert GenLocal(s.cpus[r.cpu].pc, s.gen[r.cpu], s.req[r.cpu], s.next);
      }
    }
  }

  lemma ProtocolBuffers(s: State, t: nat, s': State)
    requires WellFormed(s) && t < |s.cpus| && Protocol(s, t) == Some(s') && BuffersOk(s)
    ensures BuffersOk(s')
  {
    ProtocolShape(s, t, s');
    GotoKeeps(s.cpus[t], s'.cpus[t].pc);
  }

  // ------------------------------------------------------------- steps on the buffers

  /** A move that changes only the record of CPU t, not its generation. */
  lemma GenFrame(s: State, s': State, t: nat)
    requires WellFormed(s) && WellFormed(s') && t < |s.cpus| == |s'.cpus| && GenOk(s) && ReachOk(s)
    requires s'.cpus == s.cpus[t := s'.cpus[t]] && s'.gen == s.gen && s'.req == s.req && s'.next == s.next
    requires GenLocal(s'.cpus[t].pc, s.gen[t], s.req[t], s.next)
    requires Reached(s'.cpus[t].pc, |s.cpus|) <= Reached(s.cpus[t].pc, |s.cpus|)
    requires HasGen(s'.cpus[t].pc) ==> HasGen(s.cpus[t].pc) && s'.cpus[t].pc.g == s.cpus[t].pc.g
    requires Reached(s'.cpus[t].pc, |s.cpus|) > 0 ==> HasGen(s'.cpus[t].pc)
    ensures GenOk(s') && ReachOk(s')
  {
    forall u, k | 0 <= u < |s.cpus| && 0 <= k < |s.gen| && k < Reached(s'.cpus[u].pc, |s.cpus|)
      ensures HasGen(s'.cpus[u].pc) && s'.gen[k] >= s'.cpus[u].pc.g
    {
      assert k < Reached(s.cpus[u].pc, |s.cpus|);
    }
  }

  lemma FlipStep(s: State, t: nat, s': State)
    requires InvCore(s) && t < |s.cpus| && s.cpus[t].pc.Top?
    requires s' == s.(cpus := s.cpus[t := FlipBuffers(s.cpus[t], s.active)])
    ensures InvCore(s')
  {
    var c, c' := s.cpus[t], s'.cpus[t];
    FlipKeeps(c, s.active);
    GenFrame(s, s', t);
  }

  lemma TakeStep(s: State, t: nat, s': State)
    requires InvCore(s) && t < |s.cpus| && s.cpus[t].pc.Take?
    requires s' == s.(cpus := s.cpus[t := TakeBuffer(s.cpus[t])])
    ensures InvCore(s')
  {
    TakeKeeps(s.cpus[t]);
    GenFrame(s, s', t);
  }

  /** The grace period is over: no reader section of the snapshot is left. */
  lemma GraceOver(s: State, t: nat, r: Reader)
    requires WellFormed(s) && ReachOk(s) && GraceOk(s) && t < |s.cpus| && s.cpus[t].pc.Run?
    ensures r in s.cpus[t].flip ==> r !in s.active
  {
    if r in s.active {
      assert r.cpu < Reached(s.cpus[t].pc, |s.cpus|);
    }
  }

  lemma RunStep(s: State, t: nat, s': State)
    requires InvCore(s) && t < |s.cpus| && s.cpus[t].pc.Run?
    requires s'.cpus == s.cpus[t := RunCallback(s.cpus[t])]
    requires s' == s.(cpus := s'.cpus, flushes := s'.flushes)
    ensures InvCore(s')
  {
    var c, c' := s.cpus[t], s'.cpus[t];
    RunKeeps(c);
    GenFrame(s, s', t);
  }

  lemma AppendStep(s: State, t: nat, cb: Callback, s': State)
    requires InvCore(s) && t < |s.cpus| && cb.Callback?
    requires s.cpus[t].bufs[s.cpus[t].buf].n < CAPACITY && s'.cpus == s.cpus[t := Append(s.cpus[t], cb)]
    requires s' == s.(cpus := s'.cpus, flushes := s'.flushes)
    ensures InvCore(s')
  {
    AppendKeeps(s.cpus[t], cb);
    GenFrame(s, s', t);
  }

  lemma EnterStep(s: State, cpu: nat, s': State)
    requires InvCore(s) && cpu < |s.cpus|
    requires s' == s.(active := s.active + {Reader(cpu, s.nextReader)}, nextReader := s.nextReader + 1)
    ensures InvCore(s')
  {
    EnterGrace(s, cpu, s');
  }

  lemma EnterGrace(s: State, cpu: nat, s': State)
    requires WellFormed(s) && GraceOk(s) && cpu < |s.cpus|
    requires s' == s.(active := s.active + {Reader(cpu, s.nextReader)}, nextReader := s.nextReader + 1)
    ensures WellFormed(s') && GraceOk(s')
  {}

  lemma LeaveStep(s: State, r: Reader, s': State)
    requires InvCore(s) && s' == s.(active := s.active - {r})
    ensures InvCore(s')
  {
  }

  ghost predicate InvCore(s: State) {
    WellFormed(s) && BuffersOk(s) && GenOk(s) && ReachOk(s) && GraceOk(s)
  }

  // ------------------------------------------------------------------ rcu_flush

  /** How many of the first m CPUs have run the callback at its mark. */
  function Passed(mark: seq<nat>, cpus: seq<Cpu>, m: nat): nat
    requires m <= |mark| <= |cpus|
  {
    if m == 0 then 0
    else Passed(mark, cpus, m - 1) + (if mark[m - 1] < |cpus[m - 1].ran| then 1 else 0)
  }

  predicate Posts(cb: Callback, f: nat) {
    cb.Callback? && cb.flush == Some(f)
  }

  ghost predicate FlushLocal(fl: Flush, f: nat, cpus: seq<Cpu>) {
    && |fl.start| == |cpus| && |fl.mark| <= |cpus|
    && (forall c :: 0 <= c < |cpus| ==> fl.start[c] <= |cpus[c].deferred|)
    && (forall c :: 0 <= c < |fl.mark| ==>
          fl.start[c] <= fl.mark[c] < |cpus[c].deferred| && Posts(cpus[c].deferred[fl.mark[c]], f))
    && fl.posts == Passed(fl.mark, cpus, |fl.mark|)
    && (fl.returned ==> |fl.mark| == |cpus| && fl.posts >= |cpus|)
  }

  ghost predicate FlushCountsOk(flushes: seq<Flush>, cpus: seq<Cpu>) {
    forall f :: 0 <= f < |flushes| ==> FlushLocal(flushes[f], f, cpus)
  }

  /** Each call has its own callbacks, at its marks and nowhere else. */
  ghost predicate MarksOk(flushes: seq<Flush>, cpus: seq<Cpu>) {
    forall c, k :: 0 <= c < |cpus| && 0 <= k < |cpus[c].deferred| ==> Marked(flushes, cpus[c].deferred[k], c, k)
  }

  predicate Marked(flushes: seq<Flush>, cb: Callback, c: nat, k: nat) {
    cb.Callback? && cb.flush.Some? ==>
      var f := cb.flush.value; f < |flushes| && c < |flushes[f].mark| && flushes[f].mark[c] == k
  }

  ghost predicate FlushesOk(s: State) {
    FlushCountsOk(s.flushes, s.cpus) && MarksOk(s.flushes, s.cpus)
  }

  lemma {:induction false} PassedFrame(mark: seq<nat>, mark': seq<nat>, cpus: seq<Cpu>, cpus': seq<Cpu>, m: nat)
    requires m <= |mark| <= |cpus| && m <= |mark'| <= |cpus'|
    requires forall c :: 0 <= c < m ==> mark[c] == mark'[c] && (mark[c] < |cpus[c].ran| <==> mark'[c] < |cpus'[c].ran|)
    ensures Passed(mark, cpus, m) == Passed(mark', cpus', m)
  {
    if m > 0 {
      PassedFrame(mark, mark', cpus, cpus', m - 1);
    }
  }

  /** CPU t runs the callback at its mark. */
  lemma {:induction false} PassedOne(mark: seq<nat>, cpus: seq<Cpu>, cpus': seq<Cpu>, t: nat, m: nat)
    requires m <= |mark| <= |cpus| == |cpus'| && t < m
    requires forall c :: 0 <= c < |cpus| && c != t ==> |cpus[c].ran| == |cpus'[c].ran|
    requires mark[t] == |cpus[t].ran| && |cpus'[t].ran| == |cpus[t].ran| + 1
    ensures Passed(mark, cpus', m) == Passed(mark, cpus, m) + 1
  {
    if t < m - 1 {
      PassedOne(mark, cpus, cpus', t, m - 1);
    } else {
      PassedFrame(mark, mark, cpus, cpus', m - 1);
    }
  }

  lemma {:induction false} PassedAll(mark: seq<nat>, cpus: seq<Cpu>, m: nat)
    requires m <= |mark| <= |cpus|
    ensures Passed(mark, cpus, m) <= m
    ensures Passed(mark, cpus, m) == m <==> forall c :: 0 <= c < m ==> mark[c] < |cpus[c].ran|
  {
    if m > 0 {
      PassedAll(mark, cpus, m - 1);
    }
  }

  /** The logs of the first CPUs keep what they had, and nothing ran. */
  lemma FlushSame(fl: Flush, f: nat, cpus: seq<Cpu>, cpus': seq<Cpu>)
    requires FlushLocal(fl, f, cpus) && |cpus'| == |cpus|
    requires forall c :: 0 <= c < |cpus| ==> cpus[c].deferred <= cpus'[c].deferred && |cpus'[c].ran| == |cpus[c].ran|
    ensures FlushLocal(fl, f, cpus')
  {
    PassedFrame(fl.mark, fl.mark, cpus, cpus', |fl.mark|);
  }

  lemma FlushFrame(s: State, s': State)
    requires FlushesOk(s) && s'.flushes == s.flushes && |s'.cpus| == |s.cpus|
    requires forall c :: 0 <= c < |s.cpus| ==>
               s'.cpus[c].deferred == s.cpus[c].deferred && s'.cpus[c].ran == s.cpus[c].ran
    ensures FlushesOk(s')
  {
    forall f | 0 <= f < |s'.flushes| ensures FlushLocal(s'.flushes[f], f, s'.cpus) {
      FlushSame(s.flushes[f], f, s.cpus, s'.cpus);
    }
    forall c, k | 0 <= c < |s'.cpus| && 0 <= k < |s'.cpus[c].deferred|
      ensures Marked(s'.flushes, s'.cpus[c].deferred[k], c, k)
    {
      assert Marked(s.flushes, s.cpus[c].deferred[k], c, k);
    }
  }

  /** A callback joins the end of CPU t's log. */
  lemma FlushAppend(s: State, t: nat, cb: Callback, flushes': seq<Flush>, cpus': seq<Cpu>)
    requires FlushesOk(s) && t < |s.cpus| && s.cpus[t].buf < 2 == |s.cpus[t].bufs|
    requires s.cpus[t].bufs[s.cpus[t].buf].n < |s.cpus[t].bufs[s.cpus[t].buf].cells|
    requires cpus' == s.cpus[t := Append(s.cpus[t], cb)]
    requires |flushes'| == |s.flushes| && forall f :: 0 <= f < |s.flushes| ==> s.flushes[f].mark <= flushes'[f].mark
    requires Marked(flushes', cb, t, |s.cpus[t].deferred|)
    ensures MarksOk(flushes', cpus')
    ensures forall f :: 0 <= f < |s.flushes| ==> FlushLocal(s.flushes[f], f, cpus')
  {
    forall f | 0 <= f < |s.flushes| ensures FlushLocal(s.flushes[f], f, cpus') {
      FlushSame(s.flushes[f], f, s.cpus, cpus');
    }
    forall c, k | 0 <= c < |cpus'| && 0 <= k < |cpus'[c].deferred|
      ensures Marked(flushes', cpus'[c].deferred[k], c, k)
    {
      if c != t || k < |s.cpus[t].deferred| {
        assert Marked(s.flushes, s.cpus[c].deferred[k], c, k);
        assert cpus'[c].deferred[k] == s.cpus[c].deferred[k];
      }
    }
  }

  lemma FlushDefer(s: State, t: nat, id: nat, s': State)
    requires FlushesOk(s) && WellFormed(s) && t < |s.cpus| && Defer(s, t, id, s')
    ensures FlushesOk(s')
  {
    FlushAppend(s, t, Callback(id, None), s.flushes, s'.cpus);
  }

  lemma FlushBegins(s: State, f: nat, s': State)
    requires WellFormed(s) && FlushesOk(s) && f >= |s.flushes| && FlushStep(s, f, s')
    ensures FlushesOk(s')
  {
    forall c, k | 0 <= c < |s'.cpus| && 0 <= k < |s'.cpus[c].deferred|
      ensures Marked(s'.flushes, s'.cpus[c].deferred[k], c, k)
    {
      assert Marked(s.flushes, s.cpus[c].deferred[k], c, k);
    }
  }

  lemma FlushDefers(s: State, f: nat, s': State)
    requires WellFormed(s) && BuffersOk(s) && FlushesOk(s) && f < |s.flushes| && FlushStep(s, f, s')
    requires |s.flushes[f].mark| < |s.cpus|
    ensures FlushesOk(s')
  {
    var fl := s.flushes[f];
    var t := |fl.mark|;
    FlushAppend(s, t, Callback(0, Some(f)), s'.flushes, s'.cpus);
    assert FlushLocal(fl, f, s.cpus) && BufferOk(s.cpus[t]);
    FlushMark(fl, f, s'.cpus, |s.cpus[t].deferred|);
  }

  /** The flush has put its callback on one more CPU. */
  lemma FlushMark(fl: Flush, f: nat, cpus: seq<Cpu>, p: nat)
    requires FlushLocal(fl, f, cpus) && |fl.mark| < |cpus| && !fl.returned
    requires var c := cpus[|fl.mark|]; fl.start[|fl.mark|] <= p < |c.deferred| && Posts(c.deferred[p], f) && |c.ran| <= p
    ensures FlushLocal(fl.(mark := fl.mark + [p]), f, cpus)
  {
    PassedFrame(fl.mark, fl.mark + [p], cpus, cpus, |fl.mark|);
  }

  lemma FlushReturns(s: State, f: nat, s': State)
    requires WellFormed(s) && FlushesOk(s) && f < |s.flushes| && FlushStep(s, f, s')
    requires |s.flushes[f].mark| >= |s.cpus|
    ensures FlushesOk(s')
  {
    forall c, k | 0 <= c < |s'.cpus| && 0 <= k < |s'.cpus[c].deferred|
      ensures Marked(s'.flushes, s'.cpus[c].deferred[k], c, k)
    {
      assert Marked(s.flushes, s.cpus[c].deferred[k], c, k);
    }
  }

  /** CPU t runs the callback at position |ran| of its log: exactly the flush it posts counts one more. */
  lemma FlushCounts(fl: Flush, f: nat, cpus: seq<Cpu>, t: nat, c': Cpu, cb: Callback)
    requires FlushLocal(fl, f, cpus) && t < |cpus| && |cpus[t].ran| < |cpus[t].deferred|
    requires c'.deferred == cpus[t].deferred && c'.ran == cpus[t].ran + [cb] && cb == cpus[t].deferred[|cpus[t].ran|]
    requires cb.Callback? && (Posts(cb, f) ==> t < |fl.mark| && fl.mark[t] == |cpus[t].ran|)
    ensures FlushLocal(if Posts(cb, f) then fl.(posts := fl.posts + 1) else fl, f, cpus[t := c'])
  {
    var cpus' := cpus[t := c'];
    if Posts(cb, f) {
      PassedOne(fl.mark, cpus, cpus', t, |fl.mark|);
    } else {
      assert t < |fl.mark| ==> fl.mark[t] != |cpus[t].ran|;
      PassedFrame(fl.mark, fl.mark, cpus, cpus', |fl.mark|);
    }
  }

  lemma FlushRunOne(flushes: seq<Flush>, cpus: seq<Cpu>, t: nat, c': Cpu, cb: Callback)
    requires FlushCountsOk(flushes, cpus) && MarksOk(flushes, cpus)
    requires t < |cpus| && |cpus[t].ran| < |cpus[t].deferred| && cb.Callback?
    requires c'.deferred == cpus[t].deferred && c'.ran == cpus[t].ran + [cb] && cb == cpus[t].deferred[|cpus[t].ran|]
    ensures FlushCountsOk(Post(flushes, cb), cpus[t := c']) && MarksOk(Post(flushes, cb), cpus[t := c'])
  {
    assert Marked(flushes, cpus[t].deferred[|cpus[t].ran|], t, |cpus[t].ran|);
    forall f | 0 <= f < |flushes| ensures FlushLocal(Post(flushes, cb)[f], f, cpus[t := c']) {
      FlushCounts(flushes[f], f, cpus, t, c', cb);
    }
    var cpus' := cpus[t := c'];
    forall d, k | 0 <= d < |cpus'| && 0 <= k < |cpus'[d].deferred|
      ensures Marked(Post(flushes, cb), cpus'[d].deferred[k], d, k)
    {
      assert Marked(flushes, cpus[d].deferred[k], d, k);
    }
  }

  /** The callback that runs is the one after those that have run. */
  lemma RunPosts(s: State, t: nat, s': State)
    requires WellFormed(s) && t < |s.cpus| && BufferOk(s.cpus[t])
    requires s.cpus[t].pc.Run? && BufferStep(s, t, s') && s.cpus[t].pc.i < s.cpus[t].pc.n
    ensures var c := s.cpus[t];
            && |Rest(c)| > 0 && |c.ran| < |c.deferred| && Rest(c)[0] == c.deferred[|c.ran|] && Rest(c)[0].Callback?
            && s'.flushes == Post(s.flushes, Rest(c)[0]) && s'.cpus == s.cpus[t := RunCallback(c)]
  {
    var c := s.cpus[t];
    assert c.deferred[|c.ran|] == Rest(c)[0] == c.bufs[1 - c.buf].cells[c.pc.i];
  }

  lemma FlushRun(s: State, t: nat, s': State)
    requires WellFormed(s) && t < |s.cpus| && BufferOk(s.cpus[t]) && FlushesOk(s)
    requires s.cpus[t].pc.Run? && BufferStep(s, t, s')
    ensures FlushesOk(s')
  {
    var c := s.cpus[t];
    RunKeeps(c);
    if c.pc.i == c.pc.n {
      FlushFrame(s, s');
    } else {
      RunPosts(s, t, s');
      FlushRunOne(s.flushes, s.cpus, t, RunCallback(c), Rest(c)[0]);
    }
  }

  // ------------------------------------------------------------------ all runs

  ghost predicate Inv(s: State) {
    InvCore(s) && FlushesOk(s)
  }

  lemma StepKeeps(s: State, m: Move, s': State)
    requires Inv(s) && Step(s, m, s')
    ensures Inv(s')
  {
    match m {
      case Thread(t) => ThreadKeeps(s, t, s');
      case Client(t, id) =>
        AppendStep(s, t, Callback(id, None), s');
        FlushDefer(s, t, id, s');
      case Flusher(f) => FlusherKeeps(s, f, s');
      case Enter(cpu) =>
        EnterStep(s, cpu, s');
        FlushFrame(s, s');
      case Leave(r) =>
        LeaveStep(s, r, s');
        FlushFrame(s, s');
    }
  }

  lemma ThreadKeeps(s: State, t: nat, s': State)
    requires Inv(s) && Step(s, Thread(t), s')
    ensures Inv(s')
  {
    if Protocol(s, t) == Some(s') {
      ProtocolShape(s, t, s');
      ProtocolGen(s, t, s');
      ProtocolReach(s, t, s');
      ProtocolGrace(s, t, s');
      ProtocolBuffers(s, t, s');
      FlushFrame(s, s');
    } else if s.cpus[t].pc.Top? {
      FlipStep(s, t, s');
      FlushFrame(s, s');
    } else if s.cpus[t].pc.Take? {
      TakeStep(s, t, s');
      FlushFrame(s, s');
    } else {
      RunStep(s, t, s');
      FlushRun(s, t, s');
    }
  }

  lemma FlusherKeeps(s: State, f: nat, s': State)
    requires Inv(s) && FlushStep(s, f, s')
    ensures Inv(s')
  {
    if f >= |s.flushes| {
      FlushBegins(s, f, s');
      SameCore(s, s');
    } else if |s.flushes[f].mark| < |s.cpus| {
      AppendStep(s, |s.flushes[f].mark|, Callback(0, Some(f)), s');
      FlushDefers(s, f, s');
    } else {
      FlushReturns(s, f, s');
      SameCore(s, s');
    }
  }

  lemma SameCore(s: State, s': State)
    requires InvCore(s) && s' == s.(flushes := s'.flushes)
    ensures InvCore(s')
  {
  }

  lemma InitKeeps(s: State)
    requires Init(s)
    ensures Inv(s)
  {}

  lemma KeepsAt(run: seq<State>, moves: seq<Move>, i: nat)
    requires History(run, moves) && i < |moves| && Inv(run[i])
    ensures Inv(run[i + 1])
  {
    StepKeeps(run[i], moves[i], run[i + 1]);
  }

  /** The invariant holds in every state of every run. */
  lemma {:induction false} HistoryKeeps(run: seq<State>, moves: seq<Move>, i: nat)
    requires History(run, moves) && i < |run|
    ensures Inv(run[i])
  {
    if i == 0 {
      InitKeeps(run[0]);
    } else {
      HistoryKeeps(run, moves, i - 1);
      KeepsAt(run, moves, i - 1);
    }
  }

  // ------------------------------------------------------------------ grace period

  /** The callbacks of CPU c that have run or that its thread has set aside to run. */
  function Claimed(c: Cpu): nat
    requires c.buf < 2 == |c.bufs|
  {
    |c.ran| + |Rest(c)|
  }

  /** As long as section r lasts, callback k of the CPU has not run, and when it has been set aside
      to run, r is one of the sections waited for. */
  ghost predicate HeldBack(c: Cpu, k: nat, r: Reader, active: set<Reader>)
    requires c.buf < 2 == |c.bufs|
  {
    r in active ==> |c.ran| <= k && (k < Claimed(c) ==> r in c.flip)
  }

  ghost predicate Held(s: State, c: nat, k: nat, r: Reader)
    requires BuffersOk(s) && c < |s.cpus|
  {
    r.id < s.nextReader && HeldBack(s.cpus[c], k, r, s.active)
  }

  lemma HeldFlip(c: Cpu, k: nat, r: Reader, active: set<Reader>)
    requires BufferOk(c) && c.pc.Top? && HeldBack(c, k, r, active)
    ensures HeldBack(FlipBuffers(c, active), k, r, active)
  {
    assert Rest(c) == [];
  }

  lemma HeldRun(c: Cpu, k: nat, r: Reader, active: set<Reader>)
    requires BufferOk(c) && c.pc.Run? && HeldBack(c, k, r, active) && (r in c.flip ==> r !in active)
    ensures HeldBack(RunCallback(c), k, r, active)
  {
    RunKeeps(c);
  }

  lemma HeldBuffer(s: State, t: nat, s': State, k: nat, r: Reader)
    requires Inv(s) && t < |s.cpus| && BufferStep(s, t, s') && BufferOk(s.cpus[t]) && HeldBack(s.cpus[t], k, r, s.active)
    ensures t < |s'.cpus| && s'.cpus == s.cpus[t := s'.cpus[t]] && s'.cpus[t].buf < 2 == |s'.cpus[t].bufs|
    ensures s'.active == s.active && s'.nextReader == s.nextReader
    ensures HeldBack(s'.cpus[t], k, r, s'.active)
  {
    var d := s.cpus[t];
    if d.pc.Top? {
      HeldFlip(d, k, r, s.active);
    } else if d.pc.Take? {
      TakeKeeps(d);
    } else {
      GraceOver(s, t, r);
      HeldRun(d, k, r, s.active);
    }
  }

  lemma HeldThread(s: State, t: nat, s': State, c: nat, k: nat, r: Reader)
    requires Inv(s) && BuffersOk(s') && Step(s, Thread(t), s') && c < |s.cpus| && Held(s, c, k, r)
    ensures c < |s'.cpus| && Held(s', c, k, r)
  {
    assert BufferOk(s.cpus[t]);
    if Protocol(s, t) == Some(s') {
      ProtocolShape(s, t, s');
      GotoKeeps(s.cpus[t], s'.cpus[t].pc);
    } else if c == t {
      HeldBuffer(s, t, s', k, r);
    }
  }

  /** The other moves only append to the current buffer, or do not touch the buffers. */
  lemma OthersKeepRest(s: State, m: Move, s': State, c: nat)
    requires BuffersOk(s) && Step(s, m, s') && !m.Thread? && c < |s.cpus|
    ensures |s'.cpus| == |s.cpus| && s'.nextReader >= s.nextReader
    ensures var d, d' := s.cpus[c], s'.cpus[c];
            d'.buf < 2 == |d'.bufs| && Rest(d') == Rest(d) && d'.ran == d.ran && d'.flip == d.flip
    ensures forall r :: r in s'.active && r.id < s.nextReader ==> r in s.active
  {
    assert BufferOk(s.cpus[c]);
    if m.Client? && m.t == c {
      AppendKeeps(s.cpus[c], Callback(m.id, None));
    } else if m.Flusher? && m.f < |s.flushes| && |s.flushes[m.f].mark| == c {
      AppendKeeps(s.cpus[c], Callback(0, Some(m.f)));
    }
  }

  lemma HeldStep(s: State, m: Move, s': State, c: nat, k: nat, r: Reader)
    requires Inv(s) && Inv(s') && Step(s, m, s') && c < |s.cpus| && Held(s, c, k, r)
    ensures |s'.cpus| == |s.cpus| && Held(s', c, k, r)
  {
    if m.Thread? {
      HeldThread(s, m.t, s', c, k, r);
      StepGrows(s, m, s');
    } else {
      OthersKeepRest(s, m, s', c);
    }
  }

  ghost predicate HeldIn(s: State, c: nat, k: nat, r: Reader) {
    Inv(s) && c < |s.cpus| && Held(s, c, k, r)
  }

  lemma HeldAt(run: seq<State>, moves: seq<Move>, i: nat, c: nat, k: nat, r: Reader)
    requires History(run, moves) && i < |moves| && HeldIn(run[i], c, k, r)
    ensures HeldIn(run[i + 1], c, k, r)
  {
    KeepsAt(run, moves, i);
    HeldStep(run[i], moves[i], run[i + 1], c, k, r);
  }

  lemma HeldFirst(s: State, c: nat, k: nat, r: Reader)
    requires Inv(s) && c < |s.cpus| && r in s.active && BufferOk(s.cpus[c]) && k >= Claimed(s.cpus[c])
    ensures HeldIn(s, c, k, r)
  {}

  lemma {:induction false} HeldForever(run: seq<State>, moves: seq<Move>, i: nat, j: nat, c: nat, k: nat, r: Reader)
    requires History(run, moves) && i <= j < |run| && HeldIn(run[i], c, k, r)
    ensures HeldIn(run[j], c, k, r)
    decreases j - i
  {
    if i < j {
      HeldAt(run, moves, i, c, k, r);
      HeldForever(run, moves, i + 1, j, c, k, r);
    }
  }

  /** Grace period: take any moment i of any run at which the k-th callback of CPU c has not been
      set aside yet, because it is in the current buffer or has not even been deferred.  When the
      callback has run, every reader section that was active at moment i, on any CPU, has ended. */
  lemma GracePeriod(run: seq<State>, moves: seq<Move>, i: nat, j: nat, c: nat, k: nat)
    requires History(run, moves) && i <= j < |run| && c < |run[i].cpus|
    ensures c < |run[j].cpus| && run[i].cpus[c].buf < 2 == |run[i].cpus[c].bufs|
    ensures k >= Claimed(run[i].cpus[c]) && k < |run[j].cpus[c].ran| ==> run[i].active !! run[j].active
  {
    HistoryKeeps(run, moves, i);
    assert BufferOk(run[i].cpus[c]);
    CpusStay(run, moves, i, j);
    if k >= Claimed(run[i].cpus[c]) && k < |run[j].cpus[c].ran| {
      forall r | r in run[i].active ensures r !in run[j].active {
        HeldFirst(run[i], c, k, r);
        HeldForever(run, moves, i, j, c, k, r);
      }
    }
  }

  /** CPUs stay, logs and the list of flushes only grow. */
  ghost predicate Grows(s: State, s': State) {
    && |s'.cpus| == |s.cpus|
    && (forall c :: 0 <= c < |s.cpus| ==>
          s.cpus[c].deferred <= s'.cpus[c].deferred && s.cpus[c].ran <= s'.cpus[c].ran)
    && |s.flushes| <= |s'.flushes|
    && (forall f :: 0 <= f < |s.flushes| ==> s'.flushes[f].start == s.flushes[f].start)
  }

  lemma StepGrows(s: State, m: Move, s': State)
    requires Step(s, m, s')
    ensures Grows(s, s')
  {
    if m.Thread? && Protocol(s, m.t) == Some(s') {
      ProtocolShape(s, m.t, s');
    }
  }

  lemma GrowsAgain(s: State, s': State, s'': State)
    requires Grows(s, s') && Grows(s', s'')
    ensures Grows(s, s'')
  {
    forall c | 0 <= c < |s.cpus|
      ensures s.cpus[c].deferred <= s''.cpus[c].deferred && s.cpus[c].ran <= s''.cpus[c].ran
    {
      assert s.cpus[c].deferred <= s'.cpus[c].deferred <= s''.cpus[c].deferred;
      assert s.cpus[c].ran <= s'.cpus[c].ran <= s''.cpus[c].ran;
    }
  }

  lemma GrowsAt(run: seq<State>, moves: seq<Move>, i: nat)
    requires History(run, moves) && i < |moves|
    ensures Grows(run[i], run[i + 1])
  {
    StepGrows(run[i], moves[i], run[i + 1]);
  }

  lemma {:induction false} CpusStay(run: seq<State>, moves: seq<Move>, i: nat, j: nat)
    requires History(run, moves) && i <= j < |run|
    ensures Grows(run[i], run[j])
  {
    if i < j {
      CpusStay(run, moves, i, j - 1);
      GrowsAt(run, moves, j - 1);
      GrowsAgain(run[i], run[j - 1], run[j]);
    }
  }

  // ------------------------------------------------------------------ once, in order, and flushed

  /** In every state of every run, the callbacks given to a CPU are the ones it has run, in the
      order given, followed by the ones set aside, followed by the ones in the current buffer;
      and the slot the next rcu_defer() will write is empty. */
  lemma ExactlyOnceInOrder(run: seq<State>, moves: seq<Move>, i: nat, c: nat)
    requires History(run, moves) && i < |run| && c < |run[i].cpus|
    ensures var d := run[i].cpus[c];
            && d.buf < 2 == |d.bufs|
            && d.deferred == d.ran + Rest(d) + Current(d)
            && |d.bufs[d.buf].cells| == 2000 && d.bufs[d.buf].n == |Current(d)| <= 2000
            && (d.bufs[d.buf].n < 2000 ==> d.bufs[d.buf].cells[d.bufs[d.buf].n] == Null)
  {
    HistoryKeeps(run, moves, i);
    assert BufferOk(run[i].cpus[c]);
  }

  /** When rcu_flush() call f has returned, every callback that any CPU had been given when the
      call began has run. */
  lemma FlushComplete(run: seq<State>, moves: seq<Move>, i: nat, j: nat, f: nat, c: nat)
    requires History(run, moves) && i < j < |run| && c < |run[i].cpus|
    requires moves[i] == Flusher(f) && f == |run[i].flushes|
    ensures c < |run[j].cpus| && f < |run[j].flushes|
    ensures run[j].flushes[f].returned ==> run[i].cpus[c].deferred <= run[j].cpus[c].ran
  {
    assert Step(run[i], moves[i], run[i + 1]);
    CpusStay(run, moves, i + 1, j);
    HistoryKeeps(run, moves, j);
    var fl, s := run[j].flushes[f], run[j];
    assert fl.start == Lengths(run[i].cpus);
    assert FlushLocal(fl, f, s.cpus);
    PassedAll(fl.mark, s.cpus, |fl.mark|);
    assert BufferOk(s.cpus[c]);
    assert s.cpus[c].ran <= s.cpus[c].deferred;
  }

  // ------------------------------------------------------------------ nobody waits in vain

  /** How far a thread has come in asking the other CPUs for its generation. */
  function Asked(p: Pc, n: nat): nat {
    if p.Request? || p.Raise? then p.j else if HasGen(p) then n else 0
  }

  /** The CPUs asked so far have the request, and once all are asked the thread's own CPU is there too. */
  predicate AskedOf(s: State, t: nat, k: nat)
    requires WellFormed(s)
  {
    t < |s.cpus| && k < |s.cpus| ==>
      var p := s.cpus[t].pc;
      && (p.Raise? && p.j == k ==> p.r <= s.req[k])
      && (HasGen(p) && k != t && k < Asked(p, |s.cpus|) ==> p.g <= s.req[k])
      && (HasGen(p) && !p.Request? && !p.Raise? && !p.SetOwn? ==> p.g <= s.gen[t])
  }

  ghost predicate AskedOk(s: State) {
    WellFormed(s) && forall t: nat, k: nat :: AskedOf(s, t, k)
  }

  lemma AskedSelf(s: State, t: nat, s': State, k: nat)
    requires WellFormed(s) && WellFormed(s') && t < |s.cpus| && Protocol(s, t) == Some(s') && |s'.cpus| == |s.cpus|
    requires GenLocal(s.cpus[t].pc, s.gen[t], s.req[t], s.next) && AskedOf(s, t, k)
    ensures AskedOf(s', t, k)
  {}

  lemma AskedProtocol(s: State, t: nat, s': State)
    requires AskedOk(s) && GenOk(s) && t < |s.cpus| && Protocol(s, t) == Some(s')
    ensures AskedOk(s')
  {
    ProtocolShape(s, t, s');
    ProtocolGen(s, t, s');
    ProtocolCounters(s, t, s');
    forall u: nat, k: nat ensures AskedOf(s', u, k) {
      assert AskedOf(s, u, k);
      if u == t { AskedSelf(s, t, s', k); }
    }
  }

  /** Moves that leave the counters alone and take no thread into the protocol. */
  lemma AskedFrame(s: State, s': State, t: nat)
    requires AskedOk(s) && |s'.cpus| == |s.cpus| && s'.gen == s.gen && s'.req == s.req
    requires forall u :: 0 <= u < |s.cpus| && u != t ==> s'.cpus[u].pc == s.cpus[u].pc
    requires t < |s.cpus| ==>
               var p, p' := s.cpus[t].pc, s'.cpus[t].pc;
               p' == p || !HasGen(p') || ((p.Take? || p.Run?) && p'.Run? && p'.g == p.g)
    ensures AskedOk(s')
  {
    forall u: nat, k: nat ensures AskedOf(s', u, k) {
      assert AskedOf(s, u, k);
    }
  }

  lemma AskedBuffer(s: State, t: nat, s': State)
    requires AskedOk(s) && t < |s.cpus| && BufferStep(s, t, s')
    ensures AskedOk(s')
  {
    AskedFrame(s, s', t);
  }

  lemma AskedFlusher(s: State, f: nat, s': State)
    requires AskedOk(s) && FlushStep(s, f, s')
    ensures AskedOk(s')
  {
    AskedFrame(s, s', if f < |s.flushes| then |s.flushes[f].mark| else 0);
  }

  lemma AskedStep(s: State, m: Move, s': State)
    requires Inv(s) && AskedOk(s) && Step(s, m, s')
    ensures AskedOk(s')
  {
    match m {
      case Thread(t) => if Protocol(s, t) == Some(s') { AskedProtocol(s, t, s'); } else { AskedBuffer(s, t, s'); }
      case Client(t, _) => AskedFrame(s, s', t);
      case Flusher(f) => AskedFlusher(s, f, s');
      case Enter(_) => AskedFrame(s, s', 0);
      case Leave(_) => AskedFrame(s, s', 0);
    }
  }

  lemma AskedInit(s: State)
    requires Init(s)
    ensures AskedOk(s)
  {
    forall t: nat, k: nat ensures AskedOf(s, t, k) {}
  }

  lemma AskedAt(run: seq<State>, moves: seq<Move>, i: nat)
    requires History(run, moves) && i < |moves| && AskedOk(run[i])
    ensures AskedOk(run[i + 1])
  {
    HistoryKeeps(run, moves, i);
    AskedStep(run[i], moves[i], run[i + 1]);
  }

  lemma {:induction false} AskedKeeps(run: seq<State>, moves: seq<Move>, i: nat)
    requires History(run, moves) && i < |run|
    ensures AskedOk(run[i])
  {
    if i == 0 {
      AskedInit(run[0]);
    } else {
      AskedKeeps(run, moves, i - 1);
      AskedAt(run, moves, i - 1);
    }
  }

  /** In every run, a thread that waits for its generation only waits for CPUs that have an open request
      for it or a later one: these find it before they sleep, and serve it. */
  lemma WaitsOnlyForAsked(run: seq<State>, moves: seq<Move>, i: nat, t: nat, k: nat)
    requires History(run, moves) && i < |run| && t < |run[i].cpus| && k < |run[i].cpus|
    ensures |run[i].gen| == |run[i].req| == |run[i].cpus|
    ensures var p := run[i].cpus[t].pc;
            (p.Wait? || p.Scan? || p.Recheck?) && run[i].gen[k] < p.g ==> k != t && run[i].gen[k] < p.g <= run[i].req[k]
  {
    HistoryKeeps(run, moves, i);
    AskedKeeps(run, moves, i);
    assert AskedOf(run[i], t, k);
  }

  /** In every run, a thread whose CPU has an open request does not sleep but takes the request up, and then
      reaches it; with no request open it goes to its callbacks as soon as every CPU is at its generation, and
      when they have run it begins again. */
  lemma RequestsServed(run: seq<State>, moves: seq<Move>, i: nat, t: nat)
    requires History(run, moves) && i < |moves| && moves[i] == Thread(t) && t < |run[i].cpus|
    ensures |run[i].gen| == |run[i].req| == |run[i].cpus| == |run[i + 1].cpus| == |run[i + 1].gen|
    ensures var p, p', gen, req := run[i].cpus[t].pc, run[i + 1].cpus[t].pc, run[i].gen[t], run[i].req[t];
            && (p.Sleep? && gen < req ==> p' == ServeIdle(req))
            && (p.Wait? && gen < req ==> p'.Recheck?)
            && (p.Recheck? && gen < req ==> p'.Serve? && p'.r == req)
            && (p.Wait? && gen >= req ==> p' == Scan(p.g, 0))
            && (p.Scan? ==> p' == if p.k >= |run[i].cpus| then Recheck(p.g, true)
                                  else if run[i].gen[p.k] >= p.g then Scan(p.g, p.k + 1) else Wait(p.g))
            && (p.Recheck? && gen >= req ==> p' == Take(p.g))
            && (p.Run? && p.i >= p.n ==> p'.Top?)
            && (p.Serve? || p.ServeIdle? ==> run[i + 1].gen[t] == p.r > gen)
  {
    HistoryKeeps(run, moves, i);
    HistoryKeeps(run, moves, i + 1);
    assert Step(run[i], moves[i], run[i + 1]);
    assert GenLocal(run[i].cpus[t].pc, run[i].gen[t], run[i].req[t], run[i].next);
    StepGrows(run[i], moves[i], run[i + 1]);
  }

  /** In every run, the thread of a CPU without active readers can move, unless it sleeps and has neither an
      open request nor a callback in its current buffer; a thread that waits goes on to its callbacks once
      every CPU is at its generation. */
  lemma NobodyStuck(run: seq<State>, moves: seq<Move>, i: nat, t: nat)
    requires History(run, moves) && i < |run| && t < |run[i].cpus| && Quiet(run[i], t)
    ensures |run[i].gen| == |run[i].req| == |run[i].cpus| && run[i].cpus[t].buf < 2 == |run[i].cpus[t].bufs|
    ensures (exists s' :: Step(run[i], Thread(t), s')) <==>
              !(run[i].cpus[t].pc.Sleep? && run[i].gen[t] >= run[i].req[t] && Current(run[i].cpus[t]) == [])
  {
    HistoryKeeps(run, moves, i);
    var s := run[i];
    CanMove(s, t);
  }

  lemma CanMove(s: State, t: nat)
    requires WellFormed(s) && t < |s.cpus| && Quiet(s, t) && BufferOk(s.cpus[t])
    ensures (exists s' :: Step(s, Thread(t), s')) <==>
              !(s.cpus[t].pc.Sleep? && s.gen[t] >= s.req[t] && Current(s.cpus[t]) == [])
  {
    if s.cpus[t].pc.Top? || s.cpus[t].pc.Take? || s.cpus[t].pc.Run? {
      CanClean(s, t);
    } else if Protocol(s, t).Some? {
      assert Step(s, Thread(t), Protocol(s, t).value);
    }
  }

  lemma CanClean(s: State, t: nat)
    requires WellFormed(s) && t < |s.cpus| && Quiet(s, t) && s.cpus[t].buf < 2 == |s.cpus[t].bufs|
    requires s.cpus[t].pc.Top? || s.cpus[t].pc.Take? || s.cpus[t].pc.Run?
    ensures exists s' :: Step(s, Thread(t), s')
  {
    var c := s.cpus[t];
    if c.pc.Top? {
      assert Step(s, Thread(t), s.(cpus := s.cpus[t := FlipBuffers(c, s.active)]));
    } else if c.pc.Take? {
      assert Step(s, Thread(t), s.(cpus := s.cpus[t := TakeBuffer(c)]));
    } else {
      assert Step(s, Thread(t), s.(cpus := s.cpus[t := RunCallback(c)],
                                   flushes := if c.pc.i < c.pc.n && c.pc.i < |c.bufs[1 - c.buf].cells|
                                              then Post(s.flushes, c.bufs[1 - c.buf].cells[c.pc.i]) else s.flushes));
    }
  }

  /** In every run, rcu_defer() can go on exactly if the current buffer of the CPU holds less than 2000
      callbacks; a call of rcu_flush() that has given every CPU its callback can return exactly if all of
      these have run. */
  lemma ClientsGoOn(run: seq<State>, moves: seq<Move>, i: nat, c: nat, id: nat, f: nat)
    requires History(run, moves) && i < |run| && c < |run[i].cpus| && f < |run[i].flushes|
    ensures run[i].cpus[c].buf < 2 == |run[i].cpus[c].bufs|
    ensures (exists s' :: Step(run[i], Client(c, id), s')) <==> |Current(run[i].cpus[c])| < 2000
    ensures var fl := run[i].flushes[f];
            |fl.mark| == |run[i].cpus| ==>
              ((exists s' :: Step(run[i], Flusher(f), s')) <==> forall d :: 0 <= d < |fl.mark| ==> fl.mark[d] < |run[i].cpus[d].ran|)
  {
    HistoryKeeps(run, moves, i);
    CanDefer(run[i], c, id);
    assert FlushLocal(run[i].flushes[f], f, run[i].cpus);
    if |run[i].flushes[f].mark| == |run[i].cpus| { CanReturn(run[i], f); }
  }

  lemma CanDefer(s: State, c: nat, id: nat)
    requires WellFormed(s) && c < |s.cpus| && BufferOk(s.cpus[c])
    ensures (exists s' :: Step(s, Client(c, id), s')) <==> |Current(s.cpus[c])| < 2000
  {
    if |Current(s.cpus[c])| < 2000 {
      assert Step(s, Client(c, id), s.(cpus := s.cpus[c := Append(s.cpus[c], Callback(id, None))]));
    }
  }

  lemma CanReturn(s: State, f: nat)
    requires WellFormed(s) && f < |s.flushes| && FlushLocal(s.flushes[f], f, s.cpus) && |s.flushes[f].mark| == |s.cpus|
    ensures (exists s' :: Step(s, Flusher(f), s')) <==>
              forall d :: 0 <= d < |s.flushes[f].mark| ==> s.flushes[f].mark[d] < |s.cpus[d].ran|
  {
    var fl := s.flushes[f];
    PassedAll(fl.mark, s.cpus, |fl.mark|);
    if fl.posts >= |s.cpus| {
      assert Step(s, Flusher(f), s.(flushes := s.flushes[f := fl.(returned := true)]));
    }
  }
}

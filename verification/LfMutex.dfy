/** The lock-free recursive mutex of core/lfmutex.cc as a step machine.

    Every atomic operation of `lock`, `try_lock`, `unlock`, `send_lock` and
    `receive_lock` is one step of one thread.  The plain fields `depth` and
    `sequence` are touched only by the thread that has the lock, so an access
    to one of them is folded into the neighbouring atomic step.  A failed C++
    `assert` (or a null dereference) sends the thread to `Panic`.
 */
module LockFreeMutex {

  import opened Wrappers

  type Tid = nat

  datatype Owner = Nobody | Thread(t: Tid)

  /** The function that runs a piece of the hand-off code they share. */
  datatype Role = Locker | Trier | Unlocker | Sender

  /** Where a thread is; the comment gives the operation it does next. */
  datatype Pc =
    | Idle                            // outside the mutex code (it may hold the lock)
    | LOwner                          // lock: owner.load() == current ?
    | LUndo                           // lock: count.fetch_add(-1); ++depth
    | LPush                           // lock: waitqueue.push(&waiter)
    | LWait                           // lock: waiter.wait()
    | Adopt                           // owner.store(current); depth = 1
    | TOwner                          // try_lock: owner.load() == current ?
    | TAdd                            // try_lock: count.fetch_add(1)
    | UClear                          // unlock: owner.store(nullptr)
    | UDecr                           // unlock: count.fetch_add(-1)
    | UBump                           // unlock: ++sequence
    | UStore(h: nat)                  // unlock: handoff.store(ourhandoff)
    | SPush(w: Tid)                   // send_lock: waitqueue.push(wr)
    | CWait(sent: bool)               // asleep on a condvar's record; sent: given to send_lock
    | Load(who: Role)                 // handoff.load()
    | Check(who: Role, h: nat)        // waitqueue.empty()
    | Cas(who: Role, h: nat)          // handoff.compare_exchange_strong(h, 0)
    | Pop(who: Role)                  // waitqueue.pop()
    | Wake(who: Role, other: Tid)     // other->wake()
    | Panic

  /** The fields of the class; a wait record is named by the thread it stands for. */
  datatype Mutex = Mutex(count: int, owner: Owner, depth: int, queue: seq<Tid>, handoff: nat, sequence: nat)

  /** `woken[t]`: the wait record of thread t has been woken (its thread() is null).
      `held[t]`: the caller's own count, acquisitions that returned minus unlocks it called. */
  datatype State = State(m: Mutex, pc: seq<Pc>, woken: seq<bool>, held: seq<nat>)

  /** What an idle thread calls next. */
  datatype Call = Lock | TryLock | Unlock | CondWait | SendLock(w: Tid)

  // ------------------------------------------------------------------ steps

  predicate WellFormed(s: State) {
    |s.woken| == |s.pc| == |s.held|
  }

  function Goto(s: State, t: Tid, p: Pc): State
    requires WellFormed(s) && t < |s.pc|
  {
    s.(pc := s.pc[t := p])
  }

  /** A lock() or try_lock() of thread t returns successfully. */
  function Acquired(s: State, t: Tid): State
    requires WellFormed(s) && t < |s.pc|
  {
    Goto(s, t, Idle).(held := s.held[t := s.held[t] + 1])
  }

  function StepCall(s: State, t: Tid, call: Call): Option<State>
    requires WellFormed(s) && t < |s.pc| && s.pc[t].Idle?
  {
    var m := s.m;
    match call
    case Lock =>
      Some(Goto(s.(m := m.(count := m.count + 1)), t, if m.count == 0 then Adopt else LOwner))
    case TryLock =>
      if m.count == 0 then Some(Goto(s.(m := m.(count := 1)), t, Adopt))
      else Some(Goto(s, t, TOwner))
    case Unlock =>
      // a caller only unlocks what it acquired
      if s.held[t] == 0 then None
      else if m.owner != Thread(t) || m.depth == 0 then Some(Goto(s, t, Panic))
      else Some(Goto(s.(m := m.(depth := m.depth - 1), held := s.held[t := s.held[t] - 1]), t,
                     if m.depth == 1 then UClear else Idle))
    case CondWait =>
      // condvar::wait has released the user mutex before anybody can see its record
      if s.held[t] > 0 then None
      else Some(Goto(s, t, CWait(false)).(woken := s.woken[t := false]))
    case SendLock(_) => None
  }

  /** send_lock(wr) for a thread w asleep on the condvar record wr, which nobody sent before. */
  function StepSendLock(s: State, t: Tid, w: Tid): Option<State>
    requires WellFormed(s) && t < |s.pc| && s.pc[t].Idle?
  {
    if w < |s.pc| && s.pc[w] == CWait(false) then
      Some(Goto(Goto(s.(m := s.m.(count := s.m.count + 1)), w, CWait(true)), t,
                if s.m.count == 0 then Wake(Sender, w) else SPush(w)))
    else None
  }

  /** Steps on `count`, `owner`, `depth`, `sequence`, and the store to `handoff`. */
  function StepOwn(s: State, t: Tid): Option<State>
    requires WellFormed(s) && t < |s.pc|
  {
    var m := s.m;
    match s.pc[t]
    case LOwner => Some(Goto(s, t, if m.owner == Thread(t) then LUndo else LPush))
    case LUndo => Some(Acquired(s.(m := m.(count := m.count - 1, depth := m.depth + 1)), t))
    case Adopt => Some(Acquired(s.(m := m.(owner := Thread(t), depth := 1)), t))
    case TOwner =>
      if m.owner == Thread(t) then Some(Acquired(s.(m := m.(depth := m.depth + 1)), t))
      else Some(Goto(s, t, Load(Trier)))
    case TAdd => Some(Goto(s.(m := m.(count := m.count + 1)), t, Adopt))
    case UClear => Some(Goto(s.(m := m.(owner := Nobody)), t, UDecr))
    case UDecr => Some(Goto(s.(m := m.(count := m.count - 1)), t, if m.count == 1 then Idle else Pop(Unlocker)))
    case UBump => Some(Goto(s.(m := m.(sequence := m.sequence + 1)), t, UStore(m.sequence + 1)))
    case UStore(h) => Some(Goto(s.(m := m.(handoff := h)), t, Check(Unlocker, h)))
    case _ => None
  }

  /** Steps that put a record in the queue, or sleep on one. */
  function StepWait(s: State, t: Tid): Option<State>
    requires WellFormed(s) && t < |s.pc|
  {
    var m := s.m;
    match s.pc[t]
    case LPush => Some(Goto(s.(m := m.(queue := m.queue + [t])), t, Load(Locker)).(woken := s.woken[t := false]))
    case SPush(w) => Some(Goto(s.(m := m.(queue := m.queue + [w])), t, Load(Sender)))
    case LWait => if s.woken[t] then Some(Goto(s, t, Adopt)) else None
    case CWait(_) => if s.woken[t] then Some(Goto(s, t, Adopt)) else None   // receive_lock()
    case _ => None
  }

  /** Where a thread goes when there is no hand-off for it, or it has done its waking. */
  function Done(who: Role): Pc {
    if who.Locker? then LWait else Idle
  }

  /** The hand-off: load it, look at the queue (a trier does not), take it. */
  function StepHand(s: State, t: Tid): Option<State>
    requires WellFormed(s) && t < |s.pc|
  {
    var m := s.m;
    match s.pc[t]
    case Load(who) =>
      Some(Goto(s, t, if m.handoff == 0 then Done(who)
                      else if who.Trier? then Cas(who, m.handoff) else Check(who, m.handoff)))
    case Check(who, h) => Some(Goto(s, t, if m.queue != [] then Cas(who, h) else Done(who)))
    case Cas(who, h) =>
      if m.handoff != h then Some(Goto(s, t, Done(who)))
      else Some(Goto(s.(m := m.(handoff := 0)), t, if who.Trier? then TAdd else Pop(who)))
    case _ => None
  }

  /** Pop a record and wake it; a locker may pop its own. */
  function StepPop(s: State, t: Tid): Option<State>
    requires WellFormed(s) && t < |s.pc|
  {
    var m := s.m;
    match s.pc[t]
    case Pop(who) =>
      if m.queue == [] then Some(Goto(s, t, if who.Unlocker? then UBump else Panic))
      else
        var o := m.queue[0];
        Some(Goto(s.(m := m.(queue := m.queue[1..])), t,
                  if o == t && who.Locker? then Adopt
                  else if o == t && who.Unlocker? then Panic else Wake(who, o)))
    case Wake(who, o) =>
      if (who.Locker? && s.woken[t]) || o >= |s.pc| || s.woken[o] then Some(Goto(s, t, Panic))
      else Some(Goto(s, t, Done(who)).(woken := s.woken[o := true]))
    case _ => None
  }

  /** The part of the code a thread is in. */
  datatype Part = InCall | InOwn | InWait | InHand | InPop | Stuck

  function PartOf(p: Pc): Part {
    match p
    case Idle => InCall
    case LOwner | LUndo | Adopt | TOwner | TAdd | UClear | UDecr | UBump | UStore(_) => InOwn
    case LPush | SPush(_) | LWait | CWait(_) => InWait
    case Load(_) | Check(_, _) | Cas(_, _) => InHand
    case Pop(_) | Wake(_, _) => InPop
    case Panic => Stuck
  }

  /** One step of thread t; None when t is blocked. */
  function Step(s: State, t: Tid, call: Call): Option<State>
    requires WellFormed(s) && t < |s.pc|
  {
    match PartOf(s.pc[t])
    case InCall => if call.SendLock? then StepSendLock(s, t, call.w) else StepCall(s, t, call)
    case InOwn => StepOwn(s, t)
    case InWait => StepWait(s, t)
    case InHand => StepHand(s, t)
    case InPop => StepPop(s, t)
    case Stuck => None
  }

  predicate Init(s: State) {
    && WellFormed(s)
    && s.m == Mutex(0, Nobody, 0, [], 0, 0)
    && (forall t :: 0 <= t < |s.pc| ==> s.pc[t].Idle? && s.held[t] == 0)
  }

  ghost predicate Next(s: State, s': State) {
    WellFormed(s) && exists t: Tid, call :: t < |s.pc| && Step(s, t, call) == Some(s')
  }

  /** A run: any number of threads, any interleaving, any sequence of calls. */
  ghost predicate Run(run: seq<State>) {
    && |run| > 0
    && Init(run[0])
    && (forall i :: 0 <= i < |run| - 1 ==> Next(run[i], run[i + 1]))
  }

  // -------------------------------------------------- where the lock and the records are

  /** The places the lock can be. */
  datatype Token = Free | Parked | At(t: Tid)

  /** Where a thread's wait record is. */
  datatype Loc = NoRecord | Unsent | Pushing(via: Tid) | InQueue | Popped(via: Tid) | Woken

  /** Witnesses for the invariant: the lock, every wait record, and a thread that
      is still going to look at a parked hand-off. */
  datatype Aux = Aux(token: Token, loc: seq<Loc>, agent: Tid)

  /** The thread pushed its own record and has not acted on a wake yet. */
  predicate Queued(p: Pc) {
    p.LWait? || ((p.Load? || p.Check? || p.Cas?) && p.who.Locker?)
  }

  /** A thread at p has the lock by virtue of where it is in the code. */
  predicate Carries(p: Pc, woken: bool) {
    || p.Adopt? || p.TAdd? || p.UDecr? || p.UBump? || p.UStore? || p.Pop? || p.Wake?
    || (woken && (Queued(p) || p.CWait?))
  }

  /** While the token is here, `count` does not include it. */
  predicate Uncounted(p: Pc) {
    p.Pop? || p.UBump? || p.UStore? || p.TAdd?
  }

  /** The thread has added one to `count` for a request that is not in the queue yet. */
  predicate Requests(p: Pc) {
    p.LOwner? || p.LUndo? || p.LPush? || p.SPush?
  }

  /** How many threads are at such a point. */
  function Requesters(pc: seq<Pc>): nat {
    if pc == [] then 0
    else Requesters(pc[..|pc| - 1]) + (if Requests(pc[|pc| - 1]) then 1 else 0)
  }

  function TokenWeight(pc: seq<Pc>, k: Token): nat {
    if k.At? && k.t < |pc| && !Uncounted(pc[k.t]) then 1 else 0
  }

  /** The token k is where the state says, and nowhere else. */
  ghost predicate PlaceOk(owner: Owner, pc: seq<Pc>, woken: seq<bool>, k: Token) {
    && |pc| == |woken|
    && (k.At? ==> k.t < |pc|)
    && (forall t :: 0 <= t < |pc| ==> (owner == Thread(t) || Carries(pc[t], woken[t]) <==> k == At(t)))
  }

  ghost predicate TokenOk(s: State, k: Token) {
    PlaceOk(s.m.owner, s.pc, s.woken, k) && (s.m.handoff != 0 <==> k == Parked)
  }

  /** `count` is the pending requests, plus the queue, plus a counted token. */
  ghost predicate CountOk(s: State, k: Token) {
    && s.m.count == Requesters(s.pc) + |s.m.queue| + TokenWeight(s.pc, k)
    && (s.m.count == 0 <==> k == Free)
  }

  /** Where the recorded owner can be. */
  predicate OwnerPc(p: Pc) {
    p.Idle? || p.LOwner? || p.LUndo? || p.TOwner? || p.UClear? || p.SPush? || p == Load(Sender)
  }

  ghost predicate OwnerOk(s: State) {
    && (s.m.owner.Thread? ==>
          s.m.owner.t < |s.pc| && OwnerPc(s.pc[s.m.owner.t]) &&
          (if s.pc[s.m.owner.t].UClear? then s.m.depth == 0 else s.m.depth >= 1))
    && (forall t :: 0 <= t < |s.pc| && (s.pc[t].UClear? || s.pc[t].LUndo?) ==> s.m.owner == Thread(t))
    && |s.held| == |s.pc|
    && (forall t :: 0 <= t < |s.held| ==> s.held[t] == if s.m.owner == Thread(t) then s.m.depth else 0)
  }

  /** What a thread's place in the code says about its wait record. */
  predicate LocalOk(p: Pc, woken: bool, l: Loc) {
    && (if Queued(p) then l.InQueue? || l.Popped? || l.Woken?
        else if p.CWait? && p.sent then l.Pushing? || l.InQueue? || l.Popped? || l.Woken?
        else if p.CWait? then l.Unsent?
        else if (p.Pop? || p.Wake?) && p.who.Locker? then l.InQueue?
        else l.NoRecord?)
    && (l.NoRecord? || (woken <==> l.Woken?))
  }

  ghost predicate LocOk(pc: seq<Pc>, woken: seq<bool>, loc: seq<Loc>) {
    && |loc| == |pc| == |woken|
    && (forall t :: 0 <= t < |pc| ==> LocalOk(pc[t], woken[t], loc[t]))
    && (forall t :: 0 <= t < |pc| && pc[t].Wake? ==> pc[t].other < |loc| && loc[pc[t].other] == Popped(t))
    && (forall t :: 0 <= t < |pc| && pc[t].SPush? ==> pc[t].w < |loc| && loc[pc[t].w] == Pushing(t))
    && (forall w :: 0 <= w < |loc| && loc[w].Popped? ==>
          loc[w].via < |pc| && pc[loc[w].via].Wake? && pc[loc[w].via].other == w)
    && (forall w :: 0 <= w < |loc| && loc[w].Pushing? ==> loc[w].via < |pc| && pc[loc[w].via] == SPush(w))
  }

  ghost predicate QueueOk(q: seq<Tid>, loc: seq<Loc>) {
    && (forall i :: 0 <= i < |q| ==> q[i] < |loc| && loc[q[i]].InQueue?)
    && (forall i, j :: 0 <= i < j < |q| ==> q[i] != q[j])
    && (forall w :: 0 <= w < |loc| && loc[w].InQueue? ==> w in q)
  }

  /** A thread that remembers a value of `handoff`. */
  predicate Remembers(p: Pc) {
    p.Check? || p.Cas?
  }

  ghost predicate SequenceOk(s: State, k: Token) {
    && s.m.handoff <= s.m.sequence
    && (forall t :: 0 <= t < |s.pc| && Remembers(s.pc[t]) ==> 1 <= s.pc[t].h <= s.m.sequence)
    && (k.At? && k.t < |s.pc| && s.pc[k.t].UStore? ==>
          && s.pc[k.t].h == s.m.sequence >= 1
          && (forall u :: 0 <= u < |s.pc| && Remembers(s.pc[u]) ==> s.pc[u].h < s.m.sequence))
  }

  /** A sender about to take the hand-off it saw, or that took it, finds the queue non-empty. */
  ghost predicate SenderOk(s: State) {
    forall t :: 0 <= t < |s.pc| &&
                (s.pc[t] == Pop(Sender) || (s.pc[t].Cas? && s.pc[t].who.Sender? && s.pc[t].h == s.m.handoff)) ==>
      s.m.queue != []
  }

  /** A thread at p is still going to look at the hand-off value h. */
  predicate Responsible(p: Pc, h: nat) {
    || p.LOwner? || p.LPush? || p.SPush? || (p.Load? && !p.who.Trier?)
    || ((p.Check? || p.Cas?) && !p.who.Trier? && p.h == h)
  }

  predicate HandoffOk(s: State, agent: Tid) {
    s.m.handoff != 0 && s.m.queue != [] ==> agent < |s.pc| && Responsible(s.pc[agent], s.m.handoff)
  }

  /** No assertion failed; a trier only loads and takes the hand-off. */
  predicate PcOk(s: State) {
    forall t :: 0 <= t < |s.pc| ==>
      !s.pc[t].Panic? && (s.pc[t].Pop? || s.pc[t].Wake? || s.pc[t].Check? ==> !s.pc[t].who.Trier?)
  }

  ghost predicate InvWith(s: State, a: Aux) {
    && WellFormed(s)
    && TokenOk(s, a.token) && CountOk(s, a.token) && OwnerOk(s)
    && LocOk(s.pc, s.woken, a.loc) && QueueOk(s.m.queue, a.loc)
    && SequenceOk(s, a.token) && SenderOk(s) && HandoffOk(s, a.agent) && PcOk(s)
  }

  ghost predicate Inv(s: State) {
    exists a :: InvWith(s, a)
  }

  // ------------------------------------------------------ the witnesses after a step

  function TokenAfter(s: State, t: Tid, call: Call, k: Token): Token
    requires WellFormed(s) && t < |s.pc|
  {
    var p := s.pc[t];
    if p.Idle? then if s.m.count == 0 && (call.Lock? || call.TryLock? || call.SendLock?) then At(t) else k
    else if p.UStore? then Parked
    else if p.UDecr? then if s.m.count == 1 then Free else k
    else if p.Wake? then At(p.other)
    else if p.Cas? && s.m.handoff == p.h then At(t)
    else k
  }

  function Put(loc: seq<Loc>, w: Tid, l: Loc): seq<Loc> {
    if w < |loc| then loc[w := l] else loc
  }

  function LocAfter(s: State, t: Tid, call: Call, loc: seq<Loc>): seq<Loc>
    requires WellFormed(s) && t < |s.pc|
  {
    var p, q := s.pc[t], s.m.queue;
    if p.Idle? then
      if call.CondWait? then Put(loc, t, Unsent)
      else if call.SendLock? then Put(loc, call.w, if s.m.count == 0 then Popped(t) else Pushing(t))
      else loc
    else if p.LPush? then Put(loc, t, InQueue)
    else if p.SPush? then Put(loc, p.w, InQueue)
    else if p.Pop? && q != [] then Put(loc, q[0], if p.who.Locker? && q[0] == t then NoRecord else Popped(t))
    else if p.Wake? then Put(loc, p.other, Woken)
    else if p.LWait? || p.CWait? then Put(loc, t, NoRecord)
    else loc
  }

  function AgentAfter(s: State, t: Tid, agent: Tid): Tid
    requires t < |s.pc|
  {
    if s.pc[t].UStore? || s.pc[t].LPush? || s.pc[t].SPush? then t else agent
  }

  function AuxAfter(s: State, t: Tid, call: Call, a: Aux): Aux
    requires WellFormed(s) && t < |s.pc|
  {
    Aux(TokenAfter(s, t, call, a.token), LocAfter(s, t, call, a.loc), AgentAfter(s, t, a.agent))
  }

  /** What the invariant says about the thread that moves: the lock... */
  predicate TokenFacts(s: State, t: Tid, a: Aux)
    requires WellFormed(s) && t < |s.pc|
  {
    var p := s.pc[t];
    && (s.m.owner == Thread(t) || Carries(p, s.woken[t]) <==> a.token == At(t))
    && (s.m.owner.Thread? ==> a.token == At(s.m.owner.t))
    && (s.m.handoff != 0 <==> a.token == Parked) && (s.m.count == 0 <==> a.token == Free)
    && (p.UClear? || p.LUndo? ==> s.m.owner == Thread(t))
    && (s.m.owner == Thread(t) ==> OwnerPc(p) && (if p.UClear? then s.m.depth == 0 else s.m.depth >= 1))
    && (Remembers(p) || p.UStore? ==> p.h != 0)
    && s.held[t] == (if s.m.owner == Thread(t) then s.m.depth else 0)
  }

  /** ... and the wait records it deals with. */
  predicate RecordFacts(s: State, t: Tid, a: Aux)
    requires WellFormed(s) && t < |s.pc|
  {
    var p, q := s.pc[t], s.m.queue;
    && |a.loc| == |s.pc| && LocalOk(p, s.woken[t], a.loc[t])
    && (p.Wake? ==>
          && p.other < |s.pc| && p.other != t && a.loc[p.other] == Popped(t)
          && LocalOk(s.pc[p.other], s.woken[p.other], a.loc[p.other]))
    && (p.SPush? ==>
          && p.w < |s.pc| && p.w != t && a.loc[p.w] == Pushing(t)
          && LocalOk(s.pc[p.w], s.woken[p.w], a.loc[p.w]))
    && (q != [] ==>
          && q[0] < |s.pc| && a.loc[q[0]].InQueue? && LocalOk(s.pc[q[0]], s.woken[q[0]], a.loc[q[0]])
          && (p.Pop? && q[0] != t ==> !s.pc[q[0]].Pop? && !s.pc[q[0]].Wake?))
    && (p.Pop? && !p.who.Unlocker? ==> q != [])
    && (a.loc[t].Popped? || a.loc[t].Woken? ==> a.token != Parked)
  }

  lemma TokenFactsHold(s: State, t: Tid, a: Aux)
    requires WellFormed(s) && t < |s.pc|
    requires TokenOk(s, a.token) && CountOk(s, a.token) && OwnerOk(s) && SequenceOk(s, a.token)
    ensures TokenFacts(s, t, a)
  {}

  lemma HeadFactsHold(s: State, t: Tid, a: Aux)
    requires WellFormed(s) && t < |s.pc| && TokenOk(s, a.token) && s.m.queue != []
    requires LocOk(s.pc, s.woken, a.loc) && QueueOk(s.m.queue, a.loc)
    ensures var w := s.m.queue[0];
            && w < |s.pc| && a.loc[w].InQueue? && LocalOk(s.pc[w], s.woken[w], a.loc[w])
            && (s.pc[t].Pop? && w != t ==> !s.pc[w].Pop? && !s.pc[w].Wake?)
  {}

  lemma RecordFactsHold(s: State, t: Tid, a: Aux)
    requires WellFormed(s) && t < |s.pc| && TokenOk(s, a.token) && PcOk(s)
    requires LocOk(s.pc, s.woken, a.loc) && QueueOk(s.m.queue, a.loc) && SenderOk(s)
    ensures RecordFacts(s, t, a)
  {
    if s.m.queue != [] {
      HeadFactsHold(s, t, a);
    }
  }

  lemma {:induction false} RequestersUpdate(pc: seq<Pc>, t: Tid, p: Pc)
    requires t < |pc|
    ensures Requesters(pc[t := p]) ==
            Requesters(pc) + (if Requests(p) then 1 else 0) - (if Requests(pc[t]) then 1 else 0)
  {
    var n := |pc| - 1;
    if t == n {
      assert pc[t := p][..n] == pc[..n];
    } else {
      assert pc[t := p][..n] == pc[..n][t := p];
      RequestersUpdate(pc[..n], t, p);
    }
  }

  /** Thread t moves to p without touching a record. */
  lemma LocMove(pc: seq<Pc>, woken: seq<bool>, loc: seq<Loc>, t: Tid, p: Pc)
    requires LocOk(pc, woken, loc) && t < |pc|
    requires !pc[t].Wake? && !pc[t].SPush? && !p.Wake? && !p.SPush? && LocalOk(p, woken[t], loc[t])
    ensures LocOk(pc[t := p], woken, loc)
  {}

  /** Thread t moves to p and takes the record of w from wherever it has it to l. */
  lemma LocTake(pc: seq<Pc>, woken: seq<bool>, loc: seq<Loc>, t: Tid, p: Pc, w: Tid, l: Loc, k: bool)
    requires LocOk(pc, woken, loc) && t < |pc| && w < |pc|
    requires loc[w].Popped? || loc[w].Pushing? ==> loc[w].via == t
    requires (pc[t].Wake? ==> pc[t].other == w) && (pc[t].SPush? ==> pc[t].w == w)
    requires LocalOk(p, woken[w := k][t], loc[w := l][t])
    requires w != t ==> LocalOk(pc[w], k, l)
    requires (p.Wake? <==> l.Popped?) && (p.Wake? ==> p.other == w && l.via == t)
    requires (p.SPush? <==> l.Pushing?) && (p.SPush? ==> p.w == w && l.via == t)
    ensures LocOk(pc[t := p], woken[w := k], loc[w := l])
  {}

  /** Steps on the plain fields move no record. */
  lemma OwnMoves(s: State, s': State, t: Tid)
    requires WellFormed(s) && t < |s.pc| && StepOwn(s, t) == Some(s')
    ensures s'.pc == s.pc[t := s'.pc[t]] && s'.woken == s.woken
    ensures forall w, l :: LocalOk(s.pc[t], w, l) ==> LocalOk(s'.pc[t], w, l)
    ensures !s.pc[t].Wake? && !s.pc[t].SPush? && !s'.pc[t].Wake? && !s'.pc[t].SPush?
  {}

  /** Thread t starts to send the lock to w, asleep on a condvar. */
  lemma LocHandTo(pc: seq<Pc>, woken: seq<bool>, loc: seq<Loc>, t: Tid, p: Pc, w: Tid, l: Loc)
    requires LocOk(pc, woken, loc) && t < |pc| && w < |pc| && pc[t].Idle? && pc[w] == CWait(false)
    requires (p == Wake(Sender, w) && l == Popped(t)) || (p == SPush(w) && l == Pushing(t))
    ensures LocOk(pc[w := CWait(true)][t := p], woken, loc[w := l])
  {}

  /** Thread t moves; the lock does not. */
  lemma PlaceMove(owner: Owner, pc: seq<Pc>, woken: seq<bool>, k: Token, t: Tid, p: Pc)
    requires PlaceOk(owner, pc, woken, k) && t < |pc|
    requires Carries(p, woken[t]) == Carries(pc[t], woken[t])
    ensures PlaceOk(owner, pc[t := p], woken, k)
  {}

  /** Thread t gets the lock, from nowhere or from a parked hand-off. */
  lemma PlaceGain(owner: Owner, pc: seq<Pc>, woken: seq<bool>, k: Token, t: Tid, p: Pc)
    requires PlaceOk(owner, pc, woken, k) && t < |pc| && !k.At? && Carries(p, woken[t])
    ensures PlaceOk(owner, pc[t := p], woken, At(t))
  {}

  /** Thread t, not the recorded owner, gives the lock up. */
  lemma PlaceLose(owner: Owner, pc: seq<Pc>, woken: seq<bool>, k: Token, t: Tid, p: Pc, k': Token)
    requires PlaceOk(owner, pc, woken, k) && t < |pc| && Carries(pc[t], woken[t])
    requires !owner.Thread? && !Carries(p, woken[t]) && !k'.At?
    ensures PlaceOk(owner, pc[t := p], woken, k')
  {}

  /** Thread t hands the lock to thread o by waking its record. */
  lemma PlaceGive(owner: Owner, pc: seq<Pc>, woken: seq<bool>, k: Token, t: Tid, p: Pc, o: Tid)
    requires PlaceOk(owner, pc, woken, k) && t < |pc| && o < |pc| && o != t && Carries(pc[t], woken[t])
    requires !owner.Thread? && !Carries(p, woken[t]) && Carries(pc[o], true)
    ensures PlaceOk(owner, pc[t := p], woken[o := true], At(o))
  {}

  /** A record changes place outside the queue. */
  lemma QueueMove(q: seq<Tid>, loc: seq<Loc>, w: Tid, l: Loc)
    requires QueueOk(q, loc) && w < |loc| && !loc[w].InQueue? && !l.InQueue?
    ensures QueueOk(q, loc[w := l])
  {}

  lemma QueueAppend(q: seq<Tid>, loc: seq<Loc>, w: Tid)
    requires QueueOk(q, loc) && w < |loc| && !loc[w].InQueue?
    ensures QueueOk(q + [w], loc[w := InQueue])
  {
    assert (q + [w])[|q|] == w;
    forall v | 0 <= v < |loc| && loc[w := InQueue][v].InQueue? ensures v in q + [w] {
      assert v == w || v in q;
    }
  }

  lemma QueueTakeFirst(q: seq<Tid>, loc: seq<Loc>, l: Loc)
    requires QueueOk(q, loc) && q != [] && !l.InQueue?
    ensures q[0] < |loc| && QueueOk(q[1..], loc[q[0] := l])
  {
    forall v | 0 <= v < |loc| && loc[q[0] := l][v].InQueue? ensures v in q[1..] {
      assert v in q && v != q[0];
    }
  }

  lemma TokenCall(s: State, s': State, t: Tid, call: Call, a: Aux)
    requires WellFormed(s) && t < |s.pc| && s.pc[t].Idle? && StepCall(s, t, call) == Some(s')
    requires TokenOk(s, a.token) && TokenFacts(s, t, a)
    ensures TokenOk(s', TokenAfter(s, t, call, a.token))
  {
    if s.m.count == 0 && (call.Lock? || call.TryLock?) {
      PlaceGain(s.m.owner, s.pc, s.woken, a.token, t, s'.pc[t]);
    } else if !call.CondWait? {
      PlaceMove(s.m.owner, s.pc, s.woken, a.token, t, s'.pc[t]);
    }
  }

  lemma TokenSendCall(s: State, s': State, t: Tid, call: Call, a: Aux)
    requires WellFormed(s) && t < |s.pc| && s.pc[t].Idle? && call.SendLock? && StepSendLock(s, t, call.w) == Some(s')
    requires TokenOk(s, a.token) && TokenFacts(s, t, a)
    ensures TokenOk(s', TokenAfter(s, t, call, a.token))
  {
    PlaceMove(s.m.owner, s.pc, s.woken, a.token, call.w, CWait(true));
    var pc := s.pc[call.w := CWait(true)];
    if s.m.count == 0 {
      PlaceGain(s.m.owner, pc, s.woken, a.token, t, s'.pc[t]);
    } else {
      PlaceMove(s.m.owner, pc, s.woken, a.token, t, s'.pc[t]);
    }
  }

  lemma TokenOwn(s: State, s': State, t: Tid, call: Call, a: Aux)
    requires WellFormed(s) && t < |s.pc| && StepOwn(s, t) == Some(s')
    requires TokenOk(s, a.token) && TokenFacts(s, t, a)
    ensures TokenOk(s', TokenAfter(s, t, call, a.token))
  {
    if s.pc[t].UStore? {
      PlaceLose(s.m.owner, s.pc, s.woken, a.token, t, s'.pc[t], Parked);
    } else if s.pc[t].UDecr? && s.m.count == 1 {
      PlaceLose(s.m.owner, s.pc, s.woken, a.token, t, s'.pc[t], Free);
    } else if !s.pc[t].UClear? && !s.pc[t].Adopt? {
      PlaceMove(s.m.owner, s.pc, s.woken, a.token, t, s'.pc[t]);
    }
  }

  lemma TokenWait(s: State, s': State, t: Tid, call: Call, a: Aux)
    requires WellFormed(s) && t < |s.pc| && StepWait(s, t) == Some(s')
    requires TokenOk(s, a.token) && TokenFacts(s, t, a) && RecordFacts(s, t, a)
    ensures TokenOk(s', TokenAfter(s, t, call, a.token))
  {
    if !s.pc[t].LPush? {
      PlaceMove(s.m.owner, s.pc, s.woken, a.token, t, s'.pc[t]);
    }
  }

  lemma TokenHand(s: State, s': State, t: Tid, call: Call, a: Aux)
    requires WellFormed(s) && t < |s.pc| && StepHand(s, t) == Some(s')
    requires TokenOk(s, a.token) && TokenFacts(s, t, a) && PcOk(s)
    ensures TokenOk(s', TokenAfter(s, t, call, a.token))
  {
    if s.pc[t].Cas? && s.m.handoff == s.pc[t].h {
      PlaceGain(s.m.owner, s.pc, s.woken, a.token, t, s'.pc[t]);
    } else {
      PlaceMove(s.m.owner, s.pc, s.woken, a.token, t, s'.pc[t]);
    }
  }

  lemma TokenPop(s: State, s': State, t: Tid, call: Call, a: Aux)
    requires WellFormed(s) && t < |s.pc| && StepPop(s, t) == Some(s')
    requires TokenOk(s, a.token) && TokenFacts(s, t, a) && RecordFacts(s, t, a)
    ensures TokenOk(s', TokenAfter(s, t, call, a.token))
  {
    if s.pc[t].Wake? {
      PlaceGive(s.m.owner, s.pc, s.woken, a.token, t, s'.pc[t], s.pc[t].other);
    } else {
      PlaceMove(s.m.owner, s.pc, s.woken, a.token, t, s'.pc[t]);
    }
  }

  lemma TokenStep(s: State, s': State, t: Tid, call: Call, a: Aux)
    requires WellFormed(s) && t < |s.pc| && Step(s, t, call) == Some(s')
    requires TokenOk(s, a.token) && TokenFacts(s, t, a) && RecordFacts(s, t, a) && PcOk(s)
    ensures TokenOk(s', TokenAfter(s, t, call, a.token))
  {
    match PartOf(s.pc[t]) {
      case InCall =>
        if call.SendLock? { TokenSendCall(s, s', t, call, a); } else { TokenCall(s, s', t, call, a); }
      case InOwn => TokenOwn(s, s', t, call, a);
      case InWait => TokenWait(s, s', t, call, a);
      case InHand => TokenHand(s, s', t, call, a);
      case InPop => TokenPop(s, s', t, call, a);
      case Stuck =>
    }
  }

  lemma CountCall(s: State, s': State, t: Tid, call: Call, a: Aux)
    requires WellFormed(s) && t < |s.pc| && s.pc[t].Idle? && StepCall(s, t, call) == Some(s')
    requires CountOk(s, a.token) && TokenFacts(s, t, a)
    ensures CountOk(s', TokenAfter(s, t, call, a.token))
  {
    RequestersUpdate(s.pc, t, s'.pc[t]);
  }

  lemma CountSendCall(s: State, s': State, t: Tid, call: Call, a: Aux)
    requires WellFormed(s) && t < |s.pc| && s.pc[t].Idle? && call.SendLock? && StepSendLock(s, t, call.w) == Some(s')
    requires CountOk(s, a.token) && TokenFacts(s, t, a)
    ensures CountOk(s', TokenAfter(s, t, call, a.token))
  {
    RequestersUpdate(s.pc, call.w, CWait(true));
    RequestersUpdate(s.pc[call.w := CWait(true)], t, s'.pc[t]);
  }

  lemma CountOwn(s: State, s': State, t: Tid, call: Call, a: Aux)
    requires WellFormed(s) && t < |s.pc| && StepOwn(s, t) == Some(s')
    requires CountOk(s, a.token) && TokenFacts(s, t, a)
    ensures CountOk(s', TokenAfter(s, t, call, a.token))
  {
    RequestersUpdate(s.pc, t, s'.pc[t]);
  }

  lemma CountWait(s: State, s': State, t: Tid, call: Call, a: Aux)
    requires WellFormed(s) && t < |s.pc| && StepWait(s, t) == Some(s')
    requires CountOk(s, a.token) && TokenFacts(s, t, a)
    ensures CountOk(s', TokenAfter(s, t, call, a.token))
  {
    RequestersUpdate(s.pc, t, s'.pc[t]);
  }

  lemma CountHand(s: State, s': State, t: Tid, call: Call, a: Aux)
    requires WellFormed(s) && t < |s.pc| && StepHand(s, t) == Some(s')
    requires CountOk(s, a.token) && TokenFacts(s, t, a) && PcOk(s)
    ensures CountOk(s', TokenAfter(s, t, call, a.token))
  {
    RequestersUpdate(s.pc, t, s'.pc[t]);
  }

  lemma CountPop(s: State, s': State, t: Tid, call: Call, a: Aux)
    requires WellFormed(s) && t < |s.pc| && StepPop(s, t) == Some(s')
    requires CountOk(s, a.token) && TokenFacts(s, t, a) && RecordFacts(s, t, a)
    ensures CountOk(s', TokenAfter(s, t, call, a.token))
  {
    RequestersUpdate(s.pc, t, s'.pc[t]);
  }

  lemma CountStep(s: State, s': State, t: Tid, call: Call, a: Aux)
    requires WellFormed(s) && t < |s.pc| && Step(s, t, call) == Some(s')
    requires CountOk(s, a.token) && TokenFacts(s, t, a) && PcOk(s) && RecordFacts(s, t, a)
    ensures CountOk(s', TokenAfter(s, t, call, a.token))
  {
    match PartOf(s.pc[t]) {
      case InCall =>
        if call.SendLock? { CountSendCall(s, s', t, call, a); } else { CountCall(s, s', t, call, a); }
      case InOwn => CountOwn(s, s', t, call, a);
      case InWait => CountWait(s, s', t, call, a);
      case InHand => CountHand(s, s', t, call, a);
      case InPop => CountPop(s, s', t, call, a);
      case Stuck =>
    }
  }

  lemma OwnerCall(s: State, s': State, t: Tid, call: Call, a: Aux)
    requires WellFormed(s) && t < |s.pc| && s.pc[t].Idle? && StepCall(s, t, call) == Some(s')
    requires OwnerOk(s) && TokenFacts(s, t, a)
    ensures OwnerOk(s')
  {
  }

  lemma OwnerSendCall(s: State, s': State, t: Tid, call: Call, a: Aux)
    requires WellFormed(s) && t < |s.pc| && s.pc[t].Idle? && call.SendLock? && StepSendLock(s, t, call.w) == Some(s')
    requires OwnerOk(s) && TokenFacts(s, t, a)
    ensures OwnerOk(s')
  {
  }

  lemma OwnerOwn(s: State, s': State, t: Tid, call: Call, a: Aux)
    requires WellFormed(s) && t < |s.pc| && StepOwn(s, t) == Some(s')
    requires OwnerOk(s) && TokenFacts(s, t, a)
    ensures OwnerOk(s')
  {
  }

  lemma OwnerWait(s: State, s': State, t: Tid, call: Call, a: Aux)
    requires WellFormed(s) && t < |s.pc| && StepWait(s, t) == Some(s')
    requires OwnerOk(s) && TokenFacts(s, t, a)
    ensures OwnerOk(s')
  {
  }

  lemma OwnerHand(s: State, s': State, t: Tid, call: Call, a: Aux)
    requires WellFormed(s) && t < |s.pc| && StepHand(s, t) == Some(s')
    requires OwnerOk(s) && TokenFacts(s, t, a)
    ensures OwnerOk(s')
  {
  }

  lemma OwnerPop(s: State, s': State, t: Tid, call: Call, a: Aux)
    requires WellFormed(s) && t < |s.pc| && StepPop(s, t) == Some(s')
    requires OwnerOk(s) && TokenFacts(s, t, a)
    ensures OwnerOk(s')
  {
  }

  lemma OwnerStep(s: State, s': State, t: Tid, call: Call, a: Aux)
    requires WellFormed(s) && t < |s.pc| && Step(s, t, call) == Some(s')
    requires OwnerOk(s) && TokenFacts(s, t, a)
    ensures OwnerOk(s')
  {
    match PartOf(s.pc[t]) {
      case InCall =>
        if call.SendLock? { OwnerSendCall(s, s', t, call, a); } else { OwnerCall(s, s', t, call, a); }
      case InOwn => OwnerOwn(s, s', t, call, a);
      case InWait => OwnerWait(s, s', t, call, a);
      case InHand => OwnerHand(s, s', t, call, a);
      case InPop => OwnerPop(s, s', t, call, a);
      case Stuck =>
    }
  }

  lemma LocCall(s: State, s': State, t: Tid, call: Call, a: Aux)
    requires WellFormed(s) && t < |s.pc| && s.pc[t].Idle? && StepCall(s, t, call) == Some(s')
    requires LocOk(s.pc, s.woken, a.loc) && RecordFacts(s, t, a)
    ensures LocOk(s'.pc, s'.woken, LocAfter(s, t, call, a.loc))
  {
    if call.CondWait? {
      LocTake(s.pc, s.woken, a.loc, t, s'.pc[t], t, Unsent, false);
    } else {
      LocMove(s.pc, s.woken, a.loc, t, s'.pc[t]);
    }
  }

  lemma LocSendCall(s: State, s': State, t: Tid, call: Call, a: Aux)
    requires WellFormed(s) && t < |s.pc| && s.pc[t].Idle? && call.SendLock? && StepSendLock(s, t, call.w) == Some(s')
    requires LocOk(s.pc, s.woken, a.loc) && RecordFacts(s, t, a)
    ensures LocOk(s'.pc, s'.woken, LocAfter(s, t, call, a.loc))
  {
    LocHandTo(s.pc, s.woken, a.loc, t, s'.pc[t], call.w, if s.m.count == 0 then Popped(t) else Pushing(t));
  }

  lemma LocOwn(s: State, s': State, t: Tid, call: Call, a: Aux)
    requires WellFormed(s) && t < |s.pc| && StepOwn(s, t) == Some(s')
    requires LocOk(s.pc, s.woken, a.loc) && RecordFacts(s, t, a)
    ensures LocOk(s'.pc, s'.woken, LocAfter(s, t, call, a.loc))
  {
    OwnMoves(s, s', t);
    assert LocAfter(s, t, call, a.loc) == a.loc;
    LocMove(s.pc, s.woken, a.loc, t, s'.pc[t]);
  }

  lemma LocWait(s: State, s': State, t: Tid, call: Call, a: Aux)
    requires WellFormed(s) && t < |s.pc| && StepWait(s, t) == Some(s')
    requires LocOk(s.pc, s.woken, a.loc) && RecordFacts(s, t, a)
    ensures LocOk(s'.pc, s'.woken, LocAfter(s, t, call, a.loc))
  {
    if s.pc[t].LPush? {
      LocTake(s.pc, s.woken, a.loc, t, s'.pc[t], t, InQueue, false);
    } else if s.pc[t].SPush? {
      var w := s.pc[t].w;
      LocTake(s.pc, s.woken, a.loc, t, s'.pc[t], w, InQueue, s.woken[w]);
      assert s.woken[w := s.woken[w]] == s.woken;
    } else {
      LocTake(s.pc, s.woken, a.loc, t, s'.pc[t], t, NoRecord, s.woken[t]);
      assert s.woken[t := s.woken[t]] == s.woken;
    }
  }

  lemma LocHand(s: State, s': State, t: Tid, call: Call, a: Aux)
    requires WellFormed(s) && t < |s.pc| && StepHand(s, t) == Some(s')
    requires LocOk(s.pc, s.woken, a.loc) && TokenFacts(s, t, a) && RecordFacts(s, t, a)
    ensures LocOk(s'.pc, s'.woken, LocAfter(s, t, call, a.loc))
  {
    LocMove(s.pc, s.woken, a.loc, t, s'.pc[t]);
  }

  lemma LocPop(s: State, s': State, t: Tid, call: Call, a: Aux)
    requires WellFormed(s) && t < |s.pc| && StepPop(s, t) == Some(s')
    requires LocOk(s.pc, s.woken, a.loc) && RecordFacts(s, t, a)
    ensures LocOk(s'.pc, s'.woken, LocAfter(s, t, call, a.loc))
  {
    if s.pc[t].Wake? {
      LocTake(s.pc, s.woken, a.loc, t, s'.pc[t], s.pc[t].other, Woken, true);
    } else if s.m.queue != [] {
      var w := s.m.queue[0];
      LocTake(s.pc, s.woken, a.loc, t, s'.pc[t], w, if s.pc[t].who.Locker? && w == t then NoRecord else Popped(t), s.woken[w]);
      assert s.woken[w := s.woken[w]] == s.woken;
    } else {
      LocMove(s.pc, s.woken, a.loc, t, s'.pc[t]);
    }
  }

  lemma LocStep(s: State, s': State, t: Tid, call: Call, a: Aux)
    requires WellFormed(s) && t < |s.pc| && Step(s, t, call) == Some(s')
    requires LocOk(s.pc, s.woken, a.loc) && RecordFacts(s, t, a) && TokenFacts(s, t, a)
    ensures LocOk(s'.pc, s'.woken, LocAfter(s, t, call, a.loc))
  {
    match PartOf(s.pc[t]) {
      case InCall =>
        if call.SendLock? { LocSendCall(s, s', t, call, a); } else { LocCall(s, s', t, call, a); }
      case InOwn => LocOwn(s, s', t, call, a);
      case InWait => LocWait(s, s', t, call, a);
      case InHand => LocHand(s, s', t, call, a);
      case InPop => LocPop(s, s', t, call, a);
      case Stuck =>
    }
  }

  lemma QueueCall(s: State, s': State, t: Tid, call: Call, a: Aux)
    requires WellFormed(s) && t < |s.pc| && s.pc[t].Idle? && StepCall(s, t, call) == Some(s')
    requires QueueOk(s.m.queue, a.loc) && RecordFacts(s, t, a)
    ensures QueueOk(s'.m.queue, LocAfter(s, t, call, a.loc))
  {
    if call.CondWait? {
      QueueMove(s.m.queue, a.loc, t, Unsent);
    }
  }

  lemma QueueSendCall(s: State, s': State, t: Tid, call: Call, a: Aux)
    requires WellFormed(s) && t < |s.pc| && s.pc[t].Idle? && call.SendLock? && StepSendLock(s, t, call.w) == Some(s')
    requires QueueOk(s.m.queue, a.loc) && LocOk(s.pc, s.woken, a.loc)
    ensures QueueOk(s'.m.queue, LocAfter(s, t, call, a.loc))
  {
    QueueMove(s.m.queue, a.loc, call.w, if s.m.count == 0 then Popped(t) else Pushing(t));
  }

  lemma QueueOwn(s: State, s': State, t: Tid, call: Call, a: Aux)
    requires WellFormed(s) && t < |s.pc| && StepOwn(s, t) == Some(s')
    requires QueueOk(s.m.queue, a.loc) && RecordFacts(s, t, a)
    ensures QueueOk(s'.m.queue, LocAfter(s, t, call, a.loc))
  {
    OwnMoves(s, s', t);
    assert LocAfter(s, t, call, a.loc) == a.loc && s'.m.queue == s.m.queue;
  }

  lemma QueueWait(s: State, s': State, t: Tid, call: Call, a: Aux)
    requires WellFormed(s) && t < |s.pc| && StepWait(s, t) == Some(s')
    requires QueueOk(s.m.queue, a.loc) && RecordFacts(s, t, a)
    ensures QueueOk(s'.m.queue, LocAfter(s, t, call, a.loc))
  {
    if s.pc[t].LPush? {
      QueueAppend(s.m.queue, a.loc, t);
    } else if s.pc[t].SPush? {
      QueueAppend(s.m.queue, a.loc, s.pc[t].w);
    } else {
      QueueMove(s.m.queue, a.loc, t, NoRecord);
    }
  }

  lemma QueueHand(s: State, s': State, t: Tid, call: Call, a: Aux)
    requires WellFormed(s) && t < |s.pc| && StepHand(s, t) == Some(s')
    requires QueueOk(s.m.queue, a.loc) && RecordFacts(s, t, a)
    ensures QueueOk(s'.m.queue, LocAfter(s, t, call, a.loc))
  {
  }

  lemma QueuePop(s: State, s': State, t: Tid, call: Call, a: Aux)
    requires WellFormed(s) && t < |s.pc| && StepPop(s, t) == Some(s')
    requires QueueOk(s.m.queue, a.loc) && RecordFacts(s, t, a)
    ensures QueueOk(s'.m.queue, LocAfter(s, t, call, a.loc))
  {
    if s.pc[t].Wake? {
      QueueMove(s.m.queue, a.loc, s.pc[t].other, Woken);
    } else if s.m.queue != [] {
      QueueTakeFirst(s.m.queue, a.loc, if s.pc[t].who.Locker? && s.m.queue[0] == t then NoRecord else Popped(t));
    }
  }

  lemma QueueStep(s: State, s': State, t: Tid, call: Call, a: Aux)
    requires WellFormed(s) && t < |s.pc| && Step(s, t, call) == Some(s')
    requires QueueOk(s.m.queue, a.loc) && RecordFacts(s, t, a) && LocOk(s.pc, s.woken, a.loc)
    ensures QueueOk(s'.m.queue, LocAfter(s, t, call, a.loc))
  {
    match PartOf(s.pc[t]) {
      case InCall =>
        if call.SendLock? { QueueSendCall(s, s', t, call, a); } else { QueueCall(s, s', t, call, a); }
      case InOwn => QueueOwn(s, s', t, call, a);
      case InWait => QueueWait(s, s', t, call, a);
      case InHand => QueueHand(s, s', t, call, a);
      case InPop => QueuePop(s, s', t, call, a);
      case Stuck =>
    }
  }

  lemma SequenceCall(s: State, s': State, t: Tid, call: Call, a: Aux)
    requires WellFormed(s) && t < |s.pc| && s.pc[t].Idle? && StepCall(s, t, call) == Some(s')
    requires SequenceOk(s, a.token) && TokenFacts(s, t, a)
    ensures SequenceOk(s', TokenAfter(s, t, call, a.token))
  {
  }

  lemma SequenceSendCall(s: State, s': State, t: Tid, call: Call, a: Aux)
    requires WellFormed(s) && t < |s.pc| && s.pc[t].Idle? && call.SendLock? && StepSendLock(s, t, call.w) == Some(s')
    requires SequenceOk(s, a.token) && TokenFacts(s, t, a)
    ensures SequenceOk(s', TokenAfter(s, t, call, a.token))
  {
  }

  lemma SequenceOwn(s: State, s': State, t: Tid, call: Call, a: Aux)
    requires WellFormed(s) && t < |s.pc| && StepOwn(s, t) == Some(s')
    requires SequenceOk(s, a.token) && TokenFacts(s, t, a)
    ensures SequenceOk(s', TokenAfter(s, t, call, a.token))
  {
  }

  lemma SequenceWait(s: State, s': State, t: Tid, call: Call, a: Aux)
    requires WellFormed(s) && t < |s.pc| && StepWait(s, t) == Some(s')
    requires SequenceOk(s, a.token) && TokenFacts(s, t, a)
    ensures SequenceOk(s', TokenAfter(s, t, call, a.token))
  {
  }

  lemma SequenceHand(s: State, s': State, t: Tid, call: Call, a: Aux)
    requires WellFormed(s) && t < |s.pc| && StepHand(s, t) == Some(s')
    requires SequenceOk(s, a.token) && TokenFacts(s, t, a)
    ensures SequenceOk(s', TokenAfter(s, t, call, a.token))
  {
  }

  lemma SequencePop(s: State, s': State, t: Tid, call: Call, a: Aux)
    requires WellFormed(s) && t < |s.pc| && StepPop(s, t) == Some(s')
    requires SequenceOk(s, a.token) && TokenFacts(s, t, a) && RecordFacts(s, t, a)
    ensures SequenceOk(s', TokenAfter(s, t, call, a.token))
  {
  }

  lemma SequenceStep(s: State, s': State, t: Tid, call: Call, a: Aux)
    requires WellFormed(s) && t < |s.pc| && Step(s, t, call) == Some(s')
    requires SequenceOk(s, a.token) && TokenFacts(s, t, a) && RecordFacts(s, t, a)
    ensures SequenceOk(s', TokenAfter(s, t, call, a.token))
  {
    match PartOf(s.pc[t]) {
      case InCall =>
        if call.SendLock? { SequenceSendCall(s, s', t, call, a); } else { SequenceCall(s, s', t, call, a); }
      case InOwn => SequenceOwn(s, s', t, call, a);
      case InWait => SequenceWait(s, s', t, call, a);
      case InHand => SequenceHand(s, s', t, call, a);
      case InPop => SequencePop(s, s', t, call, a);
      case Stuck =>
    }
  }

  lemma GuardCall(s: State, s': State, t: Tid, call: Call, a: Aux)
    requires WellFormed(s) && t < |s.pc| && s.pc[t].Idle? && StepCall(s, t, call) == Some(s')
    requires SenderOk(s) && HandoffOk(s, a.agent) && PcOk(s) && SequenceOk(s, a.token) && TokenFacts(s, t, a)
    ensures SenderOk(s') && HandoffOk(s', AgentAfter(s, t, a.agent)) && PcOk(s')
  {
  }

  lemma GuardSendCall(s: State, s': State, t: Tid, call: Call, a: Aux)
    requires WellFormed(s) && t < |s.pc| && s.pc[t].Idle? && call.SendLock? && StepSendLock(s, t, call.w) == Some(s')
    requires SenderOk(s) && HandoffOk(s, a.agent) && PcOk(s) && SequenceOk(s, a.token) && TokenFacts(s, t, a)
    ensures SenderOk(s') && HandoffOk(s', AgentAfter(s, t, a.agent)) && PcOk(s')
  {
  }

  lemma GuardOwn(s: State, s': State, t: Tid, call: Call, a: Aux)
    requires WellFormed(s) && t < |s.pc| && StepOwn(s, t) == Some(s')
    requires SenderOk(s) && HandoffOk(s, a.agent) && PcOk(s) && SequenceOk(s, a.token) && TokenFacts(s, t, a)
    ensures SenderOk(s') && HandoffOk(s', AgentAfter(s, t, a.agent)) && PcOk(s')
  {
  }

  lemma GuardWait(s: State, s': State, t: Tid, call: Call, a: Aux)
    requires WellFormed(s) && t < |s.pc| && StepWait(s, t) == Some(s')
    requires SenderOk(s) && HandoffOk(s, a.agent) && PcOk(s) && SequenceOk(s, a.token) && TokenFacts(s, t, a)
    ensures SenderOk(s') && HandoffOk(s', AgentAfter(s, t, a.agent)) && PcOk(s')
  {
  }

  lemma GuardHand(s: State, s': State, t: Tid, call: Call, a: Aux)
    requires WellFormed(s) && t < |s.pc| && StepHand(s, t) == Some(s')
    requires SenderOk(s) && HandoffOk(s, a.agent) && PcOk(s) && SequenceOk(s, a.token) && TokenFacts(s, t, a)
    ensures SenderOk(s') && HandoffOk(s', AgentAfter(s, t, a.agent)) && PcOk(s')
  {
  }

  lemma GuardPop(s: State, s': State, t: Tid, call: Call, a: Aux)
    requires WellFormed(s) && t < |s.pc| && StepPop(s, t) == Some(s')
    requires SenderOk(s) && HandoffOk(s, a.agent) && PcOk(s) && TokenOk(s, a.token) && SequenceOk(s, a.token) && TokenFacts(s, t, a) && RecordFacts(s, t, a)
    ensures SenderOk(s') && HandoffOk(s', AgentAfter(s, t, a.agent)) && PcOk(s')
  {
  }

  lemma GuardStep(s: State, s': State, t: Tid, call: Call, a: Aux)
    requires WellFormed(s) && t < |s.pc| && Step(s, t, call) == Some(s')
    requires SenderOk(s) && HandoffOk(s, a.agent) && PcOk(s) && SequenceOk(s, a.token) && TokenFacts(s, t, a) && TokenOk(s, a.token) && RecordFacts(s, t, a)
    ensures SenderOk(s') && HandoffOk(s', AgentAfter(s, t, a.agent)) && PcOk(s')
  {
    match PartOf(s.pc[t]) {
      case InCall =>
        if call.SendLock? { GuardSendCall(s, s', t, call, a); } else { GuardCall(s, s', t, call, a); }
      case InOwn => GuardOwn(s, s', t, call, a);
      case InWait => GuardWait(s, s', t, call, a);
      case InHand => GuardHand(s, s', t, call, a);
      case InPop => GuardPop(s, s', t, call, a);
      case Stuck =>
    }
  }

  lemma StepKeeps(s: State, t: Tid, call: Call, a: Aux)
    requires InvWith(s, a) && t < |s.pc| && Step(s, t, call).Some?
    ensures InvWith(Step(s, t, call).value, AuxAfter(s, t, call, a))
  {
    var s' := Step(s, t, call).value;
    TokenFactsHold(s, t, a);
    RecordFactsHold(s, t, a);
    TokenStep(s, s', t, call, a);
    CountStep(s, s', t, call, a);
    OwnerStep(s, s', t, call, a);
    LocStep(s, s', t, call, a);
    QueueStep(s, s', t, call, a);
    SequenceStep(s, s', t, call, a);
    GuardStep(s, s', t, call, a);
  }

  lemma {:induction false} NoRequesters(pc: seq<Pc>)
    requires forall t :: 0 <= t < |pc| ==> pc[t].Idle?
    ensures Requesters(pc) == 0
  {
    if pc != [] {
      NoRequesters(pc[..|pc| - 1]);
    }
  }

  lemma InitInv(s: State)
    requires Init(s)
    ensures Inv(s)
  {
    NoRequesters(s.pc);
    assert InvWith(s, Aux(Free, seq(|s.pc|, _ => NoRecord), 0));
  }

  /** Every state of every run satisfies the invariant. */
  lemma {:induction false} RunKeeps(run: seq<State>, i: nat)
    requires Run(run) && i < |run|
    ensures Inv(run[i])
  {
    if i == 0 {
      InitInv(run[0]);
    } else {
      RunKeeps(run, i - 1);
      var a :| InvWith(run[i - 1], a);
      assert Next(run[i - 1], run[i - 1 + 1]);
      var t: Tid, call :| t < |run[i - 1].pc| && Step(run[i - 1], t, call) == Some(run[i]);
      StepKeeps(run[i - 1], t, call, a);
    }
  }

  // ------------------------------------------------------------------ main results

  /** Thread t has the lock. */
  predicate Holds(s: State, t: Tid)
    requires WellFormed(s)
  {
    t < |s.pc| && (s.m.owner == Thread(t) || Carries(s.pc[t], s.woken[t]))
  }

  /** The lock is in exactly one place: free (count is 0), parked in handoff, or with one thread. */
  lemma LockInOnePlace(run: seq<State>, i: nat)
    requires Run(run) && i < |run|
    ensures WellFormed(run[i])
    ensures run[i].m.count == 0 ==> run[i].m.handoff == 0 && forall t :: !Holds(run[i], t)
    ensures run[i].m.handoff != 0 ==> forall t :: !Holds(run[i], t)
    ensures run[i].m.count != 0 && run[i].m.handoff == 0 ==>
              exists t :: Holds(run[i], t) && forall u :: Holds(run[i], u) ==> u == t
  {
    RunKeeps(run, i);
    var s := run[i];
    var a :| InvWith(s, a);
    if s.m.count != 0 && s.m.handoff == 0 {
      assert Holds(s, a.token.t);
    }
  }

  /** Two threads never have the lock together, and the recorded owner is the one that has it; two
      threads never have acquisitions of the mutex outstanding together. */
  lemma MutualExclusion(run: seq<State>, i: nat, t: Tid, u: Tid)
    requires Run(run) && i < |run|
    ensures WellFormed(run[i])
    ensures Holds(run[i], t) && Holds(run[i], u) ==> t == u
    ensures run[i].m.owner == Thread(t) ==> Holds(run[i], t) && run[i].m.count >= 1
    ensures t < |run[i].pc| && u < |run[i].pc| && run[i].held[t] > 0 && run[i].held[u] > 0 ==> t == u
  {
    RunKeeps(run, i);
    var a :| InvWith(run[i], a);
    if t < |run[i].pc| && u < |run[i].pc| {
      OwnerHeld(run[i], t);
      OwnerHeld(run[i], u);
    }
  }

  /** The mutex is recursive: a thread that acquired it n times more than it released it is the
      recorded owner with depth n, and a thread that is not has no acquisition outstanding. */
  lemma RecursionDepth(run: seq<State>, i: nat, t: Tid)
    requires Run(run) && i < |run| && t < |run[i].pc|
    ensures WellFormed(run[i])
    ensures run[i].held[t] > 0 ==> run[i].m.owner == Thread(t) && run[i].m.depth == run[i].held[t]
    ensures run[i].m.owner == Thread(t) ==> run[i].held[t] > 0 || run[i].pc[t].UClear?
  {
    RunKeeps(run, i);
    var a :| InvWith(run[i], a);
    OwnerHeld(run[i], t);
  }

  lemma OwnerHeld(s: State, t: Tid)
    requires WellFormed(s) && OwnerOk(s) && t < |s.pc|
    ensures s.held[t] > 0 ==> s.m.owner == Thread(t) && s.m.depth == s.held[t]
    ensures s.m.owner == Thread(t) ==> s.held[t] > 0 || s.pc[t].UClear?
  {}

  /** No assertion of the mutex fails and no null record is dereferenced, in any run. */
  lemma AssertionsHold(run: seq<State>, i: nat, t: Tid)
    requires Run(run) && i < |run| && t < |run[i].pc|
    ensures !run[i].pc[t].Panic?
  {
    RunKeeps(run, i);
  }

  // ------------------------------------------------------------------ what the calls answer

  /** Thread t makes a step; `call` is what it calls when it is idle. */
  predicate Moves(s: State, t: Tid, call: Call, s': State)
    requires WellFormed(s)
  {
    t < |s.pc| && Step(s, t, call) == Some(s')
  }

  ghost predicate RunMoves(run: seq<State>, i: nat, t: Tid, call: Call) {
    Run(run) && i + 1 < |run| && WellFormed(run[i]) && WellFormed(run[i + 1]) && Moves(run[i], t, call, run[i + 1])
    && t < |run[i + 1].pc|
  }

  /** The pieces of code of one call. */
  predicate Trying(p: Pc) { p.TOwner? || p == Load(Trier) || (p.Cas? && p.who.Trier?) || p.TAdd? }

  predicate Shared(p: Pc, who: Role) { (p.Load? || p.Check? || p.Cas? || p.Pop? || p.Wake?) && p.who == who }

  predicate Locking(p: Pc) { p.LOwner? || p.LUndo? || p.LPush? || p.LWait? || Shared(p, Locker) }

  predicate Unlocking(p: Pc) { p.UClear? || p.UDecr? || p.UBump? || p.UStore? || Shared(p, Unlocker) }

  predicate Sending(p: Pc) { p.SPush? || Shared(p, Sender) }

  /** Where the recorded owner can be, and what its count is. */
  predicate OwnerHolds(s: State, t: Tid)
    requires WellFormed(s) && t < |s.pc|
  {
    && (s.m.owner == Thread(t) ==> OwnerPc(s.pc[t]) && (s.held[t] > 0 || s.pc[t].UClear?))
    && (s.held[t] > 0 ==> s.m.owner == Thread(t) && s.m.depth == s.held[t])
    && !s.pc[t].Panic?
  }

  lemma OwnerInRun(run: seq<State>, i: nat, t: Tid)
    requires Run(run) && i < |run| && t < |run[i].pc|
    ensures WellFormed(run[i]) && OwnerHolds(run[i], t)
  {
    RecursionDepth(run, i, t);
    RunKeeps(run, i);
  }

  /** try_lock: it gives up only for a thread that does not hold the mutex, and only when the mutex was in
      use and no hand-off was to be had; the owner acquires once more; at count 0, and with a hand-off
      taken, it goes on to acquire. */
  lemma TryLockAnswers(run: seq<State>, i: nat, t: Tid, call: Call)
    requires RunMoves(run, i, t, call)
    ensures var s, s' := run[i], run[i + 1];
            && (Trying(s.pc[t]) && s'.pc[t].Idle? && s'.held[t] == s.held[t] ==> s.held[t] == 0)
            && (s.pc[t].TOwner? ==> if s.held[t] > 0 then s'.pc[t].Idle? && s'.held[t] == s.held[t] + 1 else s'.pc[t] == Load(Trier))
            && (s.pc[t].Idle? && call.TryLock? ==>
                  if s.m.count == 0 then s'.pc[t].Adopt? && s'.m.count == 1 else s'.pc[t].TOwner? && s'.m == s.m)
            && (s.pc[t] == Load(Trier) ==> if s.m.handoff == 0 then s'.pc[t].Idle? else s'.pc[t] == Cas(Trier, s.m.handoff))
            && (s.pc[t].Cas? && s.pc[t].who.Trier? ==>
                  if s.m.handoff == s.pc[t].h then s'.pc[t].TAdd? && s'.m.handoff == 0 && Holds(s', t) else s'.pc[t].Idle?)
            && (s.pc[t].TAdd? ==> s'.pc[t].Adopt?)
  {
    OwnerInRun(run, i, t);
    TryStep(run[i], run[i + 1], t, call);
  }

  lemma TryStep(s: State, s': State, t: Tid, call: Call)
    requires WellFormed(s) && WellFormed(s') && t < |s'.pc| && Moves(s, t, call, s')
    requires OwnerHolds(s, t)
    ensures Trying(s.pc[t]) && s'.pc[t].Idle? && s'.held[t] == s.held[t] ==> s.held[t] == 0
    ensures s.pc[t].TOwner? ==> if s.held[t] > 0 then s'.pc[t].Idle? && s'.held[t] == s.held[t] + 1 else s'.pc[t] == Load(Trier)
    ensures s.pc[t].Idle? && call.TryLock? ==>
              if s.m.count == 0 then s'.pc[t].Adopt? && s'.m.count == 1 else s'.pc[t].TOwner? && s'.m == s.m
    ensures s.pc[t] == Load(Trier) ==> if s.m.handoff == 0 then s'.pc[t].Idle? else s'.pc[t] == Cas(Trier, s.m.handoff)
    ensures s.pc[t].Cas? && s.pc[t].who.Trier? ==>
              if s.m.handoff == s.pc[t].h then s'.pc[t].TAdd? && s'.m.handoff == 0 && Holds(s', t) else s'.pc[t].Idle?
    ensures s.pc[t].TAdd? ==> s'.pc[t].Adopt?
  {}

  /** How calls end and what they change: lock, receive_lock and a successful try_lock end with one
      acquisition more; unlock takes one acquisition back at once and ends, if it was the last, with the
      thread not holding the mutex; send_lock changes nothing of the kind; nor does any step of another
      thread. */
  lemma CallsEnd(run: seq<State>, i: nat, t: Tid, call: Call)
    requires RunMoves(run, i, t, call)
    ensures var s, s' := run[i], run[i + 1];
            && (s'.pc[t].Idle? && (Locking(s.pc[t]) || s.pc[t].Adopt? || s.pc[t].CWait?) ==> s'.held[t] == s.held[t] + 1)
            && (s.pc[t].LUndo? || s.pc[t].Adopt? ==> s'.pc[t].Idle?)
            && (s.pc[t].LOwner? ==> if s.held[t] > 0 then s'.pc[t].LUndo? else s'.pc[t].LPush?)
            && (s.pc[t].Idle? && call.Unlock? ==> s'.held[t] + 1 == s.held[t] && (s.held[t] > 1 <==> s'.pc[t].Idle?))
            && (s'.pc[t].Idle? && Unlocking(s.pc[t]) ==> s'.held[t] == 0 && !Holds(s', t))
            && (Sending(s.pc[t]) ==> s'.held == s.held)
            && (forall u :: 0 <= u < |s.held| && u != t ==> u < |s'.held| && s'.held[u] == s.held[u])
  {
    OwnerInRun(run, i, t);
    HeldStep(run[i], run[i + 1], t, call);
    LockStep(run[i], run[i + 1], t, call);
    UnlockStep(run[i], run[i + 1], t, call);
  }

  lemma HeldStep(s: State, s': State, t: Tid, call: Call)
    requires WellFormed(s) && WellFormed(s') && t < |s'.pc| && Moves(s, t, call, s')
    ensures s.pc[t].LUndo? || s.pc[t].Adopt? ==> s'.pc[t].Idle? && s'.held[t] == s.held[t] + 1
    ensures !s.pc[t].Idle? && !s.pc[t].LUndo? && !s.pc[t].Adopt? && !s.pc[t].TOwner? ==> s'.held == s.held
    ensures forall u :: 0 <= u < |s.held| && u != t ==> u < |s'.held| && s'.held[u] == s.held[u]
  {}

  lemma LockStep(s: State, s': State, t: Tid, call: Call)
    requires WellFormed(s) && WellFormed(s') && t < |s'.pc| && Moves(s, t, call, s')
    requires OwnerHolds(s, t)
    ensures s'.pc[t].Idle? && (Locking(s.pc[t]) || s.pc[t].CWait?) ==> s.pc[t].LUndo?
    ensures s.pc[t].LOwner? ==> if s.held[t] > 0 then s'.pc[t].LUndo? else s'.pc[t].LPush?
  {}

  lemma UnlockStep(s: State, s': State, t: Tid, call: Call)
    requires WellFormed(s) && WellFormed(s') && t < |s'.pc| && Moves(s, t, call, s')
    requires OwnerHolds(s, t)
    ensures s.pc[t].Idle? && call.Unlock? ==> s'.held[t] + 1 == s.held[t] && (s.held[t] > 1 <==> s'.pc[t].Idle?)
    ensures s'.pc[t].Idle? && Unlocking(s.pc[t]) ==> s'.held[t] == 0 && !Holds(s', t)
  {}

  /** In every run, a thread inside a call can go on, unless it sleeps on a record that has not been woken;
      a thread outside can call lock and try_lock at any time, unlock exactly if it has an acquisition to take
      back, wait on a condvar exactly if it has none, and send the lock to whoever waits on a condvar unsent. */
  lemma NobodyStuck(run: seq<State>, i: nat, t: Tid, call: Call)
    requires Run(run) && i < |run| && t < |run[i].pc|
    ensures WellFormed(run[i])
    ensures var p := run[i].pc[t];
            && (!p.Idle? ==> (Step(run[i], t, call).None? <==> (p.LWait? || p.CWait?) && !run[i].woken[t]))
            && (p.Idle? ==> (Step(run[i], t, call).Some? <==> MayCall(run[i], t, call)))
  {
    OwnerInRun(run, i, t);
    CanStep(run[i], t, call);
  }

  predicate MayCall(s: State, t: Tid, call: Call)
    requires WellFormed(s) && t < |s.pc|
  {
    && (call.Unlock? ==> s.held[t] > 0)
    && (call.CondWait? ==> s.held[t] == 0)
    && (call.SendLock? ==> call.w < |s.pc| && s.pc[call.w].CWait? && !s.pc[call.w].sent)
  }

  lemma CanStep(s: State, t: Tid, call: Call)
    requires WellFormed(s) && t < |s.pc| && !s.pc[t].Panic?
    ensures !s.pc[t].Idle? ==> (Step(s, t, call).None? <==> (s.pc[t].LWait? || s.pc[t].CWait?) && !s.woken[t])
    ensures s.pc[t].Idle? ==> (Step(s, t, call).Some? <==> MayCall(s, t, call))
  {}

  /** In every run, a thread that sleeps on a record given to the mutex and not woken is in the queue, or
      another thread has its record in hand, to push it or to wake it. */
  lemma WaiterAccounted(run: seq<State>, i: nat, w: Tid)
    requires Run(run) && i < |run| && w < |run[i].pc|
    ensures |run[i].woken| == |run[i].pc|
    ensures Waits(run[i].pc[w]) && !run[i].woken[w] ==>
              w in run[i].m.queue ||
              exists u :: 0 <= u < |run[i].pc| && (run[i].pc[u] == SPush(w) || (run[i].pc[u].Wake? && run[i].pc[u].other == w))
  {
    RunKeeps(run, i);
    var s := run[i];
    var a :| InvWith(s, a);
    if Waits(s.pc[w]) && !s.woken[w] {
      WaiterPlace(s, a, w);
    }
  }

  lemma WaiterPlace(s: State, a: Aux, w: Tid)
    requires WellFormed(s) && LocOk(s.pc, s.woken, a.loc) && QueueOk(s.m.queue, a.loc) && w < |s.pc|
    requires Waits(s.pc[w]) && !s.woken[w]
    ensures w in s.m.queue ||
              exists u :: 0 <= u < |s.pc| && (s.pc[u] == SPush(w) || (s.pc[u].Wake? && s.pc[u].other == w))
  {
    assert LocalOk(s.pc[w], s.woken[w], a.loc[w]);
    if !a.loc[w].InQueue? {
      assert s.pc[a.loc[w].via] == SPush(w) || s.pc[a.loc[w].via].Wake?;
    }
  }

  /** Waiters are served first come, first served: a step puts one waiter at the end of the queue, or
      takes the first out, to wake it or because it is the taker itself, or leaves the queue alone. */
  lemma ServedInOrder(run: seq<State>, i: nat, t: Tid, call: Call)
    requires RunMoves(run, i, t, call)
    ensures var q, q', p' := run[i].m.queue, run[i + 1].m.queue, run[i + 1].pc[t];
            q' == q || (exists w :: q' == q + [w]) ||
            (q != [] && q' == q[1..] && ((p'.Wake? && p'.other == q[0]) || (p'.Adopt? && t == q[0])))
  {
    RunKeeps(run, i);
    RunKeeps(run, i + 1);
    QueueFifo(run[i], run[i + 1], t, call);
  }

  lemma QueueFifo(s: State, s': State, t: Tid, call: Call)
    requires WellFormed(s) && WellFormed(s') && t < |s'.pc| && Moves(s, t, call, s') && !s'.pc[t].Panic?
    ensures var q, q', p' := s.m.queue, s'.m.queue, s'.pc[t];
            q' == q || (exists w :: q' == q + [w]) ||
            (q != [] && q' == q[1..] && ((p'.Wake? && p'.other == q[0]) || (p'.Adopt? && t == q[0])))
  {
    if s.pc[t].LPush? {
      assert s'.m.queue == s.m.queue + [t];
    } else if s.pc[t].SPush? {
      assert s'.m.queue == s.m.queue + [s.pc[t].w];
    }
  }

  // ------------------------------------------------------------------ at rest

  /** No call is under way: every thread is outside the mutex or asleep on its wait record. */
  predicate Quiescent(s: State) {
    forall t :: 0 <= t < |s.pc| ==> s.pc[t].Idle? || s.pc[t].LWait? || s.pc[t].CWait?
  }

  lemma {:induction false} QuietRequesters(pc: seq<Pc>)
    requires forall t :: 0 <= t < |pc| ==> !Requests(pc[t])
    ensures Requesters(pc) == 0
  {
    if pc != [] {
      QuietRequesters(pc[..|pc| - 1]);
    }
  }

  /** With every thread at rest the lock is free with an empty queue, or with one thread. */
  lemma RestState(s: State, a: Aux)
    requires WellFormed(s) && TokenOk(s, a.token) && CountOk(s, a.token) && HandoffOk(s, a.agent) && Quiescent(s)
    ensures !a.token.Parked?
    ensures a.token.Free? ==> s.m.count == 0 && s.m.queue == []
    ensures a.token.At? ==> Holds(s, a.token.t)
  {
    QuietRequesters(s.pc);
  }

  /** Asleep on a record that was pushed or given to send_lock. */
  predicate Waits(p: Pc) {
    p.LWait? || p == CWait(true)
  }

  lemma RestWaiter(s: State, a: Aux, t: Tid)
    requires WellFormed(s) && Quiescent(s) && LocOk(s.pc, s.woken, a.loc) && QueueOk(s.m.queue, a.loc)
    requires t < |s.pc| && Waits(s.pc[t]) && !s.woken[t]
    ensures t in s.m.queue
  {
  }

  /** No waiter is stranded: when no call is under way nothing stays parked, every sleeping locker and
      every condvar waiter given to send_lock is in the queue, and a waiter in the queue means some thread holds the lock or was woken with it. */
  lemma NoStrandedWaiter(run: seq<State>, i: nat)
    requires Run(run) && i < |run| && Quiescent(run[i])
    ensures WellFormed(run[i]) && run[i].m.handoff == 0
    ensures run[i].m.queue != [] ==> exists t :: Holds(run[i], t)
    ensures (forall t :: !Holds(run[i], t)) ==> run[i].m.count == 0 && run[i].m.queue == []
    ensures forall t :: 0 <= t < |run[i].pc| && Waits(run[i].pc[t]) && !run[i].woken[t] ==> t in run[i].m.queue
  {
    RunKeeps(run, i);
    var s := run[i];
    var a :| InvWith(s, a);
    RestState(s, a);
    forall t | 0 <= t < |s.pc| && Waits(s.pc[t]) && !s.woken[t] ensures t in s.m.queue {
      RestWaiter(s, a, t);
    }
  }

  lemma OnePopper(s: State, k: Token, t: Tid, u: Tid)
    requires TokenOk(s, k) && t < |s.pc| && u < |s.pc| && s.pc[t].Pop? && s.pc[u].Pop?
    ensures t == u
  {}

  lemma PopperState(s: State, a: Aux, t: Tid)
    requires WellFormed(s) && t < |s.pc| && LocOk(s.pc, s.woken, a.loc) && QueueOk(s.m.queue, a.loc) && SenderOk(s) && PcOk(s)
    ensures s.pc[t].Pop? && !s.pc[t].who.Unlocker? ==> s.m.queue != []
    ensures s.pc[t] == Pop(Locker) ==> t in s.m.queue
    ensures s.pc[t].Wake? && s.pc[t].who.Locker? ==> !s.woken[t]
  {}

  /** The queue has a single consumer: two threads are never about to pop together.  Whoever took
      a hand-off finds a waiter, and a locker that pops another's record was not woken itself. */
  lemma SingleConsumer(run: seq<State>, i: nat, t: Tid, u: Tid)
    requires Run(run) && i < |run| && t < |run[i].pc| && u < |run[i].pc|
    ensures run[i].pc[t].Pop? && run[i].pc[u].Pop? ==> t == u
    ensures run[i].pc[t].Pop? && !run[i].pc[t].who.Unlocker? ==> run[i].m.queue != []
    ensures run[i].pc[t] == Pop(Locker) ==> t in run[i].m.queue
    ensures |run[i].woken| == |run[i].pc| && (run[i].pc[t].Wake? && run[i].pc[t].who.Locker? ==> !run[i].woken[t])
  {
    RunKeeps(run, i);
    var a :| InvWith(run[i], a);
    if run[i].pc[t].Pop? && run[i].pc[u].Pop? {
      OnePopper(run[i], a.token, t, u);
    }
    PopperState(run[i], a, t);
  }

  /** Thread t is between its load of the hand-off h and its compare-exchange. */
  predicate InWindow(s: State, t: Tid, h: nat) {
    t < |s.pc| && (s.pc[t].Check? || s.pc[t].Cas?) && s.pc[t].h == h && !s.pc[t].who.Trier?
  }

  /** h was in handoff before, was taken since, and can never be there again. */
  ghost predicate Spent(s: State, h: nat) {
    && h <= s.m.sequence && s.m.handoff != h
    && (forall t :: 0 <= t < |s.pc| && s.pc[t].UStore? ==> s.pc[t].h != h)
  }

  lemma StepHandoff(s: State, t: Tid, call: Call)
    requires WellFormed(s) && t < |s.pc| && Step(s, t, call).Some?
    ensures var m, m' := s.m, Step(s, t, call).value.m;
            m.sequence <= m'.sequence &&
            (m'.handoff == m.handoff || m'.handoff == 0 || s.pc[t] == UStore(m'.handoff))
  {}

  lemma StepStores(s: State, t: Tid, call: Call)
    requires WellFormed(s) && t < |s.pc| && Step(s, t, call).Some?
    ensures var s' := Step(s, t, call).value;
            && |s'.pc| == |s.pc|
            && (s'.pc[t].UStore? ==> s'.pc[t].h == s.m.sequence + 1)
            && (forall u :: 0 <= u < |s.pc| && u != t && s'.pc[u].UStore? ==> s'.pc[u] == s.pc[u])
  {}

  lemma StepQueue(s: State, t: Tid, call: Call)
    requires WellFormed(s) && t < |s.pc| && Step(s, t, call).Some?
    ensures s.m.queue <= Step(s, t, call).value.m.queue || s.pc[t].Pop?
  {}

  lemma SpentStays(s: State, s': State, h: nat)
    requires Next(s, s') && Spent(s, h) && h != 0
    ensures Spent(s', h)
  {
    var t: Tid, call :| t < |s.pc| && Step(s, t, call) == Some(s');
    StepHandoff(s, t, call);
    StepStores(s, t, call);
  }

  /** Once its hand-off value is spent a thread's compare-exchange fails. */
  lemma SpentFails(s: State, s': State, t: Tid, h: nat)
    requires Next(s, s') && t < |s.pc| && t < |s'.pc| && Spent(s, h)
    requires InWindow(s, t, h)
    ensures !s'.pc[t].Pop?
  {}

  lemma SpentGone(s: State, s': State, t: Tid, h: nat)
    requires Next(s, s') && t < |s.pc| && t < |s'.pc| && Spent(s, h) && h != 0 && InWindow(s, t, h)
    ensures !s'.pc[t].Pop? && s'.m.handoff != h
  {
    SpentStays(s, s', h);
    SpentFails(s, s', t, h);
  }

  lemma RememberedOrSpent(s: State, k: Token, t: Tid, h: nat)
    requires WellFormed(s) && TokenOk(s, k) && SequenceOk(s, k) && t < |s.pc| && s.m.handoff != h
    requires InWindow(s, t, h)
    ensures h != 0 && Spent(s, h)
  {
    forall u | 0 <= u < |s.pc| && s.pc[u].UStore? ensures s.pc[u].h != h {
      assert Carries(s.pc[u], s.woken[u]);
    }
  }

  lemma ParkedGrows(s: State, s': State, k: Token)
    requires TokenOk(s, k) && Next(s, s') && s.m.handoff != 0
    ensures s.m.queue <= s'.m.queue && forall u :: !Holds(s, u)
  {
    var t: Tid, call :| t < |s.pc| && Step(s, t, call) == Some(s');
    StepQueue(s, t, call);
    assert Carries(s.pc[t], s.woken[t]) ==> k == At(t);
  }

  /** One step back inside the window. */
  lemma WindowStep(s: State, s': State, k: Token, t: Tid, h: nat)
    requires WellFormed(s) && TokenOk(s, k) && SequenceOk(s, k) && Next(s, s') && InWindow(s, t, h)
    requires t < |s'.pc| && (s'.pc[t].Pop? || s'.m.handoff == h)
    ensures s.m.handoff == h && h != 0
  {
    WindowStarted(s, k, t, h);
    if s.m.handoff != h {
      RememberedOrSpent(s, k, t, h);
      SpentGone(s, s', t, h);
    }
  }

  /** From the load of the hand-off to the compare-exchange that wins it, the hand-off stays parked,
      nobody has the lock and nobody pops: the queue a taker saw is a prefix of the one it pops from. */
  lemma {:induction false} HandoffWindow(run: seq<State>, k: nat, j: nat, t: Tid, h: nat)
    requires Run(run) && k < j < |run|
    requires forall n :: k <= n < j ==> InWindow(run[n], t, h)
    requires t < |run[j].pc| && run[j].pc[t].Pop?
    ensures run[k].m.handoff == h && WellFormed(run[k]) && forall u :: !Holds(run[k], u)
    ensures run[k].m.queue <= run[j].m.queue
    decreases j - k
  {
    RunKeeps(run, k);
    assert InWindow(run[k], t, h) && Next(run[k], run[k + 1]);
    if k + 1 < j {
      HandoffWindow(run, k + 1, j, t, h);
      assert InWindow(run[k + 1], t, h);
    }
    var a :| InvWith(run[k], a);
    WindowStep(run[k], run[k + 1], a.token, t, h);
    ParkedGrows(run[k], run[k + 1], a.token);
  }

  lemma WindowStarted(s: State, k: Token, t: Tid, h: nat)
    requires WellFormed(s) && SequenceOk(s, k) && InWindow(s, t, h)
    ensures h != 0
  {}
}

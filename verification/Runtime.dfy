/** Thread runtimes of core/sched.cc over the reals: a CPU's normalisation constant c grows as its
    threads run, and when it reaches a limit c and the runtimes of the runnable threads are scaled
    down together.  The infinite runtime of an idle thread is a flag.
 */
module ThreadRuntime {

  const CMAX: real := 9223372036854775808.0                    // 2^63
  const CINITIAL: real := 1.0 / 9223372036854775808.0          // 2^-63
  const SCALE: real := CINITIAL / CMAX

  /** `rtt`: R'' of the thread; `count`: renormalisations seen, -1 for an exported runtime. */
  datatype Runtime = Runtime(weight: real, rtt: real, count: int, idle: bool)

  /** The constant of a CPU and how often it has been renormalised. */
  datatype Clock = Clock(c: real, count: nat)

  // ------------------------------------------------------------------ scaling

  lemma ScalePositive()
    ensures 0.0 < SCALE < 1.0 && CMAX * SCALE == CINITIAL
  {}

  lemma ScaleOrder(a: real, b: real, k: real)
    requires k > 0.0
    ensures a < b <==> a * k < b * k
    ensures a == b <==> a * k == b * k
  {
    assert (b - a) * k == b * k - a * k;
  }

  // ------------------------------------------------------------------ the specification

  function Renormalized(t: Runtime): (r: Runtime) {
    t.(rtt := if t.idle then t.rtt else t.rtt * SCALE, count := t.count + 1)
  }

  /** A thread of this CPU runs; `factor` is exp(time / tau). */
  function Tick(k: Clock, factor: real): (r: Clock) {
    if k.c * factor < CMAX then k.(c := k.c * factor)
    else Clock(k.c * factor * SCALE, k.count + 1)
  }

  /** What that does to a thread that waits in the queue. */
  function Waits(t: Runtime, k: Clock, factor: real): (r: Runtime) {
    if k.c * factor < CMAX then t else Renormalized(t)
  }

  /** What it does to the thread that runs. */
  function Runs(p: Runtime, k: Clock, factor: real): (r: Runtime) {
    var p1 := if p.rtt == 0.0 && !p.idle then p.(count := k.count) else p;
    var p2 := if p.idle then p1 else p1.(rtt := p.rtt + p.weight * (k.c * factor - k.c));
    if k.c * factor < CMAX then p2
    else p2.(rtt := if p.idle then p.rtt else p2.rtt * SCALE, count := k.count + 1)
  }

  function Ticks(k: Clock, factors: seq<real>): (r: Clock)
    decreases |factors|
  {
    if factors == [] then k else Ticks(Tick(k, factors[0]), factors[1..])
  }

  function WaitsAll(t: Runtime, k: Clock, factors: seq<real>): (r: Runtime)
    decreases |factors|
  {
    if factors == [] then t else WaitsAll(Waits(t, k, factors[0]), Tick(k, factors[0]), factors[1..])
  }

  function Product(factors: seq<real>): (r: real) {
    if factors == [] then 1.0 else factors[0] * Product(factors[1..])
  }

  predicate Grows(factors: seq<real>) {
    forall i :: 0 <= i < |factors| ==> factors[i] >= 1.0
  }

  lemma TickPositive(k: Clock, factor: real)
    requires k.c > 0.0 && factor >= 1.0
    ensures k.c * factor > 0.0 && Tick(k, factor).c > 0.0
  {
    ScalePositive();
    ScaleOrder(0.0, factor, k.c);
    ScaleOrder(0.0, k.c * factor, SCALE);
  }

  /** c is divided by 2^126 exactly when it reaches 2^63, and then a renormalisation is counted; whoever
      counted with the CPU before, in the queue or running, still does. */
  lemma RenormalizesAtLimit(k: Clock, factor: real, t: Runtime)
    ensures if k.c * factor >= 9223372036854775808.0
            then Tick(k, factor).c * 85070591730234615865843651857942052864.0 == k.c * factor && Tick(k, factor).count == k.count + 1
            else Tick(k, factor) == Clock(k.c * factor, k.count)
    ensures t.count == k.count ==> Waits(t, k, factor).count == Tick(k, factor).count
    ensures t.count == k.count || (t.rtt == 0.0 && !t.idle) ==> Runs(t, k, factor).count == Tick(k, factor).count
  {
    assert SCALE * 85070591730234615865843651857942052864.0 == 1.0;
    assert k.c * factor * SCALE * 85070591730234615865843651857942052864.0 == k.c * factor * (SCALE * 85070591730234615865843651857942052864.0);
  }

  // ------------------------------------------------------------------ what renormalisation keeps

  /** A runtime measured in units of c: what can be compared between CPUs. */
  function Ratio(rtt: real, c: real): (r: real)
    requires c > 0.0
  {
    rtt / c
  }

  /** w relates to e as a to c * p. */
  predicate Alike(w: real, e: real, a: real, c: real, p: real) { w * (c * p) == a * e }

  /** One tick: the thread's runtime grows and shrinks with c, but for the factor. */
  lemma WaitCross(t: Runtime, k: Clock, factor: real)
    requires !t.idle
    ensures Alike(Waits(t, k, factor).rtt, Tick(k, factor).c, t.rtt, k.c, factor)
  {}

  lemma CrossStep(w: real, p: real, e: real, a: real, b: real, c: real, f: real, d: real)
    requires d > 0.0 && f >= 1.0 && p > 0.0 && Alike(w, e, b, d, p) && Alike(b, d, a, c, f)
    ensures Alike(w, e, a, c, f * p) && f * p > 0.0
  {
    var x, y := w * (c * (f * p)), a * e;
    assert d * x == (c * f) * (w * (d * p));
    assert (c * f) * (b * e) == (b * (c * f)) * e;
    assert (a * d) * e == d * y;
    ScaleOrder(x, y, d);
    ScaleOrder(0.0, p, f);
  }

  lemma {:induction false} CrossKept(t: Runtime, k: Clock, factors: seq<real>)
    requires k.c > 0.0 && Grows(factors) && !t.idle
    ensures Ticks(k, factors).c > 0.0 && Product(factors) > 0.0
    ensures Alike(WaitsAll(t, k, factors).rtt, Ticks(k, factors).c, t.rtt, k.c, Product(factors))
    decreases |factors|
  {
    if factors != [] {
      var f, fs := factors[0], factors[1..];
      var t', k' := Waits(t, k, f), Tick(k, f);
      TickPositive(k, f);
      WaitCross(t, k, f);
      assert !t'.idle;
      CrossKept(t', k', fs);
      CrossStep(WaitsAll(t', k', fs).rtt, Product(fs), Ticks(k', fs).c, t.rtt, t'.rtt, k.c, f, k'.c);
    }
  }

  /** The ratio of w to e is the ratio of a to c, divided by p. */
  predicate Decayed(w: real, e: real, a: real, c: real, p: real) {
    e > 0.0 && c > 0.0 && p > 0.0 && Ratio(w, e) == Ratio(a, c) / p
  }

  lemma CrossRatio(w: real, e: real, a: real, c: real, p: real)
    requires e > 0.0 && c > 0.0 && p > 0.0 && Alike(w, e, a, c, p)
    ensures Decayed(w, e, a, c, p)
  {
    var q := a / c / p;
    assert a / c * c == a && q * p == a / c;
    assert q * (c * p) == a;
    ScaleOrder(0.0, c, p);
    assert w * (c * p) == (q * e) * (c * p);
    ScaleOrder(w, q * e, c * p);
  }

  /** Over any sequence of ticks, however often c is renormalised, the ratio of a waiting thread's
      runtime to c is divided by the product of the factors. */
  lemma RatioKept(t: Runtime, k: Clock, factors: seq<real>)
    requires k.c > 0.0 && Grows(factors) && !t.idle
    ensures Ticks(k, factors).c > 0.0 && Product(factors) > 0.0
    ensures Decayed(WaitsAll(t, k, factors).rtt, Ticks(k, factors).c, t.rtt, k.c, Product(factors))
  {
    CrossKept(t, k, factors);
    CrossRatio(WaitsAll(t, k, factors).rtt, Ticks(k, factors).c, t.rtt, k.c, Product(factors));
  }

  /** Two threads waiting in the same queue keep their order. */
  lemma {:induction false} OrderKept(t: Runtime, u: Runtime, k: Clock, factors: seq<real>)
    requires !t.idle && !u.idle
    ensures t.rtt < u.rtt <==> WaitsAll(t, k, factors).rtt < WaitsAll(u, k, factors).rtt
    ensures t.rtt == u.rtt <==> WaitsAll(t, k, factors).rtt == WaitsAll(u, k, factors).rtt
    decreases |factors|
  {
    if factors != [] {
      var f := factors[0];
      ScalePositive();
      ScaleOrder(t.rtt, u.rtt, SCALE);
      OrderKept(Waits(t, k, f), Waits(u, k, f), Tick(k, f), factors[1..]);
    }
  }

  /** The thread that ran is put among the waiting ones where it would be without renormalisation. */
  lemma RunnerOrder(p: Runtime, t: Runtime, k: Clock, factor: real)
    requires !p.idle && !t.idle
    ensures Runs(p, k, factor).rtt < Waits(t, k, factor).rtt <==> p.rtt + p.weight * (k.c * factor - k.c) < t.rtt
    ensures Waits(t, k, factor).rtt < Runs(p, k, factor).rtt <==> t.rtt < p.rtt + p.weight * (k.c * factor - k.c)
  {
    var r := p.rtt + p.weight * (k.c * factor - k.c);
    ScalePositive();
    ScaleOrder(r, t.rtt, SCALE);
    ScaleOrder(t.rtt, r, SCALE);
  }

  // ------------------------------------------------------------------ hysteresis

  /** hysteresis_run_start(), with a factor below 1, and hysteresis_run_stop() and
      add_context_switch_penalty(), with factors above 1: like running for the time, but without
      renormalisation. */
  function Shifted(p: Runtime, k: Clock, factor: real): (r: Runtime) {
    var p1 := if p.rtt == 0.0 && !p.idle then p.(count := k.count) else p;
    if p.idle then p1 else p1.(rtt := p.rtt + p.weight * (k.c * factor - k.c))
  }

  function ShiftedClock(k: Clock, factor: real): (r: Clock) { k.(c := k.c * factor) }

  /** Giving back the hysteresis makes the runtime greater. */
  lemma StopRaises(p: Runtime, k: Clock, factor: real)
    requires !p.idle && p.weight > 0.0 && k.c > 0.0 && factor > 1.0
    ensures p.rtt < Shifted(p, k, factor).rtt
  {
    ScaleOrder(1.0, factor, k.c);
    ScaleOrder(0.0, k.c * factor - k.c, p.weight);
  }

  /** What is borrowed when a thread is switched in is given back when it is switched out: in units of
      c its runtime is as if it had only run, renormalised in between or not. */
  lemma HysteresisReturned(p: Runtime, k: Clock, borrow: real, factor: real, giveBack: real)
    requires !p.idle && p.count == k.count && borrow * giveBack == 1.0
    ensures var p1, k1 := Shifted(p, k, borrow), ShiftedClock(k, borrow);
            var p2, k2 := Runs(p1, k1, factor), Tick(k1, factor);
            var p3, k3 := Shifted(p2, k2, giveBack), ShiftedClock(k2, giveBack);
            && p3.count == k3.count
            && Alike(p3.rtt, k3.c, p.rtt + p.weight * (k.c * factor - k.c), k.c, factor)
  {
    var p1, k1 := Shifted(p, k, borrow), ShiftedClock(k, borrow);
    var p2, k2 := Runs(p1, k1, factor), Tick(k1, factor);
    var scale := if k1.c * factor < CMAX then 1.0 else SCALE;
    ReturnedScaled(p.rtt, p.weight, k.c, borrow, factor, giveBack, scale);
  }

  lemma ReturnedScaled(r: real, w: real, c: real, borrow: real, factor: real, giveBack: real, scale: real)
    requires borrow * giveBack == 1.0
    ensures var c1 := c * borrow;
            var r2 := (r + w * (c1 - c) + w * (c1 * factor - c1)) * scale;
            var c2 := c1 * factor * scale;
            var r3, c3 := r2 + w * (c2 * giveBack - c2), c2 * giveBack;
            Alike(r3, c3, r + w * (c * factor - c), c, factor)
  {
    var c2 := c * borrow * factor * scale;
    assert c2 * giveBack == c * factor * scale * (borrow * giveBack);
    assert c2 * giveBack == c * factor * scale;
  }

  // ------------------------------------------------------------------ sleeping

  /** update_after_sleep(). */
  function Updated(t: Runtime, k: Clock): (r: Runtime) {
    if t.count == k.count then t
    else if t.count == -1 then t.(rtt := if t.idle then t.rtt else t.rtt * k.c, count := k.count)
    else if t.count + 1 == k.count then t.(rtt := if t.idle then t.rtt else t.rtt * SCALE, count := k.count)
    else t.(rtt := if t.idle then t.rtt else 0.0, count := k.count)
  }

  function Power(m: nat): (r: real) {
    if m == 0 then 1.0 else SCALE * Power(m - 1)
  }

  lemma {:induction false} PowerPositive(m: nat)
    ensures Power(m) > 0.0
  {
    ScalePositive();
    if m > 0 {
      PowerPositive(m - 1);
      ScaleOrder(0.0, Power(m - 1), SCALE);
    }
  }

  /** A thread that stays in the queue is scaled once for every renormalisation. */
  lemma {:induction false} WaitsScaled(t: Runtime, k: Clock, factors: seq<real>)
    requires t.count == k.count
    ensures Ticks(k, factors).count >= k.count
    ensures var m: nat := Ticks(k, factors).count - k.count;
            WaitsAll(t, k, factors) == t.(rtt := if t.idle then t.rtt else t.rtt * Power(m), count := Ticks(k, factors).count)
    decreases |factors|
  {
    if factors != [] {
      var f, fs := factors[0], factors[1..];
      var t', k' := Waits(t, k, f), Tick(k, f);
      WaitsScaled(t', k', fs);
      var m: nat := Ticks(k', fs).count - k'.count;
      if k'.count != k.count {
        assert Power(m + 1) == SCALE * Power(m);
        assert t.rtt * SCALE * Power(m) == t.rtt * Power(m + 1);
      }
    }
  }

  /** A thread that slept while others ran wakes with the value it would have had in the queue if and
      only if it missed at most one renormalisation, or its runtime is zero or infinite. */
  lemma WakesAsQueued(t: Runtime, k: Clock, factors: seq<real>)
    requires t.count == k.count
    ensures Updated(t, Ticks(k, factors)) == WaitsAll(t, k, factors)
            <==> Ticks(k, factors).count <= k.count + 1 || t.rtt == 0.0 || t.idle
  {
    WaitsScaled(t, k, factors);
    var m: nat := Ticks(k, factors).count - k.count;
    PowerPositive(m);
    if t.rtt != 0.0 {
      NonZero(t.rtt, Power(m));
    }
    if m == 1 {
      assert Power(1) == SCALE * Power(0);
    }
  }

  /** A thread with a runtime of its own never wakes behind the place it would have in the queue, and at
      runtime zero if it missed two renormalisations or more; it has then seen them all. */
  lemma WakesNoLater(t: Runtime, k: Clock, factors: seq<real>)
    requires t.count == k.count && t.rtt >= 0.0 && !t.idle
    ensures Updated(t, Ticks(k, factors)).rtt <= WaitsAll(t, k, factors).rtt
    ensures Ticks(k, factors).count >= k.count + 2 ==> Updated(t, Ticks(k, factors)).rtt == 0.0
    ensures Updated(t, Ticks(k, factors)).count == Ticks(k, factors).count
  {
    WakesAsQueued(t, k, factors);
    WaitsScaled(t, k, factors);
    var m: nat := Ticks(k, factors).count - k.count;
    PowerPositive(m);
    if t.rtt > 0.0 {
      ScaleOrder(0.0, t.rtt, Power(m));
    }
  }

  lemma NonZero(a: real, b: real)
    requires a != 0.0 && b > 0.0
    ensures a * b != 0.0
  {
    ScaleOrder(a, 0.0, b);
    ScaleOrder(0.0, a, b);
  }

  // ------------------------------------------------------------------ changing CPU

  /** export_runtime(). */
  function Exported(t: Runtime, c: real): (r: Runtime)
    requires c != 0.0
  {
    if t.count == -1 then t else t.(rtt := if t.idle then t.rtt else t.rtt / c, count := -1)
  }

  /** A thread that moves to another CPU keeps its ratio of runtime to c, and so its place among
      threads that move with it; exporting twice is exporting once. */
  lemma MovesFairly(t: Runtime, c: real, k: Clock)
    requires !t.idle && t.count >= 0 && c > 0.0 && k.c > 0.0
    ensures var u := Updated(Exported(t, c), k); Ratio(u.rtt, k.c) == Ratio(t.rtt, c) && u.count == k.count
    ensures Exported(Exported(t, c), c) == Exported(t, c)
  {
    var q := t.rtt / c;
    assert q * c == t.rtt;
    var u := q * k.c;
    assert u / k.c == q;
  }

  // ------------------------------------------------------------------ ran_for()

  class Cpu {
    var clock: Clock
    var queue: seq<Runtime>

    ghost predicate Valid()
      reads this
    {
      clock.c > 0.0 && forall i :: 0 <= i < |queue| ==> queue[i].count == clock.count
    }

    constructor ()
      ensures Valid() && clock.c * 9223372036854775808.0 == 1.0 && clock.count == 0 && queue == []
    {
      clock, queue := Clock(CINITIAL, 0), [];
    }

    /** Thread p runs on this CPU; all runnable threads and c are renormalised together.  When the new c
        would be infinite, `overflows`, the time is ignored. */
    method RanFor(p: Runtime, factor: real, overflows: bool) returns (p': Runtime)
      requires Valid() && factor >= 1.0 && (p.count == clock.count || p.rtt == 0.0)
      modifies this
      ensures Valid() && |queue| == |old(queue)|
      ensures overflows ==> p' == Shifted(p, old(clock), 1.0) && clock == old(clock) && queue == old(queue)
      ensures !overflows ==> p' == Runs(p, old(clock), factor) && clock == Tick(old(clock), factor)
      ensures !overflows ==> forall i :: 0 <= i < |queue| ==> queue[i] == Waits(old(queue)[i], old(clock), factor)
    {
      TickPositive(clock, factor);
      p' := p;
      if p.rtt == 0.0 && !p.idle {
        p' := p'.(count := clock.count);
      }
      var cold := clock.c;
      if overflows {
        return;
      }
      var cnew := cold * factor;
      clock := clock.(c := cnew);
      if !p.idle {
        p' := p'.(rtt := p'.rtt + p.weight * (cnew - cold));
      }
      if cnew < CMAX {
        return;
      }
      clock := clock.(count := clock.count + 1);
      p' := p'.(rtt := if p.idle then p'.rtt else p'.rtt * SCALE, count := clock.count);
      var i := 0;
      while i < |queue|
        invariant 0 <= i <= |queue| == |old(queue)| && clock == Clock(cnew, old(clock).count + 1)
        invariant forall j :: 0 <= j < i ==> queue[j] == Renormalized(old(queue)[j])
        invariant forall j :: i <= j < |queue| ==> queue[j] == old(queue)[j]
      {
        if queue[i].count >= 0 {
          queue := queue[i := Renormalized(queue[i])];
        }
        i := i + 1;
      }
      clock := clock.(c := cnew * SCALE);
    }

    /** hysteresis_run_start(), hysteresis_run_stop(), add_context_switch_penalty(). */
    method Shift(p: Runtime, factor: real) returns (p': Runtime)
      requires Valid() && factor > 0.0
      modifies this
      ensures Valid() && p' == Shifted(p, old(clock), factor) && clock == ShiftedClock(old(clock), factor) && queue == old(queue)
    {
      ScaleOrder(0.0, factor, clock.c);
      p' := p;
      if p.rtt == 0.0 && !p.idle {
        p' := p'.(count := clock.count);
      }
      var cold := clock.c;
      clock := clock.(c := cold * factor);
      if !p.idle {
        p' := p'.(rtt := p'.rtt + p.weight * (clock.c - cold));
      }
    }
  }
}

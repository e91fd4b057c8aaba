/** The packed CPU-time estimator of core/sched.cc: two 64-bit times saved as 32 bits each, without
    their 10 low bits and 22 high bits, and recovered with the help of later reference values.
 */
module CpuTimeEstimator {

  const SHIFT: nat := 1024               // 2^cputime_shift
  const HALF: nat := 0x1_0000_0000       // 2^32
  const LOW: nat := 0x400_0000_0000      // 2^(32 + cputime_shift), the range of a saved value
  const WORD: nat := 0x1_0000_0000_0000_0000

  /** A time with the 10 bits that are not saved cleared. */
  function Rounded(v: nat): (r: nat) { v - v % SHIFT }

  /** A u32 made of a u64 shifted right by cputime_shift. */
  function Save(v: nat): (r: nat)
    ensures r < HALF
  {
    v / SHIFT % HALF
  }

  /** cputime_estimator_set(). */
  function Pack(runningSince: nat, totalTime: nat): (e: nat)
    ensures e < WORD
  {
    Save(runningSince) + Save(totalTime) * HALF
  }

  /** The high-order part of the reference, one less if its low part is below the saved one; 64-bit
      subtraction wraps. */
  function Recover(saved: nat, reference: nat): (r: nat)
    requires saved < HALF && reference < WORD
  {
    var low := saved * SHIFT;
    var high := reference - reference % LOW;
    var high' := if reference % LOW < low then (high + WORD - LOW) % WORD else high;
    high' + low
  }

  /** cputime_estimator_get(). */
  function Unpack(e: nat, nowRef: nat, totalRef: nat): (r: (nat, nat))
    requires e < WORD && nowRef < WORD && totalRef < WORD
  {
    (Recover(e % HALF, nowRef), Recover(e / HALF, totalRef))
  }

  /** Less than the range of a saved value separates the rounded value from the reference, counted
      forward as the 64-bit clock counts. */
  predicate Near(v: nat, reference: nat)
    requires v < WORD && reference < WORD
  {
    (if Rounded(v) <= reference then reference - Rounded(v) else reference + WORD - Rounded(v)) < LOW
  }

  /** What is saved are the bits of the rounded value below the range. */
  lemma SavedLow(v: nat)
    ensures Save(v) * SHIFT == Rounded(v) % LOW
  {
    var q := v / SHIFT;
    assert Rounded(v) == q * SHIFT;
    var a, b := q / HALF, q % HALF;
    assert q * SHIFT == a * LOW + b * SHIFT;
  }

  /** Two numbers with the same low bits are equal if their high parts are. */
  lemma HighParts(h: nat, k: nat, low: nat, rest: nat)
    requires low < LOW && rest < LOW && h < 4194304 && k < 4194304
    ensures (if rest < low then (if k == 0 then 4194303 else k - 1) else k) == h
            <==> (if h * LOW + low <= k * LOW + rest then k * LOW + rest - (h * LOW + low)
                  else k * LOW + rest + WORD - (h * LOW + low)) < LOW
  {
    assert LOW * 4194304 == WORD;
  }

  /** Among the numbers with given low bits there is one in the window that ends at the reference. */
  lemma RecoverExact(v: nat, reference: nat)
    requires v < WORD && reference < WORD
    ensures Recover(Save(v), reference) == Rounded(v) <==> Near(v, reference)
  {
    SavedLow(v);
    var x, low := Rounded(v), Save(v) * SHIFT;
    var h, k, rest := x / LOW, reference / LOW, reference % LOW;
    assert x == h * LOW + low && reference == k * LOW + rest;
    assert LOW * 4194304 == WORD;
    HighParts(h, k, low, rest);
    var high := if rest < low then (if k == 0 then 4194303 else k - 1) else k;
    assert Recover(Save(v), reference) == high * LOW + low;
  }

  lemma Halves(a: nat, b: nat)
    requires a < HALF && b < HALF
    ensures (a + b * HALF) % HALF == a && (a + b * HALF) / HALF == b
  {}

  /** Both times are recovered, but for their 10 low bits, if and only if each reference is near. */
  lemma PackUnpack(runningSince: nat, totalTime: nat, nowRef: nat, totalRef: nat)
    requires runningSince < WORD && totalTime < WORD && nowRef < WORD && totalRef < WORD
    ensures Unpack(Pack(runningSince, totalTime), nowRef, totalRef) == (Rounded(runningSince), Rounded(totalTime))
            <==> Near(runningSince, nowRef) && Near(totalTime, totalRef)
  {
    Halves(Save(runningSince), Save(totalTime));
    RecoverExact(runningSince, nowRef);
    RecoverExact(totalTime, totalRef);
  }
}

/** Symbol lookup through a GNU hash table, as core/elf.cc does it: a bloom filter, a bucket, and a
    walk along the bucket's chain.  The reference is a scan of all hashed symbols.
 */
module GnuHash {

  import opened Wrappers

  type Name = seq<nat>    // the bytes before the terminating zero

  const WORD32: nat := 0x1_0000_0000
  const WORD64: nat := 0x1_0000_0000_0000_0000
  const BITS: nat := 64   // bits in a bloom word

  /** The table and the symbols it speaks of; `chains[i - symndx]` belongs to symbol i, `versions[i]` is the
      old-version bit of its DT_VERSYM entry. */
  datatype Table = Table(buckets: seq<nat>, symndx: nat, bloom: seq<nat>, shift2: nat, chains: seq<nat>,
                         names: seq<Name>, versions: Option<seq<bool>>)

  // ------------------------------------------------------------------ the hash

  /** h * 33 + c over all bytes, without bound. */
  function Fold(s: Name, h: nat): (r: nat) {
    if s == [] then h else Fold(s[1..], h * 33 + s[0])
  }

  function Hash(s: Name): (r: nat)
    ensures r < WORD32
  {
    Fold(s, 5381) % WORD32
  }

  /** Two starting values that agree modulo m lead to values that agree modulo m. */
  lemma {:induction false} FoldMod(s: Name, h: nat, k: nat)
    requires h % WORD32 == k % WORD32
    ensures Fold(s, h) % WORD32 == Fold(s, k) % WORD32
  {
    if s != [] {
      MulAddMod(h, k, s[0]);
      FoldMod(s[1..], h * 33 + s[0], k * 33 + s[0]);
    }
  }

  lemma MulAddMod(h: nat, k: nat, c: nat)
    requires h % WORD32 == k % WORD32
    ensures (h * 33 + c) % WORD32 == (k * 33 + c) % WORD32
  {
    var q, p, r := h / WORD32, k / WORD32, h % WORD32;
    assert h * 33 + c == WORD32 * (33 * q) + (r * 33 + c);
    assert k * 33 + c == WORD32 * (33 * p) + (r * 33 + c);
    AddMultiple(r * 33 + c, 33 * q);
    AddMultiple(r * 33 + c, 33 * p);
  }

  lemma AddMultiple(x: nat, q: nat)
    ensures (WORD32 * q + x) % WORD32 == x % WORD32
  {
    var d, r := x / WORD32, x % WORD32;
    assert WORD32 * q + x == WORD32 * (q + d) + r;
  }

  lemma {:induction false} FoldAppend(s: Name, c: nat, h: nat)
    ensures Fold(s + [c], h) == Fold(s, h) * 33 + c
  {
    if s != [] {
      assert (s + [c])[1..] == s[1..] + [c];
      FoldAppend(s[1..], c, h * 33 + s[0]);
    } else {
      assert s + [c] == [c] && [c][1..] == [];
    }
  }

  /** The hash starts at 5381, and each byte multiplies it by 33 and is added, in 32 bits. */
  lemma HashStep(s: Name, c: nat)
    ensures Hash([]) == 5381
    ensures Hash(s + [c]) == (Hash(s) * 33 + c) % 0x1_0000_0000
  {
    FoldAppend(s, c, 5381);
    MulAddMod(Fold(s, 5381), Hash(s), c);
  }

  /** dl_new_hash(): the running value wraps at 64 bits, the result is cut to 32. */
  method DlNewHash(s: Name) returns (r: nat)
    ensures r == Hash(s)
  {
    var h: nat := 5381;
    var i := 0;
    while i < |s|
      invariant i <= |s| && h < WORD64
      invariant Fold(s[i..], h) % WORD32 == Fold(s, 5381) % WORD32
    {
      assert s[i..][1..] == s[i + 1..];
      CutTo64(h * 33 + s[i]);
      FoldMod(s[i + 1..], (h * 33 + s[i]) % WORD64, h * 33 + s[i]);
      h := (h * 33 + s[i]) % WORD64;
      i := i + 1;
    }
    return h % WORD32;
  }

  lemma CutTo64(x: nat)
    ensures (x % WORD64) % WORD32 == x % WORD32
  {
    assert WORD64 == WORD32 * WORD32;
    var q, r := x / WORD64, x % WORD64;
    assert x == WORD32 * (WORD32 * q) + r;
    AddMultiple(r, WORD32 * q);
  }

  // ------------------------------------------------------------------ well-formed tables

  /** Shift right by k bits. */
  function Shr(x: nat, k: nat): (r: nat) {
    if k == 0 then x else Shr(x / 2, k - 1)
  }

  predicate BitSet(x: nat, k: nat) { Shr(x, k) % 2 == 1 }

  function BloomWord(t: Table, h: nat): (r: nat)
    requires |t.bloom| > 0
  {
    t.bloom[(h / BITS) % |t.bloom|]
  }

  /** The chain word of symbol i. */
  function Word(t: Table, i: nat): (r: nat)
    requires t.symndx <= i < t.symndx + |t.chains|
  {
    t.chains[i - t.symndx]
  }

  /** Symbol i is hashed. */
  predicate Hashed(t: Table, i: nat) { t.symndx <= i < |t.names| }

  function Bucket(t: Table, h: nat): (b: nat)
    requires |t.buckets| > 0
    ensures b < |t.buckets|
  {
    h % |t.buckets|
  }

  /** Both bits of hash h are set in its 64-bit bloom word. */
  predicate BloomHas(t: Table, h: nat)
    requires |t.bloom| > 0
  {
    var w := t.bloom[(h / 64) % |t.bloom|];
    BitSet(w, h % 64) && BitSet(w, Shr(h, t.shift2) % 64)
  }

  /** What the linker writes for symbol i: its hash but for the lowest bit in the chain, both its bits
      in the bloom word. */
  predicate SymbolOk(t: Table, i: nat)
    requires |t.bloom| > 0 && |t.chains| == |t.names| - t.symndx
  {
    Hashed(t, i) ==>
      var h := Hash(t.names[i]);
      Word(t, i) / 2 == h / 2 && BloomHas(t, h)
  }

  /** The chain of bucket b is the symbols first..last, marked by the lowest bit of the last one's word. */
  predicate Run(t: Table, b: nat, first: nat, last: nat)
    requires 0 < |t.buckets| && |t.chains| == |t.names| - t.symndx
  {
    && t.symndx <= first <= last < |t.names|
    && (forall i :: first <= i <= last ==> (Word(t, i) % 2 == 1 <==> i == last))
    && (forall i :: t.symndx <= i < |t.names| && Hash(t.names[i]) % |t.buckets| == b ==> first <= i <= last)
  }

  predicate BucketOk(t: Table, b: nat)
    requires 0 < |t.buckets| && |t.chains| == |t.names| - t.symndx
  {
    b < |t.buckets| ==>
      if t.buckets[b] == 0 then forall i :: t.symndx <= i < |t.names| ==> Hash(t.names[i]) % |t.buckets| != b
      else exists last :: 0 <= last < |t.names| && Run(t, b, t.buckets[b], last)
  }

  ghost predicate WellFormed(t: Table) {
    && |t.buckets| > 0 && |t.bloom| > 0 && 0 < t.symndx && |t.chains| == |t.names| - t.symndx
    && (t.versions.Some? ==> |t.versions.value| == |t.names|)
    && (forall i: nat :: SymbolOk(t, i))
    && (forall b: nat :: BucketOk(t, b))
  }

  // ------------------------------------------------------------------ the lookup

  /** A symbol the lookup may return: the name, and not an old version unless it is a self lookup. */
  predicate Matches(t: Table, name: Name, self: bool, i: nat)
    requires i < |t.names| && (t.versions.Some? ==> |t.versions.value| == |t.names|)
  {
    t.names[i] == name && (self || t.versions.None? || !t.versions.value[i])
  }

  /** The reference: the first match of a scan from symbol i on. */
  function Scan(t: Table, name: Name, self: bool, i: nat): (r: Option<nat>)
    requires t.versions.Some? ==> |t.versions.value| == |t.names|
    decreases |t.names| - i
  {
    if i >= |t.names| then None
    else if Matches(t, name, self, i) then Some(i)
    else Scan(t, name, self, i + 1)
  }

  lemma {:induction false} ScanSkips(t: Table, name: Name, self: bool, i: nat, j: nat)
    requires t.versions.Some? ==> |t.versions.value| == |t.names|
    requires i <= j <= |t.names| && forall k :: i <= k < j ==> !Matches(t, name, self, k)
    ensures Scan(t, name, self, i) == Scan(t, name, self, j)
    decreases j - i
  {
    if i < j {
      ScanSkips(t, name, self, i + 1, j);
    }
  }

  /** No match between i and the end: the scan finds nothing. */
  lemma ScanFails(t: Table, name: Name, self: bool, i: nat)
    requires t.versions.Some? ==> |t.versions.value| == |t.names|
    requires forall k :: i <= k < |t.names| ==> !Matches(t, name, self, k)
    ensures Scan(t, name, self, i) == None
  {
    if i < |t.names| {
      ScanSkips(t, name, self, i, |t.names|);
    }
  }

  /** The bloom test of the lookup: it looks at all bits from the symbol's on, not at one bit. */
  predicate MayHave(t: Table, h: nat)
    requires |t.bloom| > 0
  {
    Shr(BloomWord(t, h), h % BITS) != 0 && Shr(BloomWord(t, h), Shr(h, t.shift2) % BITS) != 0
  }

  function Two(k: nat): (r: nat)
    ensures r > 0
  {
    if k == 0 then 1 else 2 * Two(k - 1)
  }

  /** The bloom test passes exactly if neither bit lies above the highest one set in the 64-bit word: it is
      weaker than a test of the two bits. */
  lemma BloomExact(t: Table, h: nat)
    requires |t.bloom| > 0
    ensures var w := t.bloom[(h / 64) % |t.bloom|];
            && (MayHave(t, h) <==> w >= Two(h % 64) && w >= Two(Shr(h, t.shift2) % 64))
            && (BloomHas(t, h) ==> MayHave(t, h))
  {
    var w := t.bloom[(h / 64) % |t.bloom|];
    ShrZero(w, h % 64);
    ShrZero(w, Shr(h, t.shift2) % 64);
  }

  lemma {:induction false} ShrZero(x: nat, k: nat)
    ensures Shr(x, k) != 0 <==> x >= Two(k)
  {
    if k > 0 {
      ShrZero(x / 2, k - 1);
    }
  }

  /** The bloom test never hides a symbol that is there. */
  lemma BloomPasses(t: Table, i: nat)
    requires WellFormed(t) && Hashed(t, i)
    ensures MayHave(t, Hash(t.names[i]))
  {
    assert SymbolOk(t, i);
  }

  lemma BloomRejects(t: Table, name: Name, self: bool)
    requires WellFormed(t) && !MayHave(t, Hash(name))
    ensures Scan(t, name, self, t.symndx) == None
  {
    forall k | t.symndx <= k < |t.names| ensures !Matches(t, name, self, k) {
      BloomPasses(t, k);
    }
    ScanFails(t, name, self, t.symndx);
  }

  lemma EmptyBucket(t: Table, name: Name, self: bool)
    requires WellFormed(t) && t.buckets[Bucket(t, Hash(name))] == 0
    ensures Scan(t, name, self, t.symndx) == None
  {
    assert BucketOk(t, Bucket(t, Hash(name)));
    ScanFails(t, name, self, t.symndx);
  }

  /** Outside the run of its bucket there is no symbol of the name. */
  lemma OutsideRun(t: Table, name: Name, self: bool, first: nat, last: nat, k: nat)
    requires WellFormed(t) && Run(t, Bucket(t, Hash(name)), first, last) && Hashed(t, k) && !(first <= k <= last)
    ensures !Matches(t, name, self, k)
  {}

  /** The chain walk from the first symbol of the bucket on. */
  method WalkChain(t: Table, name: Name, self: bool, hashval: nat, first: nat, ghost last: nat) returns (r: Option<nat>)
    requires WellFormed(t) && hashval == Hash(name) && Run(t, Bucket(t, Hash(name)), first, last)
    ensures r == Scan(t, name, self, t.symndx)
  {
    var idx := first;
    var more := true;
    while more
      invariant first <= idx <= last + 1 && (more <==> idx <= last)
      invariant forall k :: first <= k < idx ==> !Matches(t, name, self, k)
      decreases last + 1 - idx
    {
      var word := Word(t, idx);
      if word / 2 == hashval / 2 && (self || t.versions.None? || !t.versions.value[idx]) && t.names[idx] == name {
        forall k | t.symndx <= k < idx ensures !Matches(t, name, self, k) {
          if k < first { OutsideRun(t, name, self, first, last, k); }
        }
        ScanSkips(t, name, self, t.symndx, idx);
        return Some(idx);
      }
      assert SymbolOk(t, idx);
      more := word % 2 == 0;
      idx := idx + 1;
    }
    forall k | t.symndx <= k < |t.names| ensures !Matches(t, name, self, k) {
      if !(first <= k <= last) { OutsideRun(t, name, self, first, last, k); }
    }
    ScanFails(t, name, self, t.symndx);
    return None;
  }

  /** lookup_symbol_gnu(): the same symbol as the scan. */
  method LookupGnu(t: Table, name: Name, self: bool) returns (r: Option<nat>)
    requires WellFormed(t)
    ensures r == Scan(t, name, self, t.symndx)
  {
    var hashval := DlNewHash(name);
    if !MayHave(t, hashval) {
      BloomRejects(t, name, self);
      return None;
    }
    var idx := t.buckets[Bucket(t, hashval)];
    if idx == 0 {
      EmptyBucket(t, name, self);
      return None;
    }
    assert BucketOk(t, Bucket(t, hashval));
    ghost var last :| 0 <= last < |t.names| && Run(t, Bucket(t, hashval), idx, last);
    r := WalkChain(t, name, self, hashval, idx, last);
  }

  /** The scan finds the lowest match, and finds one if there is any. */
  lemma {:induction false} ScanLowest(t: Table, name: Name, self: bool, i: nat)
    requires t.versions.Some? ==> |t.versions.value| == |t.names|
    ensures var r := Scan(t, name, self, i);
            && (r.Some? ==> i <= r.value < |t.names| && Matches(t, name, self, r.value)
                            && forall k :: i <= k < r.value ==> !Matches(t, name, self, k))
            && (r.None? ==> forall k :: i <= k < |t.names| ==> !Matches(t, name, self, k))
    decreases |t.names| - i
  {
    if i < |t.names| && !Matches(t, name, self, i) {
      ScanLowest(t, name, self, i + 1);
    }
  }
}

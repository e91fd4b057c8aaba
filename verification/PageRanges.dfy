/** The page range allocator of core/mempool.cc, counted in pages.

    Memory is a row of pages.  A free range keeps its size in its first page and a pointer
    back to its first page in its last page; the bitmap tells, for the first and the last page
    of a range only, whether the range is free.  Bits inside a range are stale.  The ghost
    field `seg` says which segment every page belongs to.
 */
module PageRanges {

  import opened Wrappers
  import opened Lists
  import opened Multiples

  /** Ranges of 2^16 pages or more share one list, ordered by size. */
  const MAX_ORDER: nat := 16

  // ------------------------------------------------------------------ orders

  function Pow2(k: nat): (r: nat)
    ensures r > 0
  {
    if k == 0 then 1 else 2 * Pow2(k - 1)
  }

  /** ilog2(): the greatest power of two that fits. */
  function Log2(n: nat): (r: nat)
    ensures n > 0 ==> Pow2(r) <= n < Pow2(r + 1)
  {
    if n <= 1 then 0 else 1 + Log2(n / 2)
  }

  /** ilog2_roundup(): the least power of two that n fits in. */
  function Log2Up(n: nat): (r: nat)
    ensures n <= Pow2(r)
    ensures r > 0 ==> Pow2(r - 1) < n
  {
    if n <= 1 then 0 else Log2(n - 1) + 1
  }

  lemma {:induction false} Pow2Grows(a: nat, b: nat)
    requires a <= b
    ensures Pow2(a) <= Pow2(b)
  {
    if a < b {
      Pow2Grows(a, b - 1);
    }
  }

  /** The list that holds the free ranges of this length. */
  function Order(len: nat): (r: nat)
    ensures r <= MAX_ORDER
  {
    if Log2(len) >= MAX_ORDER then MAX_ORDER else Log2(len)
  }

  lemma OrderBounds(len: nat, o: nat)
    requires len > 0
    ensures o <= Order(len) ==> Pow2(o) <= len
    ensures Order(len) < o && Order(len) < MAX_ORDER ==> len < Pow2(o)
  {
    if o <= Order(len) {
      Pow2Grows(o, Log2(len));
    } else if Order(len) < MAX_ORDER {
      Pow2Grows(Log2(len) + 1, o);
    }
  }

  /** The last list holds the ranges of 65536 pages or more, the list of another order those of 2^order
      pages up to twice as many. */
  lemma OrderExact(len: nat)
    requires len > 0
    ensures Order(len) == 16 <==> len >= 65536
    ensures Order(len) < 16 ==> Pow2(Order(len)) <= len < Pow2(Order(len) + 1)
  {
    assert Pow2(4) == 16 && Pow2(8) == 256 && Pow2(12) == 4096 && Pow2(16) == 65536;
    OrderBounds(len, 16);
  }

  /** The lowest set bit at or above `from`; |bits| when there is none. */
  function LowestSet(bits: seq<bool>, from: nat): (r: nat)
    requires from <= |bits|
    ensures from <= r <= |bits| && (r < |bits| ==> bits[r])
    ensures forall i :: from <= i < r ==> !bits[i]
    decreases |bits| - from
  {
    if from == |bits| || bits[from] then from else LowestSet(bits, from + 1)
  }

  // ------------------------------------------------------------------ segments

  datatype Kind = Free | Used | Outside

  /** A page's segment: a free range, an allocated block, or memory that is not the allocator's. */
  datatype Seg = Seg(start: nat, len: nat, kind: Kind)

  predicate SegAt(s: seq<Seg>, i: nat) {
    i < |s| ==>
      && s[i].start <= i < s[i].start + s[i].len <= |s|
      && (forall j :: s[i].start <= j < s[i].start + s[i].len ==> s[j] == s[i])
  }

  /** Every page is in one segment, and all pages of a segment agree on it. */
  ghost predicate Tiled(s: seq<Seg>) {
    forall i: nat :: SegAt(s, i)
  }

  predicate Apart(s: seq<Seg>, i: nat) {
    i + 1 < |s| && s[i].kind.Free? && s[i + 1].kind.Free? ==> s[i] == s[i + 1]
  }

  /** No two free ranges touch. */
  ghost predicate Maximal(s: seq<Seg>) {
    forall i: nat :: Apart(s, i)
  }

  /** p is the first page of a free range. */
  predicate FreeAt(s: seq<Seg>, p: nat) {
    p < |s| && s[p].start == p && s[p].kind.Free?
  }

  /** [p, p + n) lies inside one free range. */
  predicate Inside(s: seq<Seg>, p: nat, n: nat) {
    p < |s| && n > 0 && s[p].kind.Free? && p + n <= s[p].start + s[p].len
  }

  /** Allocate [p, p + n) out of its free range; with `fill`, page by page. */
  ghost function Carve(s: seq<Seg>, p: nat, n: nat, fill: bool): (r: seq<Seg>)
    requires Tiled(s) && Inside(s, p, n)
    ensures |r| == |s|
  {
    var v, e := s[p].start, s[p].start + s[p].len;
    assert SegAt(s, p);
    seq(|s|, i requires 0 <= i < |s| =>
      if v <= i < p then Seg(v, p - v, Free)
      else if p <= i < p + n then (if fill then Seg(i, 1, Used) else Seg(p, n, Used))
      else if p + n <= i < e then Seg(p + n, e - (p + n), Free)
      else s[i])
  }

  /** [p, p + n) is made of whole segments, none of them free. */
  ghost predicate Whole(s: seq<Seg>, p: nat, n: nat) {
    && n > 0 && p + n <= |s|
    && s[p].start == p && s[p + n - 1].start + s[p + n - 1].len == p + n
    && (forall i :: p <= i < p + n ==> !s[i].kind.Free?)
  }

  /** Where the free range around [p, p + n) begins and ends once these pages are free. */
  function Low(s: seq<Seg>, p: nat): (r: nat)
    requires p < |s|
  {
    if p > 0 && s[p - 1].kind.Free? then s[p - 1].start else p
  }

  function High(s: seq<Seg>, e: nat): (r: nat)
    requires e <= |s|
  {
    if e < |s| && s[e].kind.Free? then e + s[e].len else e
  }

  /** Free [p, p + n) and join the free neighbours. */
  ghost function Merge(s: seq<Seg>, p: nat, n: nat): (r: seq<Seg>)
    requires Tiled(s) && Whole(s, p, n)
    ensures |r| == |s|
  {
    var lo, hi := Low(s, p), High(s, p + n);
    seq(|s|, i requires 0 <= i < |s| => if lo <= i < hi then Seg(lo, hi - lo, Free) else s[i])
  }

  lemma Separate(s: seq<Seg>, i: nat, j: nat)
    requires Tiled(s) && i < |s| && j < |s|
    ensures s[i] == s[j] || s[i].start + s[i].len <= s[j].start || s[j].start + s[j].len <= s[i].start
  {
    assert SegAt(s, i) && SegAt(s, j);
    assert s[i].start <= s[j].start < s[i].start + s[i].len ==> s[s[j].start] == s[i];
    assert s[j].start <= s[i].start < s[j].start + s[j].len ==> s[s[i].start] == s[j];
  }

  lemma CarveKeeps(s: seq<Seg>, p: nat, n: nat, fill: bool)
    requires Tiled(s) && Maximal(s) && Inside(s, p, n)
    ensures Tiled(Carve(s, p, n, fill)) && Maximal(Carve(s, p, n, fill))
    ensures Whole(Carve(s, p, n, fill), p, n)
  {
    var r := Carve(s, p, n, fill);
    assert SegAt(s, p);
    forall i: nat ensures SegAt(r, i) {
      assert SegAt(s, i);
      if i < |s| { Separate(s, i, p); }
    }
    forall i: nat ensures Apart(r, i) {
      assert Apart(s, i) && SegAt(s, i) && SegAt(s, i + 1);
    }
  }

  lemma Borders(s: seq<Seg>, p: nat, n: nat)
    requires Tiled(s) && Whole(s, p, n)
    ensures p > 0 ==> s[p - 1].start + s[p - 1].len == p
    ensures p + n < |s| ==> s[p + n].start == p + n
    ensures Low(s, p) <= p && p + n <= High(s, p + n) <= |s|
  {
    assert p > 0 ==> SegAt(s, p - 1);
    assert SegAt(s, p + n - 1) && SegAt(s, p + n);
  }

  lemma MergeKeeps(s: seq<Seg>, p: nat, n: nat)
    requires Tiled(s) && Maximal(s) && Whole(s, p, n)
    ensures Tiled(Merge(s, p, n)) && Maximal(Merge(s, p, n))
  {
    Borders(s, p, n);
    var r := Merge(s, p, n);
    var lo, hi := Low(s, p), High(s, p + n);
    forall i: nat ensures SegAt(r, i) {
      assert SegAt(s, i);
      if i < |s| {
        Separate(s, i, p);
        Separate(s, i, p + n - 1);
        if p > 0 { Separate(s, i, p - 1); }
        if p + n < |s| { Separate(s, i, p + n); }
      }
    }
    forall i: nat ensures Apart(r, i) {
      MergeApart(s, p, n, i);
    }
  }

  lemma MergeApart(s: seq<Seg>, p: nat, n: nat, i: nat)
    requires Tiled(s) && Maximal(s) && Whole(s, p, n)
    ensures Apart(Merge(s, p, n), i)
  {
    Borders(s, p, n);
    var lo, hi := Low(s, p), High(s, p + n);
    assert Apart(s, i) && SegAt(s, i) && SegAt(s, i + 1);
    assert SegAt(s, p + n) && (p > 0 ==> SegAt(s, p - 1));
  }

  /** The free ranges are determined by which pages are free: they are the maximal runs. */
  lemma Canonical(s: seq<Seg>, t: seq<Seg>)
    requires Tiled(s) && Maximal(s) && Tiled(t) && Maximal(t) && |s| == |t|
    requires forall i :: 0 <= i < |s| ==> (s[i].kind.Free? <==> t[i].kind.Free?)
    requires forall i :: 0 <= i < |s| && !s[i].kind.Free? ==> s[i] == t[i]
    ensures s == t
  {
    forall i | 0 <= i < |s| ensures s[i] == t[i] {
      if s[i].kind.Free? {
        Covers(s, t, i);
        Covers(t, s, i);
      }
    }
  }

  lemma Covers(s: seq<Seg>, t: seq<Seg>, i: nat)
    requires Tiled(s) && Tiled(t) && Maximal(t) && |s| == |t| && i < |s| && s[i].kind.Free?
    requires forall i :: 0 <= i < |s| ==> (s[i].kind.Free? <==> t[i].kind.Free?)
    ensures t[i].start <= s[i].start && s[i].start + s[i].len <= t[i].start + t[i].len
  {
    var b, e := t[i].start, t[i].start + t[i].len;
    assert SegAt(s, i) && SegAt(t, i) && SegAt(t, e);
    assert Apart(t, e - 1);
    if b > 0 {
      assert SegAt(t, b - 1) && Apart(t, b - 1);
    }
  }

  /** Freeing changes the state of exactly the pages handed in; the other pages in use keep their blocks. */
  lemma MergeKinds(s: seq<Seg>, p: nat, n: nat, i: nat)
    requires Tiled(s) && Whole(s, p, n) && i < |s|
    ensures Merge(s, p, n)[i].kind.Free? <==> s[i].kind.Free? || p <= i < p + n
    ensures !Merge(s, p, n)[i].kind.Free? ==> Merge(s, p, n)[i] == s[i]
  {
    Borders(s, p, n);
    assert SegAt(s, p + n) && (p > 0 ==> SegAt(s, p - 1));
  }

  /** Allocating takes exactly the pages handed out; the pages already in use keep their blocks. */
  lemma CarveKinds(s: seq<Seg>, p: nat, n: nat, fill: bool, i: nat)
    requires Tiled(s) && Inside(s, p, n) && i < |s|
    ensures Carve(s, p, n, fill)[i].kind.Free? <==> s[i].kind.Free? && !(p <= i < p + n)
    ensures !s[i].kind.Free? ==> Carve(s, p, n, fill)[i] == s[i]
    ensures p <= i < p + n ==> s[i].kind.Free? && Carve(s, p, n, fill)[i].kind.Used?
  {
    assert SegAt(s, p);
  }

  /** Freeing what was allocated gives back the ranges there were. */
  lemma AllocFree(s: seq<Seg>, p: nat, n: nat, fill: bool)
    requires Tiled(s) && Maximal(s) && Inside(s, p, n)
    ensures Tiled(Carve(s, p, n, fill)) && Whole(Carve(s, p, n, fill), p, n)
    ensures Merge(Carve(s, p, n, fill), p, n) == s
  {
    CarveKeeps(s, p, n, fill);
    var r := Carve(s, p, n, fill);
    MergeKeeps(r, p, n);
    forall i | 0 <= i < |s|
      ensures Merge(r, p, n)[i].kind.Free? <==> s[i].kind.Free?
      ensures !s[i].kind.Free? ==> Merge(r, p, n)[i] == s[i]
    {
      CarveKinds(s, p, n, fill, i);
      MergeKinds(r, p, n, i);
    }
    Canonical(s, Merge(r, p, n));
  }

  // ------------------------------------------------------------------ runs

  /** What a caller does: take [p, p + n), or give it back. */
  datatype Op = Take(p: nat, n: nat, fill: bool) | Give(p: nat, n: nat)

  ghost predicate Enabled(s: seq<Seg>, op: Op) {
    if op.Take? then Inside(s, op.p, op.n)
    else Whole(s, op.p, op.n) && forall i :: op.p <= i < op.p + op.n ==> s[i].kind.Used?
  }

  ghost function Next(s: seq<Seg>, op: Op): (r: seq<Seg>)
    requires Tiled(s) && Enabled(s, op)
    ensures |r| == |s|
  {
    if op.Take? then Carve(s, op.p, op.n, op.fill) else Merge(s, op.p, op.n)
  }

  ghost predicate Run(states: seq<seq<Seg>>, ops: seq<Op>) {
    && |states| == |ops| + 1
    && Tiled(states[0]) && Maximal(states[0])
    && (forall k {:trigger ops[k]} :: 0 <= k < |ops| ==>
          Tiled(states[k]) && Enabled(states[k], ops[k]) && states[k + 1] == Next(states[k], ops[k]))
  }

  /** In every run: one segment per page, no free ranges touch, and the free and the allocated
      pages together are the pages there were. */
  lemma {:induction false} RunKeeps(states: seq<seq<Seg>>, ops: seq<Op>, k: nat)
    requires Run(states, ops) && k <= |ops|
    ensures Tiled(states[k]) && Maximal(states[k]) && |states[k]| == |states[0]|
    ensures forall i :: 0 <= i < |states[0]| ==> (states[k][i].kind.Outside? <==> states[0][i].kind.Outside?)
  {
    if k > 0 {
      RunKeeps(states, ops, k - 1);
      StepKeeps(states[k - 1], ops[k - 1]);
    }
  }

  lemma StepKeeps(s: seq<Seg>, op: Op)
    requires Tiled(s) && Maximal(s) && Enabled(s, op)
    ensures Tiled(Next(s, op)) && Maximal(Next(s, op))
    ensures forall i :: 0 <= i < |s| ==> (Next(s, op)[i].kind.Outside? <==> s[i].kind.Outside?)
  {
    if op.Take? { CarveKeeps(s, op.p, op.n, op.fill); } else { MergeKeeps(s, op.p, op.n); }
    forall i | 0 <= i < |s| ensures Next(s, op)[i].kind.Outside? <==> s[i].kind.Outside? {
      if op.Take? { CarveKinds(s, op.p, op.n, op.fill, i); } else { MergeKinds(s, op.p, op.n, i); }
    }
  }

  /** The pages outside [p, p + n) are as in s. */
  ghost predicate SameElsewhere(s: seq<Seg>, r: seq<Seg>, p: nat, n: nat) {
    && |r| == |s|
    && (forall i :: 0 <= i < |s| && !(p <= i < p + n) ==> (r[i].kind.Free? <==> s[i].kind.Free?))
    && (forall i :: 0 <= i < |s| && !(p <= i < p + n) && !s[i].kind.Free? ==> r[i] == s[i])
  }

  /** A block allocated with `fill` and given back in pieces, in any order and of any size: when
      all of it is back, the free ranges are those there were before the allocation. */
  lemma GiveBackInPieces(s: seq<Seg>, p: nat, n: nat, states: seq<seq<Seg>>, ops: seq<Op>)
    requires Tiled(s) && Maximal(s) && Inside(s, p, n) && Run(states, ops) && states[0] == Carve(s, p, n, true)
    requires forall k :: 0 <= k < |ops| ==> ops[k].Give? && p <= ops[k].p && ops[k].p + ops[k].n <= p + n
    requires |states[|ops|]| == |s| ==> forall i :: p <= i < p + n && i < |s| ==> states[|ops|][i].kind.Free?
    ensures states[|ops|] == s
  {
    assert SegAt(s, p);
    PiecesElsewhere(s, p, n, states, ops, |ops|);
    RunKeeps(states, ops, |ops|);
    Canonical(s, states[|ops|]);
  }

  lemma {:induction false} PiecesElsewhere(s: seq<Seg>, p: nat, n: nat, states: seq<seq<Seg>>, ops: seq<Op>, k: nat)
    requires Tiled(s) && Maximal(s) && Inside(s, p, n) && Run(states, ops) && states[0] == Carve(s, p, n, true)
    requires forall k :: 0 <= k < |ops| ==> ops[k].Give? && p <= ops[k].p && ops[k].p + ops[k].n <= p + n
    requires k <= |ops|
    ensures SameElsewhere(s, states[k], p, n)
  {
    if k == 0 {
      forall i | 0 <= i < |s|
        ensures states[0][i].kind.Free? <==> s[i].kind.Free? && !(p <= i < p + n)
        ensures !s[i].kind.Free? ==> states[0][i] == s[i]
      {
        CarveKinds(s, p, n, true, i);
      }
    } else {
      PiecesElsewhere(s, p, n, states, ops, k - 1);
      var r, op := states[k - 1], ops[k - 1];
      assert op == ops[k - 1] && op.Give? && states[k] == Next(r, op);
      forall i | 0 <= i < |s| && !(p <= i < p + n)
        ensures states[k][i].kind.Free? <==> r[i].kind.Free?
        ensures !r[i].kind.Free? ==> states[k][i] == r[i]
      {
        MergeKinds(r, op.p, op.n, i);
      }
    }
  }

  // ------------------------------------------------------------------ lists

  /** The list holds exactly the starts of the free ranges of order o, once each. */
  ghost predicate ListOk(list: seq<nat>, o: nat, ranges: map<nat, nat>) {
    && NoRepeats(list)
    && (forall p :: p in list <==> p in ranges && Order(ranges[p]) == o)
  }

  predicate Ascending(list: seq<nat>, ranges: map<nat, nat>) {
    forall i, j :: 0 <= i < j < |list| && list[i] in ranges && list[j] in ranges ==> ranges[list[i]] <= ranges[list[j]]
  }

  ghost predicate ListAt(lists: seq<seq<nat>>, notEmpty: seq<bool>, ranges: map<nat, nat>, o: nat) {
    o < |lists| && o < |notEmpty| ==> notEmpty[o] == (lists[o] != []) && ListOk(lists[o], o, ranges)
  }

  ghost predicate ListsOk(lists: seq<seq<nat>>, notEmpty: seq<bool>, ranges: map<nat, nat>) {
    && |lists| == |notEmpty| == MAX_ORDER + 1
    && (forall o: nat :: ListAt(lists, notEmpty, ranges, o))
    && Ascending(lists[MAX_ORDER], ranges)
  }

  function IndexOf(list: seq<nat>, p: nat): (k: nat)
    requires p in list
    ensures k < |list| && list[k] == p
  {
    if list[0] == p then 0 else 1 + IndexOf(list[1..], p)
  }

  function Erase(list: seq<nat>, p: nat): (r: seq<nat>)
    requires p in list
  {
    Without(list, IndexOf(list, p))
  }

  lemma EraseKeeps(list: seq<nat>, p: nat, o: nat, ranges: map<nat, nat>)
    requires ListOk(list, o, ranges) && p in list && p in ranges
    ensures ListOk(Erase(list, p), o, ranges - {p})
  {
    WithoutMembers(list, IndexOf(list, p));
  }

  lemma EraseAscending(list: seq<nat>, p: nat, ranges: map<nat, nat>)
    requires p in list && Ascending(list, ranges)
    ensures Ascending(Erase(list, p), ranges - {p})
  {
    var k, r := IndexOf(list, p), Erase(list, p);
    assert forall i :: 0 <= i < |r| ==> r[i] == list[if i < k then i else i + 1];
  }

  lemma AscendingLess(list: seq<nat>, p: nat, ranges: map<nat, nat>)
    requires Ascending(list, ranges)
    ensures Ascending(list, ranges - {p})
  {}

  lemma InsertKeeps(list: seq<nat>, k: nat, p: nat, o: nat, ranges: map<nat, nat>, len: nat)
    requires ListOk(list, o, ranges) && k <= |list| && p !in ranges && Order(len) == o
    ensures ListOk(InsertAt(list, k, p), o, ranges[p := len])
  {
    InsertMembers(list, k, p);
  }

  lemma InsertAscending(list: seq<nat>, k: nat, p: nat, ranges: map<nat, nat>, len: nat)
    requires p !in ranges && Ascending(list, ranges) && k <= |list|
    requires forall i :: 0 <= i < k ==> list[i] in ranges && ranges[list[i]] <= len
    requires forall i :: k <= i < |list| ==> list[i] in ranges && len <= ranges[list[i]]
    ensures Ascending(InsertAt(list, k, p), ranges[p := len])
  {
    var r := InsertAt(list, k, p);
    assert forall i :: 0 <= i < |r| ==> r[i] == if i < k then list[i] else if i == k then p else list[i - 1];
  }

  // ------------------------------------------------------------------ end tags

  /** What page i holds: the bit of an end tells whether its segment is free; the first page of
      a free range holds its length, the last one points back to the first. */
  predicate TagAt(s: seq<Seg>, bitmap: seq<bool>, size: seq<nat>, back: seq<nat>, ranges: map<nat, nat>, i: nat)
    requires |s| == |bitmap| == |size| == |back|
  {
    && (i in ranges ==> i < |s|)
    && (i < |s| ==>
          var g := s[i];
          && (i in ranges <==> i == g.start && g.kind.Free?)
          && (i == g.start || i == g.start + g.len - 1 ==> bitmap[i] == g.kind.Free?)
          && (i == g.start && g.kind.Free? ==> size[i] == g.len && ranges[i] == g.len)
          && (i == g.start + g.len - 1 && g.kind.Free? ==> back[i] == g.start))
  }

  ghost predicate TagsOk(s: seq<Seg>, bitmap: seq<bool>, size: seq<nat>, back: seq<nat>, ranges: map<nat, nat>) {
    && |s| == |bitmap| == |size| == |back|
    && (forall i: nat :: TagAt(s, bitmap, size, back, ranges, i))
  }

  /** The headers agree with what is on the lists. */
  ghost predicate SizesOk(size: seq<nat>, ranges: map<nat, nat>) {
    forall p :: p in ranges ==> p < |size| && size[p] == ranges[p]
  }

  /** The tags after Merge: the old ones with the ends of the joined range written. */
  lemma MergeTags(s: seq<Seg>, bitmap: seq<bool>, size: seq<nat>, back: seq<nat>, ranges: map<nat, nat>,
                  p: nat, n: nat, size': seq<nat>, ranges': map<nat, nat>)
    requires Tiled(s) && Whole(s, p, n) && TagsOk(s, bitmap, size, back, ranges)
    requires |size'| == |size| && forall i :: 0 <= i < |size| && i != p && i != Low(s, p) ==> size'[i] == size[i]
    requires Low(s, p) < High(s, p + n) <= |s| && size'[Low(s, p)] == High(s, p + n) - Low(s, p)
    requires ranges' == (ranges - {Low(s, p)} - {p + n})[Low(s, p) := High(s, p + n) - Low(s, p)]
    ensures var lo, hi := Low(s, p), High(s, p + n);
            TagsOk(Merge(s, p, n), bitmap[lo := true][hi - 1 := true], size', back[hi - 1 := lo], ranges')
  {
    Borders(s, p, n);
    var r, lo, hi := Merge(s, p, n), Low(s, p), High(s, p + n);
    var bitmap', back' := bitmap[lo := true][hi - 1 := true], back[hi - 1 := lo];
    forall i: nat ensures TagAt(r, bitmap', size', back', ranges', i) {
      assert SegAt(s, i) && TagAt(s, bitmap, size, back, ranges, i);
      assert SegAt(s, p + n) && (p > 0 ==> SegAt(s, p - 1));
    }
  }

  /** What the tags and the lists hold. */
  datatype Memory = Memory(bitmap: seq<bool>, size: seq<nat>, back: seq<nat>, ranges: map<nat, nat>)

  /** A page_range of `len` pages built at p and inserted. */
  function Build(m: Memory, p: nat, len: nat): Memory
    requires len > 0 && p + len <= |m.size| == |m.back| == |m.bitmap|
  {
    Memory(m.bitmap[p := true][p + len - 1 := true], m.size[p := len], m.back[p + len - 1 := p], m.ranges[p := len])
  }

  /** List the last `shift` pages of the range at v by themselves. */
  function CutTail(m: Memory, v: nat, shift: nat): Memory
    requires v < |m.size| == |m.back| == |m.bitmap| && v + m.size[v] <= |m.size| && shift < m.size[v]
  {
    if shift == 0 then m
    else var m' := Build(m, v + m.size[v] - shift, shift); m'.(size := m'.size[v := m.size[v] - shift])
  }

  /** Keep the last n pages of the range at v and list the rest. */
  function CutHead(m: Memory, v: nat, n: nat): Memory
    requires v < |m.size| == |m.back| == |m.bitmap| && v + m.size[v] <= |m.size| && 0 < n <= m.size[v]
  {
    if m.size[v] == n then m
    else var len := m.size[v] - n; var m' := Build(m, v, len); m'.(size := m'.size[v + len := n])
  }

  /** What allocating [p, p + n) out of the free range [v, e) does to the bits. */
  ghost predicate CarvedBits(b: seq<bool>, b': seq<bool>, v: nat, e: nat, p: nat, n: nat, fill: bool) {
    && |b| == |b'| && v <= p < p + n <= e <= |b|
    && (forall i :: 0 <= i < |b| && !(v <= i < e) ==> b'[i] == b[i])
    && (v < p ==> b'[v] && b'[p - 1])
    && (p + n < e ==> b'[p + n] && b'[e - 1])
    && !b'[p] && !b'[p + n - 1] && (fill ==> forall i :: p <= i < p + n ==> !b'[i])
  }

  /** ... to the sizes and back pointers ... */
  ghost predicate CarvedWords(size: seq<nat>, size': seq<nat>, back: seq<nat>, back': seq<nat>, v: nat, e: nat, p: nat, n: nat) {
    && |size| == |size'| == |back| == |back'| && v <= p < p + n <= e <= |size|
    && (forall i :: 0 <= i < |size| && !(v <= i < e) ==> size'[i] == size[i])
    && (forall i :: 0 <= i < |back| && !(v <= i < e) ==> back'[i] == back[i])
    && (v < p ==> size'[v] == p - v && back'[p - 1] == v)
    && (p + n < e ==> size'[p + n] == e - (p + n) && back'[e - 1] == p + n)
  }

  /** ... and to the listed ranges. */
  ghost predicate CarvedRanges(r: map<nat, nat>, r': map<nat, nat>, v: nat, e: nat, p: nat, n: nat) {
    && (forall i :: i in r' <==> (i in r && i != v) || (i == v < p) || (i == p + n < e))
    && (forall i :: i in r' ==>
          r'[i] == if i == v then p - v else if i == p + n < e then e - (p + n) else if i in r then r[i] else 0)
  }

  ghost predicate Carved(m: Memory, m': Memory, v: nat, e: nat, p: nat, n: nat, fill: bool) {
    && |m.bitmap| == |m.size| && CarvedBits(m.bitmap, m'.bitmap, v, e, p, n, fill)
    && CarvedWords(m.size, m'.size, m.back, m'.back, v, e, p, n) && CarvedRanges(m.ranges, m'.ranges, v, e, p, n)
  }

  /** The tags after Carve. */
  lemma CarveTags(s: seq<Seg>, m: Memory, p: nat, n: nat, fill: bool, m': Memory)
    requires Tiled(s) && Maximal(s) && Inside(s, p, n) && TagsOk(s, m.bitmap, m.size, m.back, m.ranges)
    requires Carved(m, m', s[p].start, s[p].start + s[p].len, p, n, fill)
    ensures TagsOk(Carve(s, p, n, fill), m'.bitmap, m'.size, m'.back, m'.ranges)
    ensures Tiled(Carve(s, p, n, fill)) && Maximal(Carve(s, p, n, fill))
  {
    CarveKeeps(s, p, n, fill);
    var r := Carve(s, p, n, fill);
    forall i: nat ensures TagAt(r, m'.bitmap, m'.size, m'.back, m'.ranges, i) {
      assert SegAt(s, i) && SegAt(s, p) && TagAt(s, m.bitmap, m.size, m.back, m.ranges, i);
    }
  }

  /** The end bits of [p, p + n), or all its bits, are cleared. */
  ghost predicate Cleared(bitmap: seq<bool>, bitmap': seq<bool>, p: nat, n: nat, fill: bool)
    requires n > 0 && p + n <= |bitmap|
  {
    if fill then bitmap' == bitmap[..p] + seq(n, _ => false) + bitmap[p + n..]
    else bitmap' == bitmap[p := false][p + n - 1 := false]
  }

  /** The range at v, off the lists, with its tail and its head cut off. */
  function Cut(m: Memory, v: nat, shift: nat, n: nat): (r: Memory)
    requires v < |m.size| == |m.back| == |m.bitmap| && v + m.size[v] <= |m.size| && 0 < n && n + shift <= m.size[v]
    ensures |r.size| == |r.back| == |r.bitmap| == |m.size|
  {
    CutHead(CutTail(m.(ranges := m.ranges - {v}), v, shift), v, n)
  }

  /** The tags once the rest of the range [v, e) around [p, p + n) is listed, before the block's bits
      are cleared. */
  ghost predicate Parted(m: Memory, c: Memory, v: nat, e: nat, p: nat, n: nat) {
    && |m.bitmap| == |c.bitmap| == |m.size| && v <= p < p + n <= e <= |m.bitmap|
    && (forall i :: 0 <= i < |m.bitmap| && !(v <= i < e) ==> c.bitmap[i] == m.bitmap[i])
    && (v < p ==> c.bitmap[v] && c.bitmap[p - 1]) && (p + n < e ==> c.bitmap[p + n] && c.bitmap[e - 1])
    && CarvedWords(m.size, c.size, m.back, c.back, v, e, p, n) && CarvedRanges(m.ranges, c.ranges, v, e, p, n)
  }

  lemma PartedCarved(m: Memory, c: Memory, v: nat, e: nat, p: nat, n: nat, fill: bool, bitmap': seq<bool>)
    requires Parted(m, c, v, e, p, n) && n > 0 && Cleared(c.bitmap, bitmap', p, n, fill)
    ensures Carved(m, c.(bitmap := bitmap'), v, e, p, n, fill)
  {
    ClearedBits(m.bitmap, c.bitmap, bitmap', v, e, p, n, fill);
  }

  lemma ClearedBits(b: seq<bool>, b1: seq<bool>, b': seq<bool>, v: nat, e: nat, p: nat, n: nat, fill: bool)
    requires |b| == |b1| && 0 < n && v <= p < p + n <= e <= |b| && Cleared(b1, b', p, n, fill)
    requires forall i :: 0 <= i < |b| && !(v <= i < e) ==> b1[i] == b[i]
    requires (v < p ==> b1[v] && b1[p - 1]) && (p + n < e ==> b1[p + n] && b1[e - 1])
    ensures CarvedBits(b, b', v, e, p, n, fill)
  {}

  lemma CutBits(m: Memory, v: nat, shift: nat, n: nat)
    requires v < |m.size| == |m.back| == |m.bitmap| && v + m.size[v] <= |m.size| && 0 < n && n + shift <= m.size[v]
    ensures var b, c, e, p := m.bitmap, Cut(m, v, shift, n).bitmap, v + m.size[v], v + m.size[v] - shift - n;
            && (forall i :: 0 <= i < |b| && !(v <= i < e) ==> c[i] == b[i])
            && (v < p ==> c[v] && c[p - 1]) && (p + n < e ==> c[p + n] && c[e - 1])
  {}

  lemma CutWords(m: Memory, v: nat, shift: nat, n: nat)
    requires v < |m.size| == |m.back| == |m.bitmap| && v + m.size[v] <= |m.size| && 0 < n && n + shift <= m.size[v]
    ensures var c := Cut(m, v, shift, n); CarvedWords(m.size, c.size, m.back, c.back, v, v + m.size[v], v + m.size[v] - shift - n, n)
  {}

  lemma CutRanges(m: Memory, v: nat, shift: nat, n: nat)
    requires v < |m.size| == |m.back| == |m.bitmap| && v + m.size[v] <= |m.size| && 0 < n && n + shift <= m.size[v]
    requires forall i :: v < i < v + m.size[v] ==> i !in m.ranges
    ensures CarvedRanges(m.ranges, Cut(m, v, shift, n).ranges, v, v + m.size[v], v + m.size[v] - shift - n, n)
  {}

  /** Cutting the tail and the head off a range leaves a block of n pages parted from the rest. */
  lemma CutParts(m: Memory, v: nat, shift: nat, n: nat)
    requires v < |m.size| == |m.back| == |m.bitmap| && v + m.size[v] <= |m.size| && 0 < n && n + shift <= m.size[v]
    requires forall i :: v < i < v + m.size[v] ==> i !in m.ranges
    ensures Parted(m, Cut(m, v, shift, n), v, v + m.size[v], v + m.size[v] - shift - n, n)
  {
    CutBits(m, v, shift, n);
    CutWords(m, v, shift, n);
    CutRanges(m, v, shift, n);
  }

  /** Parting a block from its range and clearing its bits leaves the tags of Carve. */
  lemma PartedTags(s: seq<Seg>, m: Memory, c: Memory, v: nat, p: nat, n: nat, fill: bool, bitmap': seq<bool>)
    requires Tiled(s) && Maximal(s) && TagsOk(s, m.bitmap, m.size, m.back, m.ranges)
    requires FreeAt(s, v) && n > 0 && Parted(m, c, v, v + s[v].len, p, n) && Cleared(c.bitmap, bitmap', p, n, fill)
    ensures Inside(s, p, n) && Tiled(Carve(s, p, n, fill)) && Maximal(Carve(s, p, n, fill))
    ensures TagsOk(Carve(s, p, n, fill), bitmap', c.size, c.back, c.ranges)
  {
    PartedCarved(m, c, v, v + s[v].len, p, n, fill, bitmap');
    assert SegAt(s, v) && s[p] == s[v];
    CarveTags(s, m, p, n, fill, c.(bitmap := bitmap'));
  }

  /** The first n pages of the range at v, off the lists, with the rest of it listed. */
  function CutFront(m: Memory, v: nat, n: nat): (r: Memory)
    requires v < |m.size| == |m.back| == |m.bitmap| && v + m.size[v] <= |m.size| && 0 < n <= m.size[v]
    ensures |r.size| == |r.back| == |r.bitmap| == |m.size|
  {
    var m0 := m.(ranges := m.ranges - {v});
    if m.size[v] == n then m0
    else var m' := Build(m0, v + n, m.size[v] - n); m'.(size := m'.size[v := n])
  }

  lemma FrontParts(m: Memory, v: nat, n: nat)
    requires v < |m.size| == |m.back| == |m.bitmap| && v + m.size[v] <= |m.size| && 0 < n <= m.size[v]
    requires forall i :: v < i < v + m.size[v] ==> i !in m.ranges
    ensures Parted(m, CutFront(m, v, n), v, v + m.size[v], v, n)
  {
    var c := CutFront(m, v, n);
    assert CarvedWords(m.size, c.size, m.back, c.back, v, v + m.size[v], v, n);
    assert CarvedRanges(m.ranges, c.ranges, v, v + m.size[v], v, n);
  }

  // ------------------------------------------------------------------ searching

  /** A free range of at least n pages. */
  predicate FitsAt(s: seq<Seg>, p: nat, n: nat) {
    FreeAt(s, p) && s[p].len >= n
  }

  /** Among the lists whose ranges surely have n pages, the range v is on the one of the smallest, and on the
      last list it is the largest. */
  ghost predicate BestOrder(s: seq<Seg>, v: nat, n: nat) {
    v < |s| && forall p :: 0 <= p < |s| && FreeAt(s, p) ==>
      && (Order(s[p].len) >= Min(Log2Up(n), MAX_ORDER) ==> Order(s[v].len) <= Order(s[p].len))
      && (Order(s[v].len) == MAX_ORDER ==> s[p].len <= s[v].len)
  }

  /** The size of range that a request for n pages needs: n, or the power of two n is rounded up to. */
  function Enough(n: nat, contiguous: bool): (r: nat) {
    if contiguous then n else Max(n, Pow2(Min(Log2Up(n), MAX_ORDER)))
  }

  /** For contiguous memory n pages are enough; otherwise it takes less than twice as many, up to 65536. */
  lemma EnoughBounds(n: nat)
    requires n > 0
    ensures Enough(n, true) == n
    ensures n <= Enough(n, false) < 2 * n
    ensures n >= 65536 ==> Enough(n, false) == n
    ensures n < 65536 ==> Enough(n, false) == Pow2(Log2Up(n))
  {
    assert Pow2(4) == 16 && Pow2(8) == 256 && Pow2(12) == 4096 && Pow2(16) == 65536;
    if Log2Up(n) > MAX_ORDER {
      Pow2Grows(MAX_ORDER, Log2Up(n) - 1);
    } else {
      Pow2Grows(Log2Up(n), MAX_ORDER);
    }
  }

  /** A range on a list below the one asked for has too few pages; one on the list just below may not. */
  lemma TooSmall(len: nat, n: nat, contiguous: bool, exact: nat)
    requires len > 0 && n > 0 && exact == Min(Log2Up(n), MAX_ORDER) && Order(len) < exact
    requires contiguous && Order(len) == exact - 1 ==> len < n
    ensures len < Enough(n, contiguous)
  {
    OrderBounds(len, exact);
    if contiguous && Order(len) < exact - 1 {
      OrderBounds(len, exact - 1);
      Pow2Grows(exact - 1, Log2Up(n) - 1);
    }
  }

  /** [p, p + n) can be allocated, and page p + offset is aligned. */
  predicate Placeable(s: seq<Seg>, p: nat, n: nat, offset: nat, alignment: nat)
    requires alignment > 0
  {
    Inside(s, p, n) && (p + offset) % alignment == 0
  }

  /** How far the highest placement in a range is from a range's end. */
  function Shift(v: nat, len: nat, n: nat, offset: nat, alignment: nat): (r: nat)
    requires alignment > 0
  {
    (v + len - n + offset) % alignment
  }

  /** An aligned placement exists in [v, v + len) if and only if the highest one fits. */
  lemma HighestPlacement(v: nat, len: nat, n: nat, offset: nat, alignment: nat, p: nat)
    requires alignment > 0 && v <= p && p + n <= v + len && (p + offset) % alignment == 0
    ensures n + Shift(v, len, n, offset, alignment) <= len
    ensures p <= v + len - n - Shift(v, len, n, offset, alignment)
  {
    var top := v + len - n + offset;
    AlignDown(p + offset, top, alignment);
  }

  lemma AlignDown(a: nat, b: nat, m: nat)
    requires m > 0 && a <= b && a % m == 0
    ensures a <= b - b % m && (b - b % m) % m == 0
  {
    var x, y := a / m, b / m;
    assert a == m * x && b == m * y + b % m;
    assert x <= y by {
      if x > y { Times(m, y + 1, x); }
    }
    Times(m, x, y);
    TimesMod(m, y);
  }

  lemma ShiftAligned(v: nat, len: nat, n: nat, offset: nat, alignment: nat)
    requires alignment > 0 && n + Shift(v, len, n, offset, alignment) <= len
    ensures (v + len - Shift(v, len, n, offset, alignment) - n + offset) % alignment == 0
  {
    AlignDown(0, v + len - n + offset, alignment);
  }

  ghost predicate NoneAligned(list: seq<nat>, s: seq<Seg>, n: nat, offset: nat, alignment: nat)
    requires alignment > 0
  {
    forall v :: v in list ==> FreeAt(s, v) && n + Shift(v, s[v].len, n, offset, alignment) > s[v].len
  }

  lemma NoPlacement(s: seq<Seg>, n: nat, offset: nat, alignment: nat)
    requires Tiled(s) && alignment > 0
    requires forall v :: 0 <= v < |s| && FreeAt(s, v) ==> n + Shift(v, s[v].len, n, offset, alignment) > s[v].len
    ensures forall p :: 0 <= p < |s| ==> !Placeable(s, p, n, offset, alignment)
  {
    forall p | 0 <= p < |s| ensures !Placeable(s, p, n, offset, alignment) {
      assert SegAt(s, p);
      var v := s[p].start;
      assert s[v] == s[p];
      if Placeable(s, p, n, offset, alignment) {
        HighestPlacement(v, s[v].len, n, offset, alignment, p);
      }
    }
  }

  /** No placement in the free range of page p is above p. */
  ghost predicate HighestIn(s: seq<Seg>, p: nat, n: nat, offset: nat, alignment: nat)
    requires p < |s| && alignment > 0
  {
    forall q :: 0 <= q < |s| && Placeable(s, q, n, offset, alignment) && s[q] == s[p] ==> q <= p
  }

  lemma NoneHigher(s: seq<Seg>, v: nat, p: nat, n: nat, offset: nat, alignment: nat)
    requires Tiled(s) && FreeAt(s, v) && alignment > 0 && p < |s| && s[p] == s[v]
    requires p == v + s[v].len - Shift(v, s[v].len, n, offset, alignment) - n
    ensures HighestIn(s, p, n, offset, alignment)
  {
    forall q | 0 <= q < |s| && Placeable(s, q, n, offset, alignment) && s[q] == s[p] ensures q <= p {
      assert SegAt(s, q);
      HighestPlacement(v, s[v].len, n, offset, alignment, q);
    }
  }

  class PageRangeAllocator {
    var lists: seq<seq<nat>>    // _free[order], and _free_huge at MAX_ORDER
    var notEmpty: seq<bool>     // _not_empty
    var bitmap: seq<bool>       // _bitmap
    var size: seq<nat>          // page_range::size in the first page of a range
    var back: seq<nat>          // the pointer in the last word of a page
    ghost var ranges: map<nat, nat>
    ghost var seg: seq<Seg>

    ghost predicate Valid()
      reads this
    {
      Tiled(seg) && Maximal(seg) && TagsOk(seg, bitmap, size, back, ranges) && ListsOk(lists, notEmpty, ranges)
    }

    /** A machine of n pages, none of them given to the allocator yet. */
    constructor (n: nat)
      ensures Valid() && |seg| == n
      ensures forall i :: 0 <= i < n ==> seg[i] == Seg(i, 1, Outside)
    {
      lists := seq(MAX_ORDER + 1, _ => []);
      notEmpty := seq(MAX_ORDER + 1, _ => false);
      bitmap := seq(n, _ => false);
      size := seq(n, _ => 0);
      back := seq(n, _ => 0);
      ranges := map[];
      seg := seq(n, i requires 0 <= i < n => Seg(i, 1, Outside));
    }

    /** The position of a range of this size in the tree. */
    method HugePosition(len: nat) returns (k: nat)
      requires ListsOk(lists, notEmpty, ranges)
      requires SizesOk(size, ranges)
      ensures k <= |lists[MAX_ORDER]|
      ensures forall i :: 0 <= i < k ==> lists[MAX_ORDER][i] in ranges && ranges[lists[MAX_ORDER][i]] <= len
      ensures forall i :: k <= i < |lists[MAX_ORDER]| ==> lists[MAX_ORDER][i] in ranges && len < ranges[lists[MAX_ORDER][i]]
    {
      var huge := lists[MAX_ORDER];
      assert ListAt(lists, notEmpty, ranges, MAX_ORDER);
      k := |huge|;
      while k > 0 && size[huge[k - 1]] > len
        invariant k <= |huge|
        invariant forall i :: k <= i < |huge| ==> len < ranges[huge[i]]
      {
        k := k - 1;
      }
      assert forall i :: 0 <= i < |huge| ==> huge[i] in ranges;
    }

    /** insert(): write the end tag, put the range on its list, set its end bits. */
    method Insert(p: nat)
      requires ListsOk(lists, notEmpty, ranges)
      requires SizesOk(size, ranges)
      requires |size| == |bitmap| == |back| && p < |size| && p !in ranges && size[p] > 0 && p + size[p] <= |size|
      modifies this`lists, this`notEmpty, this`bitmap, this`back, this`ranges
      ensures ListsOk(lists, notEmpty, ranges) && ranges == old(ranges)[p := size[p]]
      ensures back == old(back)[p + size[p] - 1 := p]
      ensures bitmap == old(bitmap)[p := true][p + size[p] - 1 := true]
    {
      back := back[p + size[p] - 1 := p];
      var order := Order(size[p]);
      var k := 0;
      if order == MAX_ORDER {
        k := HugePosition(size[p]);
        InsertAscending(lists[order], k, p, ranges, size[p]);
      }
      assert ListAt(lists, notEmpty, ranges, order);
      InsertKeeps(lists[order], k, p, order, ranges, size[p]);
      lists := lists[order := InsertAt(lists[order], k, p)];
      notEmpty := notEmpty[order := true];
      ListsInsert(old(lists), old(notEmpty), ranges, p, size[p], lists[order]);
      ranges := ranges[p := size[p]];
      SetBits(p, size[p], true, false);
    }

    /** remove(): take the range off its list. */
    method Remove(p: nat)
      requires ListsOk(lists, notEmpty, ranges) && p in ranges && p < |size| && size[p] == ranges[p]
      modifies this`lists, this`notEmpty, this`ranges
      ensures ListsOk(lists, notEmpty, ranges) && ranges == old(ranges) - {p}
    {
      var order := Order(size[p]);
      assert ListAt(lists, notEmpty, ranges, order);
      EraseKeeps(lists[order], p, order, ranges);
      if order == MAX_ORDER { EraseAscending(lists[order], p, ranges); }
      ListsErase(lists, notEmpty, ranges, p, Erase(lists[order], p));
      lists := lists[order := Erase(lists[order], p)];
      notEmpty := notEmpty[order := lists[order] != []];
      ranges := ranges - {p};
    }

    /** set_bits(): the end bits of [p, p + n), or with `fill` all of them. */
    method SetBits(p: nat, n: nat, value: bool, fill: bool)
      requires n > 0 && p + n <= |bitmap|
      modifies this`bitmap
      ensures !fill ==> bitmap == old(bitmap)[p := value][p + n - 1 := value]
      ensures fill ==> bitmap == old(bitmap)[..p] + seq(n, _ => value) + old(bitmap)[p + n..]
    {
      if fill {
        var idx := 0;
        while idx <= n - 1
          invariant 0 <= idx <= n && |bitmap| == |old(bitmap)|
          invariant forall i :: 0 <= i < |bitmap| ==> bitmap[i] == if p <= i < p + idx then value else old(bitmap)[i]
        {
          bitmap := bitmap[p + idx := value];
          idx := idx + 1;
        }
        assert bitmap == old(bitmap)[..p] + seq(n, _ => value) + old(bitmap)[p + n..];
      } else {
        bitmap := bitmap[p := value];
        bitmap := bitmap[p + n - 1 := value];
      }
    }

    /** The owner of a page that is not free may write whatever it likes into it. */
    method OwnerWrites(p: nat, first: nat, last: nat)
      requires Valid() && p < |seg| && !seg[p].kind.Free?
      modifies this`size, this`back
      ensures Valid() && size == old(size)[p := first] && back == old(back)[p := last]
    {
      size := size[p := first];
      back := back[p := last];
      forall i: nat ensures TagAt(seg, bitmap, size, back, ranges, i) {
        assert TagAt(seg, bitmap, old(size), old(back), ranges, i);
      }
    }

    /** free(), left side: join the free range that ends before p. */
    method JoinLeft(p: nat, n: nat) returns (first: nat)
      requires Valid() && Whole(seg, p, n)
      modifies this`lists, this`notEmpty, this`ranges, this`size
      ensures first == Low(seg, p) && ranges == old(ranges) - {first} && ListsOk(lists, notEmpty, ranges)
      ensures first <= p && size == old(size)[p := n][first := p + n - first] && SizesOk(size, ranges)
    {
      EndTags(seg, bitmap, size, back, ranges, p, n);
      size := size[p := n];
      first := p;
      if p > 0 && bitmap[p - 1] {
        first := back[p - 1];
        Remove(first);
        size := size[first := size[first] + size[p]];
      } else {
        assert ranges - {p} == ranges;
      }
    }

    /** free(), right side: join the free range that begins after `first`. */
    method JoinRight(first: nat)
      requires ListsOk(lists, notEmpty, ranges) && SizesOk(size, ranges) && first !in ranges && first < |size| == |bitmap|
      requires var next := first + size[first];
               next in ranges <==> next < |bitmap| && bitmap[next]
      modifies this`lists, this`notEmpty, this`ranges, this`size
      ensures ListsOk(lists, notEmpty, ranges) && SizesOk(size, ranges)
      ensures var next := first + old(size)[first];
              && ranges == old(ranges) - {next}
              && (next in old(ranges) ==> size == old(size)[first := old(size)[first] + old(ranges)[next]])
              && (next !in old(ranges) ==> size == old(size))
    {
      var next := first + size[first];
      if next < |bitmap| && bitmap[next] {
        Remove(next);
        size := size[first := size[first] + size[next]];
      } else {
        assert ranges - {next} == ranges;
      }
    }

    /** free(), both sides: the joined range, not on any list yet. */
    method JoinBoth(p: nat, n: nat) returns (first: nat)
      requires Valid() && Whole(seg, p, n)
      modifies this`lists, this`notEmpty, this`ranges, this`size
      ensures ListsOk(lists, notEmpty, ranges) && SizesOk(size, ranges)
      ensures first == Low(seg, p) <= p && p + n <= High(seg, p + n) <= |seg|
      ensures ranges == old(ranges) - {first} - {p + n}
      ensures size == old(size)[p := n][first := p + n - first][first := High(seg, p + n) - first]
    {
      RightTag(seg, bitmap, size, back, ranges, p, n);
      first := JoinLeft(p, n);
      JoinRight(first);
    }

    /** free(): join the free neighbours that the end tags tell of. */
    method Free(p: nat, n: nat)
      requires Valid() && Whole(seg, p, n)
      modifies this
      ensures Valid() && seg == Merge(old(seg), p, n)
    {
      var first := JoinBoth(p, n);
      Insert(first);
      FreeOutcome(seg, old(bitmap), old(size), old(back), old(ranges), p, n, size, ranges);
      seg := Merge(seg, p, n);
    }

    /** The free ranges are exactly what is on the lists. */
    lemma Listed(p: nat, o: nat)
      requires Valid() && o <= MAX_ORDER
      ensures p in lists[o] <==> FreeAt(seg, p) && Order(seg[p].len) == o
      ensures FreeAt(seg, p) ==> p in ranges && size[p] == ranges[p] == seg[p].len > 0 && p + seg[p].len <= |seg|
    {
      assert TagAt(seg, bitmap, size, back, ranges, p) && ListAt(lists, notEmpty, ranges, o) && SegAt(seg, p);
    }

    /** The search of alloc(): the lowest list that surely has enough, or for contiguous memory
        the list below. */
    method FindRange(n: nat, contiguous: bool) returns (r: Option<nat>)
      requires Valid() && n > 0
      ensures r.Some? ==> FitsAt(seg, r.value, Enough(n, contiguous))
      ensures r.None? ==> forall p :: 0 <= p < |seg| ==> !FitsAt(seg, p, Enough(n, contiguous))
      ensures r.Some? ==> BestOrder(seg, r.value, n)
    {
      var exact := Min(Log2Up(n), MAX_ORDER);
      var order := LowestSet(notEmpty, exact);
      if order == MAX_ORDER + 1 {
        if !contiguous || exact == 0 || lists[exact - 1] == [] {
          NoneLarge(n, contiguous, exact);
          return None;
        }
        r := FirstLarge(exact - 1, n);
        if r.None? {
          NoneLarge(n, contiguous, exact);
        } else {
          BestFound(r.value, n, MAX_ORDER + 1);
        }
      } else if order == MAX_ORDER {
        HugeFound(n, contiguous, exact);
        var v := lists[MAX_ORDER][|lists[MAX_ORDER]| - 1];
        return if size[v] < n then None else Some(v);
      } else {
        FirstFound(order, n, contiguous, exact);
        return Some(lists[order][0]);
      }
    }

    /** Only the last list has enough: then its last range decides. */
    lemma HugeFound(n: nat, contiguous: bool, exact: nat)
      requires Valid() && n > 0 && exact == Min(Log2Up(n), MAX_ORDER) && notEmpty[MAX_ORDER]
      requires forall o :: exact <= o < MAX_ORDER ==> !notEmpty[o]
      ensures lists[MAX_ORDER] != []
      ensures var v := lists[MAX_ORDER][|lists[MAX_ORDER]| - 1];
              && v < |size| && v < |seg|
              && (size[v] < n ==> forall p :: 0 <= p < |seg| ==> !FitsAt(seg, p, Enough(n, contiguous)))
              && (size[v] >= n ==> FitsAt(seg, v, Enough(n, contiguous)) && BestOrder(seg, v, n))
    {
      assert ListAt(lists, notEmpty, ranges, MAX_ORDER);
      var v := lists[MAX_ORDER][|lists[MAX_ORDER]| - 1];
      Largest();
      OrderBounds(size[v], exact);
      BestFound(v, n, MAX_ORDER);
    }

    /** A list surely has enough: then its first range does. */
    lemma FirstFound(order: nat, n: nat, contiguous: bool, exact: nat)
      requires Valid() && n > 0 && exact == Min(Log2Up(n), MAX_ORDER) && exact <= order < MAX_ORDER && notEmpty[order]
      requires forall o :: exact <= o < order ==> !notEmpty[o]
      ensures lists[order] != []
      ensures FitsAt(seg, lists[order][0], Enough(n, contiguous)) && BestOrder(seg, lists[order][0], n)
    {
      assert ListAt(lists, notEmpty, ranges, order);
      var v := lists[order][0];
      Listed(v, order);
      OrderBounds(size[v], exact);
      BestFound(v, n, order);
    }

    /** No free range is on a list that is empty. */
    lemma NoneFrom(from: nat, to: nat)
      requires Valid() && to <= MAX_ORDER + 1 && forall o :: from <= o < to ==> !notEmpty[o]
      ensures forall p :: 0 <= p < |seg| && FreeAt(seg, p) ==> Order(seg[p].len) < from || Order(seg[p].len) >= to
    {
      forall p | 0 <= p < |seg| && FreeAt(seg, p) ensures Order(seg[p].len) < from || Order(seg[p].len) >= to {
        var o := Order(seg[p].len);
        Listed(p, o);
        assert ListAt(lists, notEmpty, ranges, o);
      }
    }

    lemma BestFound(v: nat, n: nat, order: nat)
      requires Valid() && FreeAt(seg, v) && order <= MAX_ORDER + 1
      requires forall o :: Min(Log2Up(n), MAX_ORDER) <= o < order ==> !notEmpty[o]
      requires Order(seg[v].len) <= order && (Order(seg[v].len) == MAX_ORDER ==> lists[MAX_ORDER] != [] && v == lists[MAX_ORDER][|lists[MAX_ORDER]| - 1])
      ensures BestOrder(seg, v, n)
    {
      NoneFrom(Min(Log2Up(n), MAX_ORDER), order);
      if Order(seg[v].len) == MAX_ORDER { Largest(); }
    }

    /** The last range of the tree is the largest of all. */
    lemma Largest()
      requires Valid() && lists[MAX_ORDER] != []
      ensures var v := lists[MAX_ORDER][|lists[MAX_ORDER]| - 1];
              && FreeAt(seg, v) && size[v] == seg[v].len && Order(seg[v].len) == MAX_ORDER
              && forall p :: 0 <= p < |seg| && FreeAt(seg, p) ==> seg[p].len <= size[v]
    {
      var huge := lists[MAX_ORDER];
      var v := huge[|huge| - 1];
      Listed(v, MAX_ORDER);
      OrderBounds(seg[v].len, MAX_ORDER);
      forall p | 0 <= p < |seg| && FreeAt(seg, p) ensures seg[p].len <= size[v] {
        Listed(p, MAX_ORDER);
        if p in huge {
          var j :| 0 <= j < |huge| && huge[j] == p;
        } else {
          OrderBounds(seg[p].len, MAX_ORDER);
        }
      }
    }

    /** The first range of a list with at least n pages. */
    method FirstLarge(o: nat, n: nat) returns (r: Option<nat>)
      requires Valid() && o <= MAX_ORDER
      ensures r.Some? ==> FitsAt(seg, r.value, n) && Order(seg[r.value].len) == o
      ensures r.None? ==> forall p :: p in lists[o] ==> FreeAt(seg, p) && seg[p].len < n
    {
      var i := 0;
      while i < |lists[o]|
        invariant i <= |lists[o]|
        invariant forall j :: 0 <= j < i ==> FreeAt(seg, lists[o][j]) && seg[lists[o][j]].len < n
      {
        Listed(lists[o][i], o);
        if size[lists[o][i]] >= n {
          return Some(lists[o][i]);
        }
        i := i + 1;
      }
      return None;
    }

    lemma NoneLarge(n: nat, contiguous: bool, exact: nat)
      requires Valid() && n > 0 && exact == Min(Log2Up(n), MAX_ORDER)
      requires forall o :: exact <= o <= MAX_ORDER ==> !notEmpty[o]
      requires contiguous && exact > 0 ==> forall p :: p in lists[exact - 1] ==> FreeAt(seg, p) && seg[p].len < n
      ensures forall p :: 0 <= p < |seg| ==> !FitsAt(seg, p, Enough(n, contiguous))
    {
      forall p | 0 <= p < |seg| && FreeAt(seg, p) ensures seg[p].len < Enough(n, contiguous) {
        var o := Order(seg[p].len);
        Listed(p, o);
        assert ListAt(lists, notEmpty, ranges, o);
        TooSmall(seg[p].len, n, contiguous, exact);
      }
    }

    /** alloc(): n pages from the front of the range found. */
    method Alloc(n: nat, contiguous: bool) returns (r: Option<nat>)
      requires Valid() && n > 0
      modifies this
      ensures Valid()
      ensures r.None? <==> forall p :: 0 <= p < |old(seg)| ==> !FitsAt(old(seg), p, Enough(n, contiguous))
      ensures contiguous ==> (r.None? <==> forall p :: 0 <= p < |old(seg)| && FreeAt(old(seg), p) ==> old(seg)[p].len < n)
      ensures r.None? ==> seg == old(seg)
      ensures r.Some? ==> FreeAt(old(seg), r.value) && BestOrder(old(seg), r.value, n)
      ensures r.Some? ==> Enabled(old(seg), Take(r.value, n, false)) && seg == Next(old(seg), Take(r.value, n, false))
    {
      r := FindRange(n, contiguous);
      forall p | 0 <= p < |seg| && FreeAt(seg, p) && r.None? && contiguous ensures seg[p].len < n {
        assert !FitsAt(seg, p, Enough(n, contiguous));
      }
      if r.Some? {
        var v := r.value;
        assert FitsAt(seg, v, Enough(n, contiguous));
        TakeFront(v, n);
      }
    }

    /** Take the free range at v off the lists and list what is behind its first n pages. */
    method CutRest(v: nat, n: nat)
      requires ListsOk(lists, notEmpty, ranges) && SizesOk(size, ranges) && |size| == |bitmap| == |back|
      requires v in ranges && 0 < n <= size[v] && v + size[v] <= |size|
      requires forall i :: v < i < v + size[v] ==> i !in ranges
      modifies this`lists, this`notEmpty, this`bitmap, this`back, this`ranges, this`size
      ensures ListsOk(lists, notEmpty, ranges) && Parted(old(Contents()), Contents(), v, v + old(size)[v], v, n)
    {
      FrontParts(Contents(), v, n);
      Remove(v);
      if size[v] > n {
        size := size[v + n := size[v] - n];
        Insert(v + n);
        size := size[v := n];
      }
      assert Contents() == CutFront(old(Contents()), v, n);
    }

    /** Allocate the first n pages of the free range at v. */
    method TakeFront(v: nat, n: nat)
      requires Valid() && n > 0 && FreeAt(seg, v) && n <= seg[v].len
      modifies this
      ensures Valid() && seg == Carve(old(seg), v, n, false)
    {
      FreeHeaders(seg, bitmap, size, back, ranges, v);
      CutRest(v, n);
      ghost var c := Contents();
      SetBits(v, n, false, false);
      PartedTags(seg, old(Contents()), c, v, v, n, false, bitmap);
      seg := Carve(seg, v, n, false);
    }

    /** The search of alloc_aligned(): the tree from its smallest range up, then the lists from the
        highest order down to the least that can hold n pages. */
    method FindAligned(n: nat, offset: nat, alignment: nat) returns (r: Option<nat>)
      requires Valid() && n > 0 && alignment > 0
      ensures r.Some? ==> FreeAt(seg, r.value) && n + Shift(r.value, seg[r.value].len, n, offset, alignment) <= seg[r.value].len
      ensures r.None? ==> forall v :: 0 <= v < |seg| && FreeAt(seg, v) ==> n + Shift(v, seg[v].len, n, offset, alignment) > seg[v].len
      ensures r.Some? ==> forall v :: 0 <= v < |seg| && FreeAt(seg, v) && Order(seg[v].len) > Order(seg[r.value].len) ==>
                n + Shift(v, seg[v].len, n, offset, alignment) > seg[v].len
    {
      r := FirstAligned(MAX_ORDER, n, offset, alignment);
      if r.Some? {
        return;
      }
      var minOrder := Max(Log2(n), 1) - 1;
      var order: nat := MAX_ORDER;
      while order > minOrder
        invariant order <= MAX_ORDER
        invariant forall o :: order <= o <= MAX_ORDER ==> NoneAligned(lists[o], seg, n, offset, alignment)
      {
        order := order - 1;
        r := FirstAligned(order, n, offset, alignment);
        if r.Some? {
          NoneFit(order + 1, n, offset, alignment);
          return;
        }
      }
      NoneFit(order, n, offset, alignment);
      forall v | 0 <= v < |seg| && FreeAt(seg, v) && Order(seg[v].len) < order ensures seg[v].len < n {
        Listed(v, Order(seg[v].len));
        OrderBounds(seg[v].len, minOrder);
        Pow2Grows(minOrder, Log2(n));
      }
      return None;
    }

    /** What holds of the lists from one order on holds of all free ranges of these orders. */
    lemma NoneFit(from: nat, n: nat, offset: nat, alignment: nat)
      requires Valid() && alignment > 0 && forall o :: from <= o <= MAX_ORDER ==> NoneAligned(lists[o], seg, n, offset, alignment)
      ensures forall v :: 0 <= v < |seg| && FreeAt(seg, v) && Order(seg[v].len) >= from ==>
                n + Shift(v, seg[v].len, n, offset, alignment) > seg[v].len
    {
      forall v | 0 <= v < |seg| && FreeAt(seg, v) && Order(seg[v].len) >= from
        ensures n + Shift(v, seg[v].len, n, offset, alignment) > seg[v].len
      {
        var o := Order(seg[v].len);
        Listed(v, o);
        assert NoneAligned(lists[o], seg, n, offset, alignment);
      }
    }

    method FirstAligned(o: nat, n: nat, offset: nat, alignment: nat) returns (r: Option<nat>)
      requires Valid() && alignment > 0 && o <= MAX_ORDER
      ensures r.Some? ==> FreeAt(seg, r.value) && n + Shift(r.value, seg[r.value].len, n, offset, alignment) <= seg[r.value].len
      ensures r.Some? ==> Order(seg[r.value].len) == o
      ensures r.None? ==> NoneAligned(lists[o], seg, n, offset, alignment)
    {
      var i := 0;
      while i < |lists[o]|
        invariant i <= |lists[o]|
        invariant NoneAligned(lists[o][..i], seg, n, offset, alignment)
      {
        var v := lists[o][i];
        Listed(v, o);
        if size[v] >= n + Shift(v, size[v], n, offset, alignment) {
          return Some(v);
        }
        assert lists[o][..i + 1] == lists[o][..i] + [v];
        i := i + 1;
      }
      assert lists[o][..i] == lists[o];
      return None;
    }

    /** alloc_aligned(): n pages at the highest aligned place of the first range that has one. */
    method AllocAligned(n: nat, offset: nat, alignment: nat, fill: bool) returns (r: Option<nat>)
      requires Valid() && n > 0 && alignment > 0
      modifies this
      ensures Valid()
      ensures r.None? <==> forall p :: 0 <= p < |old(seg)| ==> !Placeable(old(seg), p, n, offset, alignment)
      ensures r.None? ==> seg == old(seg)
      ensures r.Some? ==> Placeable(old(seg), r.value, n, offset, alignment) && seg == Next(old(seg), Take(r.value, n, fill))
      ensures r.Some? ==> HighestIn(old(seg), r.value, n, offset, alignment)
    {
      var found := FindAligned(n, offset, alignment);
      if found.None? {
        NoPlacement(seg, n, offset, alignment);
        return None;
      }
      var v := found.value;
      FreeHeaders(seg, bitmap, size, back, ranges, v);
      ShiftAligned(v, size[v], n, offset, alignment);
      var shift := Shift(v, size[v], n, offset, alignment);
      var p := v + size[v] - shift - n;
      assert SegAt(seg, v);
      assert Placeable(seg, p, n, offset, alignment);
      NoneHigher(seg, v, p, n, offset, alignment);
      TakeInside(v, shift, n, fill);
      return Some(p);
    }

    ghost function Contents(): Memory
      reads this
    {
      Memory(bitmap, size, back, ranges)
    }

    /** Keep the last n pages of the unlisted range at v, and list the rest of it. */
    method TakeEnd(v: nat, n: nat) returns (ret: nat)
      requires ListsOk(lists, notEmpty, ranges) && SizesOk(size, ranges) && |size| == |bitmap| == |back|
      requires v < |size| && v !in ranges && 0 < n <= size[v] && v + size[v] <= |size|
      modifies this`lists, this`notEmpty, this`bitmap, this`back, this`ranges, this`size
      ensures ret == v + old(size)[v] - n && ListsOk(lists, notEmpty, ranges)
      ensures Contents() == CutHead(old(Contents()), v, n)
    {
      ret := v;
      if size[v] != n {
        size := size[v := size[v] - n];
        Insert(v);
        ret := v + size[v];
        size := size[ret := n];
      }
    }

    /** List the last `shift` pages of the unlisted range at v by themselves. */
    method DropTail(v: nat, shift: nat)
      requires ListsOk(lists, notEmpty, ranges) && SizesOk(size, ranges) && |size| == |bitmap| == |back|
      requires v < |size| && v !in ranges && shift < size[v] && v + size[v] <= |size|
      requires forall i :: v < i < v + size[v] ==> i !in ranges
      modifies this`lists, this`notEmpty, this`bitmap, this`back, this`ranges, this`size
      ensures ListsOk(lists, notEmpty, ranges) && SizesOk(size, ranges) && v !in ranges
      ensures Contents() == CutTail(old(Contents()), v, shift)
    {
      if shift > 0 {
        var t := v + size[v] - shift;
        size := size[t := shift];
        Insert(t);
        size := size[v := size[v] - shift];
      }
    }

    /** Take the free range at v off the lists and list what is behind and before the block. */
    method CutBlock(v: nat, shift: nat, n: nat) returns (ret: nat)
      requires ListsOk(lists, notEmpty, ranges) && SizesOk(size, ranges) && |size| == |bitmap| == |back|
      requires v in ranges && n > 0 && n + shift <= size[v] && v + size[v] <= |size|
      requires forall i :: v < i < v + size[v] ==> i !in ranges
      modifies this`lists, this`notEmpty, this`bitmap, this`back, this`ranges, this`size
      ensures ret == v + old(size)[v] - shift - n && ListsOk(lists, notEmpty, ranges)
      ensures Contents() == Cut(old(Contents()), v, shift, n)
    {
      Remove(v);
      DropTail(v, shift);
      ret := TakeEnd(v, n);
    }

    /** ... which parts the block from its range. */
    method PartBlock(v: nat, shift: nat, n: nat) returns (ret: nat)
      requires ListsOk(lists, notEmpty, ranges) && SizesOk(size, ranges) && |size| == |bitmap| == |back|
      requires v in ranges && n > 0 && n + shift <= size[v] && v + size[v] <= |size|
      requires forall i :: v < i < v + size[v] ==> i !in ranges
      modifies this`lists, this`notEmpty, this`bitmap, this`back, this`ranges, this`size
      ensures ret == v + old(size)[v] - shift - n && ListsOk(lists, notEmpty, ranges)
      ensures Parted(old(Contents()), Contents(), v, v + old(size)[v], ret, n)
    {
      CutParts(Contents(), v, shift, n);
      ret := CutBlock(v, shift, n);
    }

    /** Allocate the n pages that end `shift` pages before the end of the free range at v. */
    method TakeInside(v: nat, shift: nat, n: nat, fill: bool)
      requires Valid() && n > 0 && FreeAt(seg, v) && n + shift <= seg[v].len
      modifies this
      ensures Valid() && Inside(old(seg), v + old(seg)[v].len - shift - n, n)
      ensures seg == Carve(old(seg), v + old(seg)[v].len - shift - n, n, fill)
    {
      FreeHeaders(seg, bitmap, size, back, ranges, v);
      var ret := PartBlock(v, shift, n);
      ghost var c := Contents();
      SetBits(ret, n, false, fill);
      PartedTags(seg, old(Contents()), c, v, ret, n, fill, bitmap);
      seg := Carve(seg, ret, n, fill);
    }
  }

  lemma ListsInsert(lists: seq<seq<nat>>, notEmpty: seq<bool>, ranges: map<nat, nat>, p: nat, len: nat, list: seq<nat>)
    requires ListsOk(lists, notEmpty, ranges) && p !in ranges && list != []
    requires ListOk(list, Order(len), ranges[p := len])
    requires Order(len) == MAX_ORDER ==> Ascending(list, ranges[p := len])
    ensures ListsOk(lists[Order(len) := list], notEmpty[Order(len) := true], ranges[p := len])
  {
    var lists', notEmpty', ranges' := lists[Order(len) := list], notEmpty[Order(len) := true], ranges[p := len];
    forall o: nat ensures ListAt(lists', notEmpty', ranges', o) {
      assert ListAt(lists, notEmpty, ranges, o);
    }
    assert ListAt(lists, notEmpty, ranges, MAX_ORDER);
  }

  lemma ListsErase(lists: seq<seq<nat>>, notEmpty: seq<bool>, ranges: map<nat, nat>, p: nat, list: seq<nat>)
    requires ListsOk(lists, notEmpty, ranges) && p in ranges
    requires ListOk(list, Order(ranges[p]), ranges - {p})
    requires Order(ranges[p]) == MAX_ORDER ==> Ascending(list, ranges - {p})
    ensures ListsOk(lists[Order(ranges[p]) := list], notEmpty[Order(ranges[p]) := list != []], ranges - {p})
  {
    var order, ranges' := Order(ranges[p]), ranges - {p};
    var lists', notEmpty' := lists[order := list], notEmpty[order := list != []];
    if order != MAX_ORDER { AscendingLess(lists[MAX_ORDER], p, ranges); }
    forall o: nat ensures ListAt(lists', notEmpty', ranges', o) {
      assert ListAt(lists, notEmpty, ranges, o);
    }
  }

  /** What free() reads at the borders of [p, p + n) is the truth about the neighbours. */
  lemma EndTags(s: seq<Seg>, bitmap: seq<bool>, size: seq<nat>, back: seq<nat>, ranges: map<nat, nat>, p: nat, n: nat)
    requires Tiled(s) && Whole(s, p, n) && TagsOk(s, bitmap, size, back, ranges)
    ensures p !in ranges
    ensures p > 0 ==> (bitmap[p - 1] <==> s[p - 1].kind.Free?)
    ensures p > 0 && bitmap[p - 1] ==>
              var q := back[p - 1]; q < p && FreeAt(s, q) && q in ranges && size[q] == ranges[q] == s[q].len == p - q
                                    && q == Low(s, p)
    ensures p + n < |s| ==> (bitmap[p + n] <==> s[p + n].kind.Free?)
    ensures p + n < |s| && bitmap[p + n] ==>
              p + n in ranges && size[p + n] == ranges[p + n] == s[p + n].len == High(s, p + n) - (p + n)
    ensures p + n in ranges ==> p + n < |s| && bitmap[p + n]
    ensures !(p > 0 && bitmap[p - 1]) ==> Low(s, p) == p
    ensures !(p + n < |s| && bitmap[p + n]) ==> High(s, p + n) == p + n
    ensures SizesOk(size, ranges)
  {
    Borders(s, p, n);
    assert TagAt(s, bitmap, size, back, ranges, p);
    if p > 0 {
      assert TagAt(s, bitmap, size, back, ranges, p - 1);
      assert SegAt(s, p - 1);
      var q := s[p - 1].start;
      assert s[q] == s[p - 1];
      assert TagAt(s, bitmap, size, back, ranges, q);
    }
    if p + n < |s| {
      assert TagAt(s, bitmap, size, back, ranges, p + n);
    }
    forall q | q in ranges ensures q < |size| && size[q] == ranges[q] {
      assert TagAt(s, bitmap, size, back, ranges, q);
    }
  }

  lemma RightTag(s: seq<Seg>, bitmap: seq<bool>, size: seq<nat>, back: seq<nat>, ranges: map<nat, nat>, p: nat, n: nat)
    requires Tiled(s) && Whole(s, p, n) && TagsOk(s, bitmap, size, back, ranges)
    ensures p + n in ranges <==> p + n < |s| && bitmap[p + n]
    ensures p + n in ranges ==> ranges[p + n] > 0 && High(s, p + n) == p + n + ranges[p + n]
    ensures p + n !in ranges ==> High(s, p + n) == p + n
    ensures Low(s, p) <= p && p + n <= High(s, p + n) <= |s|
  {
    EndTags(s, bitmap, size, back, ranges, p, n);
    Borders(s, p, n);
    assert SegAt(s, p + n);
  }

  /** All that free() leaves behind is in order. */
  lemma FreeOutcome(s: seq<Seg>, bitmap: seq<bool>, size: seq<nat>, back: seq<nat>, ranges: map<nat, nat>,
                    p: nat, n: nat, size': seq<nat>, ranges': map<nat, nat>)
    requires Tiled(s) && Maximal(s) && Whole(s, p, n) && TagsOk(s, bitmap, size, back, ranges)
    requires Low(s, p) <= p && p + n <= High(s, p + n) <= |s|
    requires size' == size[p := n][Low(s, p) := p + n - Low(s, p)][Low(s, p) := High(s, p + n) - Low(s, p)]
    requires ranges' == (ranges - {Low(s, p)} - {p + n})[Low(s, p) := High(s, p + n) - Low(s, p)]
    ensures Tiled(Merge(s, p, n)) && Maximal(Merge(s, p, n))
    ensures var lo, hi := Low(s, p), High(s, p + n);
            TagsOk(Merge(s, p, n), bitmap[lo := true][hi - 1 := true], size', back[hi - 1 := lo], ranges')
  {
    MergeKeeps(s, p, n);
    MergeTags(s, bitmap, size, back, ranges, p, n, size', ranges');
  }

  /** The header of a free range, and what else is listed inside it: nothing. */
  lemma FreeHeaders(s: seq<Seg>, bitmap: seq<bool>, size: seq<nat>, back: seq<nat>, ranges: map<nat, nat>, v: nat)
    requires Tiled(s) && TagsOk(s, bitmap, size, back, ranges) && FreeAt(s, v)
    ensures SizesOk(size, ranges) && v in ranges && size[v] == ranges[v] == s[v].len && v + s[v].len <= |s|
    ensures forall i :: v < i < v + s[v].len ==> i !in ranges
    ensures s[v].len > 0 && bitmap[v] && bitmap[v + s[v].len - 1]
  {
    assert SegAt(s, v) && TagAt(s, bitmap, size, back, ranges, v);
    var e := v + s[v].len - 1;
    assert s[e] == s[v] && TagAt(s, bitmap, size, back, ranges, e);
    forall i | v < i < v + s[v].len ensures i !in ranges {
      assert s[i] == s[v] && TagAt(s, bitmap, size, back, ranges, i);
    }
    forall q | q in ranges ensures q < |size| && size[q] == ranges[q] {
      assert TagAt(s, bitmap, size, back, ranges, q);
    }
  }
}

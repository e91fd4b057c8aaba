/** The list of virtual memory areas of core/mmu.cc: a sorted set of areas between two empty
    sentinels, changed by splitting, protecting and erasing areas while walking along it.

    What the list means is the function `Meaning`: for every address, the permission and the
    place in a file that the area containing it gives it.
 */
module VmaList {

  import opened Wrappers

  const PAGE: nat := 4096
  const HUGE: nat := 2097152
  const LIMIT: nat := 0x4000_0000_0000   // upper_vma_limit
  const WORD: nat := 0x1_0000_0000_0000_0000

  datatype Perm = Perm(read: bool, write: bool, exec: bool)

  datatype Error = EACCES | EPERM | ENOMEM

  /** An open file: what it was opened for, and whether its file system forbids execution. */
  datatype File = File(id: nat, readable: bool, writable: bool, noexec: bool)

  /** anon_vma, or file_vma with the file offset of its first byte. */
  datatype Backing = Anon | Mapped(file: File, offset: nat)

  datatype Vma = Vma(start: nat, end: nat, perm: Perm, shared: bool, backing: Backing)

  /** What an address in an area means. */
  datatype Info = Info(perm: Perm, shared: bool, backing: Backing)

  // ------------------------------------------------------------------ one area

  function AlignDown(a: nat): (r: nat) { a - a % PAGE }

  function AlignUp(a: nat): (r: nat) { AlignDown(a + PAGE - 1) }

  predicate Aligned(a: nat) { a % PAGE == 0 }

  /** validate_perm(): why the permission cannot be granted. */
  function Refusal(shared: bool, backing: Backing, perm: Perm): (r: Option<Error>) {
    if backing.Anon? then None
    else if !backing.file.readable then Some(EACCES)
    else if perm.write && shared && !backing.file.writable then Some(EACCES)
    else if perm.exec && backing.file.noexec then Some(EPERM)
    else None
  }

  predicate Contains(v: Vma, a: nat) { v.start <= a < v.end }

  /** file_vma::offset(): where address a lies in the file. */
  function View(v: Vma, a: nat): (r: Info)
    requires v.start <= a
  {
    Info(v.perm, v.shared, if v.backing.Anon? then Anon else Mapped(v.backing.file, v.backing.offset + (a - v.start)))
  }

  /** The two halves that split() makes; the constructor and set() round to pages. */
  function LeftPart(v: Vma, edge: nat): (r: Vma) {
    v.(start := AlignDown(v.start), end := AlignUp(edge))
  }

  function RightPart(v: Vma, edge: nat): (r: Vma)
    requires v.start <= edge
  {
    v.(start := AlignDown(edge), end := AlignUp(v.end), backing := View(v, edge).backing)
  }

  /** What the file was opened for and where it lies allow the permission. */
  predicate Grants(shared: bool, backing: Backing, perm: Perm) {
    backing.Mapped? ==>
      && backing.file.readable
      && (perm.write && shared ==> backing.file.writable)
      && (perm.exec ==> !backing.file.noexec)
  }

  /** The reason is EACCES if the file was not opened for it, and else EPERM, for execution. */
  lemma RefusalExact(shared: bool, backing: Backing, perm: Perm)
    ensures Refusal(shared, backing, perm) == None <==> Grants(shared, backing, perm)
    ensures Refusal(shared, backing, perm) == Some(EACCES) <==>
              backing.Mapped? && (!backing.file.readable || (perm.write && shared && !backing.file.writable))
    ensures Refusal(shared, backing, perm) == Some(EPERM) <==>
              Refusal(shared, backing, perm) != Some(EACCES) && !Grants(shared, backing, perm)
  {}

  // ------------------------------------------------------------------ the list

  function Meaning(vmas: seq<Vma>, a: nat): (r: Option<Info>) {
    if vmas == [] then None
    else if Contains(vmas[0], a) then Some(View(vmas[0], a))
    else Meaning(vmas[1..], a)
  }

  predicate InUse(vmas: seq<Vma>, a: nat) { Meaning(vmas, a).Some? }

  predicate VmaOk(v: Vma) {
    && v.start <= v.end && Aligned(v.start) && Aligned(v.end)
    && Refusal(v.shared, v.backing, v.perm) == None
  }

  predicate InOrder(vmas: seq<Vma>, i: nat) {
    i < |vmas| ==>
      && VmaOk(vmas[i])
      && (forall j :: i < j < |vmas| ==> vmas[i].end <= vmas[j].start && vmas[i].start < vmas[j].start)
  }

  /** Areas in order of address, without overlap, all of them well formed. */
  ghost predicate Sorted(vmas: seq<Vma>) {
    forall i: nat :: InOrder(vmas, i)
  }

  predicate NotEmpty(vmas: seq<Vma>, i: nat) {
    0 < i < |vmas| - 1 ==> vmas[i].start < vmas[i].end
  }

  /** ... between the two sentinels. */
  ghost predicate ListOk(vmas: seq<Vma>) {
    && Sorted(vmas) && |vmas| >= 2
    && vmas[0].start == vmas[0].end == 0
    && vmas[|vmas| - 1].start == vmas[|vmas| - 1].end == LIMIT
    && (forall i: nat :: NotEmpty(vmas, i))
  }

  lemma {:induction false} MeaningConcat(xs: seq<Vma>, ys: seq<Vma>, a: nat)
    ensures Meaning(xs + ys, a) == if Meaning(xs, a).Some? then Meaning(xs, a) else Meaning(ys, a)
  {
    if xs == [] {
      assert xs + ys == ys;
    } else {
      assert (xs + ys)[1..] == xs[1..] + ys;
      MeaningConcat(xs[1..], ys, a);
    }
  }

  /** An address has a meaning if and only if an area contains it, and then it is that area's. */
  lemma {:induction false} MeaningAt(vmas: seq<Vma>, a: nat)
    requires Sorted(vmas)
    ensures Meaning(vmas, a).Some? <==> exists i :: 0 <= i < |vmas| && Contains(vmas[i], a)
    ensures forall i :: 0 <= i < |vmas| && Contains(vmas[i], a) ==> Meaning(vmas, a) == Some(View(vmas[i], a))
  {
    if vmas != [] {
      var t := vmas[1..];
      forall i: nat ensures InOrder(t, i) {
        assert InOrder(vmas, i + 1);
      }
      MeaningAt(t, a);
      assert InOrder(vmas, 0);
      assert forall i :: 1 <= i < |vmas| ==> vmas[i] == t[i - 1];
      if Meaning(t, a).Some? {
        var i :| 0 <= i < |t| && Contains(t[i], a);
        assert Contains(vmas[i + 1], a);
      }
    }
  }

  /** In every list in order, an address has no permission that its file does not grant. */
  lemma OnlyGranted(vmas: seq<Vma>, a: nat)
    requires Sorted(vmas) && Meaning(vmas, a).Some?
    ensures var m := Meaning(vmas, a).value; Grants(m.shared, m.backing, m.perm)
  {
    MeaningAt(vmas, a);
    var i :| 0 <= i < |vmas| && Contains(vmas[i], a);
    assert InOrder(vmas, i);
    RefusalExact(vmas[i].shared, vmas[i].backing, vmas[i].perm);
  }

  /** The list with area i replaced by others. */
  function Replace(vmas: seq<Vma>, i: nat, with: seq<Vma>): (r: seq<Vma>)
    requires i < |vmas|
  {
    vmas[..i] + with + vmas[i + 1..]
  }

  lemma ReplaceMeaning(vmas: seq<Vma>, i: nat, with: seq<Vma>, a: nat)
    requires i < |vmas|
    ensures Meaning(vmas, a) == if Meaning(vmas[..i], a).Some? then Meaning(vmas[..i], a)
                                else if Contains(vmas[i], a) then Some(View(vmas[i], a)) else Meaning(vmas[i + 1..], a)
    ensures Meaning(Replace(vmas, i, with), a) ==
              if Meaning(vmas[..i], a).Some? then Meaning(vmas[..i], a)
              else if Meaning(with, a).Some? then Meaning(with, a) else Meaning(vmas[i + 1..], a)
  {
    assert vmas == vmas[..i] + ([vmas[i]] + vmas[i + 1..]);
    MeaningConcat(vmas[..i], [vmas[i]] + vmas[i + 1..], a);
    MeaningConcat([vmas[i]], vmas[i + 1..], a);
    assert Replace(vmas, i, with) == vmas[..i] + (with + vmas[i + 1..]);
    MeaningConcat(vmas[..i], with + vmas[i + 1..], a);
    MeaningConcat(with, vmas[i + 1..], a);
  }

  lemma ReplaceSorted(vmas: seq<Vma>, i: nat, with: seq<Vma>)
    requires Sorted(vmas) && i < |vmas| && Sorted(with)
    requires forall k :: 0 <= k < |with| ==> vmas[i].start <= with[k].start < with[k].end <= vmas[i].end
    ensures Sorted(Replace(vmas, i, with))
  {
    var r := Replace(vmas, i, with);
    var d := |with| - 1;
    assert forall j :: 0 <= j < |r| ==> r[j] == if j < i then vmas[j] else if j <= i + d then with[j - i] else vmas[j - d];
    assert InOrder(vmas, i);
    forall k: nat ensures InOrder(r, k) {
      if k < i {
        assert InOrder(vmas, k);
      } else if k <= i + d {
        assert InOrder(with, k - i);
      } else {
        assert InOrder(vmas, k - d);
      }
    }
  }

  // ------------------------------------------------------------------ split()

  predicate Cuts(v: Vma, edge: nat) { v.start < edge < v.end }

  function SplitAt(vmas: seq<Vma>, i: nat, edge: nat): (r: seq<Vma>)
    requires i < |vmas|
  {
    if Cuts(vmas[i], edge) then Replace(vmas, i, [LeftPart(vmas[i], edge), RightPart(vmas[i], edge)]) else vmas
  }

  lemma PartsAligned(v: Vma, edge: nat)
    requires VmaOk(v) && Cuts(v, edge) && Aligned(edge)
    ensures LeftPart(v, edge) == v.(end := edge)
    ensures RightPart(v, edge) == v.(start := edge, backing := View(v, edge).backing)
  {}

  lemma HalvesMeaning(v: Vma, l: Vma, r: Vma, edge: nat, a: nat)
    requires Cuts(v, edge) && l == v.(end := edge) && r == v.(start := edge, backing := View(v, edge).backing)
    ensures Meaning([l, r], a) == if Contains(v, a) then Some(View(v, a)) else None
  {
    assert [l, r] == [l] + [r];
    MeaningConcat([l], [r], a);
  }

  lemma SplitSorted(vmas: seq<Vma>, i: nat, edge: nat)
    requires Sorted(vmas) && i < |vmas| && Aligned(edge)
    ensures Sorted(SplitAt(vmas, i, edge))
  {
    if Cuts(vmas[i], edge) {
      var parts := [LeftPart(vmas[i], edge), RightPart(vmas[i], edge)];
      assert InOrder(vmas, i);
      PartsAligned(vmas[i], edge);
      forall k: nat ensures InOrder(parts, k) {}
      ReplaceSorted(vmas, i, parts);
    }
  }

  lemma PartsMeaning(v: Vma, edge: nat, a: nat)
    requires VmaOk(v) && Cuts(v, edge) && Aligned(edge)
    ensures Meaning([LeftPart(v, edge), RightPart(v, edge)], a) == if Contains(v, a) then Some(View(v, a)) else None
  {
    PartsAligned(v, edge);
    HalvesMeaning(v, LeftPart(v, edge), RightPart(v, edge), edge, a);
  }

  /** Splitting at a page border changes no address's permission or place in its file. */
  lemma SplitMeaning(vmas: seq<Vma>, i: nat, edge: nat, a: nat)
    requires Sorted(vmas) && i < |vmas| && Aligned(edge)
    ensures Meaning(SplitAt(vmas, i, edge), a) == Meaning(vmas, a)
  {
    if Cuts(vmas[i], edge) {
      assert InOrder(vmas, i);
      PartsMeaning(vmas[i], edge, a);
      ReplaceMeaning(vmas, i, [LeftPart(vmas[i], edge), RightPart(vmas[i], edge)], a);
    }
  }

  /** The halves are disjoint if and only if the edge is on a page border: otherwise both contain its page. */
  lemma SplitDisjoint(v: Vma, edge: nat)
    requires VmaOk(v) && Cuts(v, edge)
    ensures LeftPart(v, edge).end <= RightPart(v, edge).start <==> edge % 4096 == 0
    ensures edge % 4096 != 0 ==> Contains(LeftPart(v, edge), edge) && Contains(RightPart(v, edge), edge)
  {
    Rounding(edge);
    assert LeftPart(v, edge).start == v.start && RightPart(v, edge).end == v.end;
  }

  lemma Rounding(a: nat)
    ensures AlignDown(a) <= a <= AlignUp(a)
    ensures if a % 4096 == 0 then AlignUp(a) == a == AlignDown(a) else AlignDown(a) < a < AlignUp(a)
  {}

  // ------------------------------------------------------------------ searching

  /** The first area that starts at or above the address. */
  function LowerBound(vmas: seq<Vma>, a: nat): (r: nat)
    ensures r <= |vmas| && (r < |vmas| ==> vmas[r].start >= a)
    ensures forall i :: 0 <= i < r ==> vmas[i].start < a
  {
    if vmas == [] || vmas[0].start >= a then 0 else 1 + LowerBound(vmas[1..], a)
  }

  predicate Meets(v: Vma, start: nat, end: nat) { v.start < end && start < v.end }

  /** find_intersecting_vmas(): the areas from the first up to but not including the second index. */
  function Intersecting(vmas: seq<Vma>, start: nat, end: nat): (r: (nat, nat))
    ensures r.0 <= |vmas| && r.1 <= |vmas|
  {
    if end <= start then (|vmas|, |vmas|)
    else
      var lb := LowerBound(vmas, start);
      var first := if 0 < lb < |vmas| && vmas[lb].start > start && vmas[lb - 1].end > start then lb - 1 else lb;
      if first < |vmas| && vmas[first].start >= end then (|vmas|, |vmas|) else (first, LowerBound(vmas, end))
  }

  /** They are exactly the areas that meet the range. */
  lemma IntersectingMeets(vmas: seq<Vma>, start: nat, end: nat, i: nat)
    requires ListOk(vmas) && 0 < start && end <= LIMIT && i < |vmas|
    ensures var r := Intersecting(vmas, start, end);
            && r.0 <= r.1 && (r.0 <= i < r.1 <==> start < end && Meets(vmas[i], start, end))
            && (r.0 < r.1 ==> 0 < r.0 && r.1 < |vmas| && vmas[r.1].start >= end && start < end)
  {
    var lb := LowerBound(vmas, start);
    assert InOrder(vmas, i) && NotEmpty(vmas, i);
    assert start < end ==> lb < |vmas| && lb > 0;
    if start < end {
      assert InOrder(vmas, lb - 1) && InOrder(vmas, lb) && NotEmpty(vmas, lb);
      assert InOrder(vmas, LowerBound(vmas, end));
    }
  }

  // ------------------------------------------------------------------ walking along the list

  /** i->split(end); i->split(start). */
  function SplitBoth(vmas: seq<Vma>, i: nat, start: nat, end: nat): (r: seq<Vma>)
    requires i < |vmas|
    ensures |r| >= |vmas|
  {
    SplitAt(SplitAt(vmas, i, end), i, start)
  }

  predicate Range(start: nat, end: nat) {
    0 < start < end <= LIMIT && Aligned(start) && Aligned(end)
  }

  /** What a split of area i does to the list, seen from an area further on. */
  ghost predicate SplitResult(vmas: seq<Vma>, r: seq<Vma>, i: nat, stop: nat, edge: nat)
    requires 0 < i < stop < |vmas|
  {
    var d := |r| - |vmas|;
    && ListOk(r) && 0 <= d && r[..i] == vmas[..i]
    && stop + d < |r| && r[stop + d] == vmas[stop]
    && r[i] == vmas[i].(end := if Cuts(vmas[i], edge) then edge else vmas[i].end)
  }

  lemma SplitShape(vmas: seq<Vma>, i: nat, stop: nat, edge: nat)
    requires ListOk(vmas) && 0 < i < stop < |vmas| && Aligned(edge)
    ensures SplitResult(vmas, SplitAt(vmas, i, edge), i, stop, edge)
  {
    SplitSorted(vmas, i, edge);
    var r := SplitAt(vmas, i, edge);
    if Cuts(vmas[i], edge) {
      assert InOrder(vmas, i);
      assert forall k :: 0 <= k < |r| ==>
          r[k] == if k < i then vmas[k] else if k == i then LeftPart(vmas[i], edge)
                  else if k == i + 1 then RightPart(vmas[i], edge) else vmas[k - 1];
      assert r[..i] == vmas[..i];
      forall k: nat ensures NotEmpty(r, k) {
        assert NotEmpty(vmas, k) && (k > 0 ==> NotEmpty(vmas, k - 1));
      }
    }
  }

  /** After both splits, area i lies inside the range or outside it; the areas before it and the area
      where the walk ends are the same. */
  predicate AfterSplits(vmas: seq<Vma>, q: seq<Vma>, i: nat, stop: nat, stop': nat, start: nat, end: nat) {
    && i < stop < |vmas| && i < stop' < |q| && q[..i] == vmas[..i] && q[stop'] == vmas[stop]
    && q[i] == vmas[i].(end := q[i].end)
    && ((start <= q[i].start && q[i].end <= end) || !Meets(q[i], start, end))
  }

  lemma SplitBothKeeps(vmas: seq<Vma>, r: seq<Vma>, q: seq<Vma>, i: nat, stop: nat, start: nat, end: nat)
    requires 0 < i < stop < |vmas| && SplitResult(vmas, r, i, stop, end) && Range(start, end)
    requires SplitResult(r, q, i, stop + |r| - |vmas|, start)
    ensures ListOk(q) && |q| >= |vmas| && AfterSplits(vmas, q, i, stop, stop + |q| - |vmas|, start, end)
  {}

  lemma SplitBothMeaning(vmas: seq<Vma>, i: nat, start: nat, end: nat)
    requires Sorted(vmas) && i < |vmas| && Range(start, end)
    ensures forall a: nat :: Meaning(SplitBoth(vmas, i, start, end), a) == Meaning(vmas, a)
  {
    var r := SplitAt(vmas, i, end);
    SplitSorted(vmas, i, end);
    forall a: nat ensures Meaning(SplitBoth(vmas, i, start, end), a) == Meaning(vmas, a) {
      SplitMeaning(vmas, i, end, a);
      SplitMeaning(r, i, start, a);
    }
  }

  /** Nothing that starts at or above `end` gives an address below it a meaning. */
  lemma {:induction false} MeaningAbove(vmas: seq<Vma>, end: nat, a: nat)
    requires forall i :: 0 <= i < |vmas| ==> vmas[i].start >= end
    requires a < end
    ensures Meaning(vmas, a) == None
  {
    if vmas != [] {
      MeaningAbove(vmas[1..], end, a);
    }
  }

  lemma MeaningRest(vmas: seq<Vma>, stop: nat, end: nat, a: nat)
    requires Sorted(vmas) && stop < |vmas| && vmas[stop].start >= end && a < end
    ensures Meaning(vmas, a) == Meaning(vmas[..stop], a)
  {
    assert vmas == vmas[..stop] + vmas[stop..];
    MeaningConcat(vmas[..stop], vmas[stop..], a);
    assert InOrder(vmas, stop);
    assert forall i :: 0 <= i < |vmas[stop..]| ==> vmas[stop..][i] == vmas[stop + i];
    MeaningAbove(vmas[stop..], end, a);
  }

  /** The areas before index i give no address of the range a meaning. */
  ghost predicate ClearBefore(vmas: seq<Vma>, i: nat, start: nat, end: nat) {
    i <= |vmas| && forall a :: start <= a < end ==> Meaning(vmas[..i], a) == None
  }

  lemma ClearNext(vmas: seq<Vma>, i: nat, start: nat, end: nat)
    requires i < |vmas| && ClearBefore(vmas, i, start, end) && !Meets(vmas[i], start, end)
    ensures ClearBefore(vmas, i + 1, start, end)
  {
    var before := vmas[..i + 1];
    forall a | start <= a < end ensures Meaning(before, a) == None {
      assert before == vmas[..i] + [vmas[i]];
      MeaningConcat(vmas[..i], [vmas[i]], a);
    }
  }

  lemma NextStart(vmas: seq<Vma>, i: nat)
    requires ListOk(vmas) && i < |vmas|
    ensures vmas[i].start <= LIMIT
    ensures i + 1 < |vmas| ==> vmas[i].start < vmas[i + 1].start <= LIMIT
  {
    assert InOrder(vmas, i) && InOrder(vmas, i + 1);
  }

  lemma ClearErase(vmas: seq<Vma>, i: nat, start: nat, end: nat)
    requires ListOk(vmas) && 0 < i < |vmas| - 1 && ClearBefore(vmas, i, start, end)
    requires start <= vmas[i].start && vmas[i].end <= end
    ensures ListOk(Replace(vmas, i, [])) && ClearBefore(Replace(vmas, i, []), i, start, end)
    ensures forall a: nat :: !(start <= a < end) ==> Meaning(Replace(vmas, i, []), a) == Meaning(vmas, a)
  {
    var r := Replace(vmas, i, []);
    assert forall k :: 0 <= k < |r| ==> r[k] == if k < i then vmas[k] else vmas[k + 1];
    assert r[..i] == vmas[..i];
    forall k: nat ensures NotEmpty(r, k) && InOrder(r, k) {
      var k' := if k < i then k else k + 1;
      assert NotEmpty(vmas, k') && InOrder(vmas, k');
    }
    forall a: nat | !(start <= a < end) ensures Meaning(r, a) == Meaning(vmas, a) {
      ReplaceMeaning(vmas, i, [], a);
    }
  }

  // ------------------------------------------------------------------ protect()

  function Refuses(v: Vma, perm: Perm): (r: Option<Error>) { Refusal(v.shared, v.backing, perm) }

  function Repaint(m: Option<Info>, perm: Perm): (r: Option<Info>) {
    if m.Some? then Some(m.value.(perm := perm)) else None
  }

  /** Every area still to be visited meets the range, or has already been found to allow the permission. */
  ghost predicate NoneStray(vmas: seq<Vma>, i: nat, stop: nat, start: nat, end: nat, perm: Perm) {
    stop <= |vmas| && forall k :: i <= k < stop ==> Meets(vmas[k], start, end) || Refuses(vmas[k], perm) == None
  }

  lemma SplitStray(vmas: seq<Vma>, i: nat, stop: nat, start: nat, end: nat, perm: Perm, edge: nat)
    requires NoneStray(vmas, i, stop, start, end, perm) && i < stop && Refuses(vmas[i], perm) == None
    ensures var r := SplitAt(vmas, i, edge);
            NoneStray(r, i, stop + |r| - |vmas|, start, end, perm) && Refuses(r[i], perm) == None
  {
    var r := SplitAt(vmas, i, edge);
    if Cuts(vmas[i], edge) {
      assert forall k :: i <= k < |r| ==>
          r[k] == if k == i then LeftPart(vmas[i], edge) else if k == i + 1 then RightPart(vmas[i], edge) else vmas[k - 1];
    }
  }

  lemma SplitBothStray(vmas: seq<Vma>, i: nat, stop: nat, start: nat, end: nat, perm: Perm)
    requires NoneStray(vmas, i, stop, start, end, perm) && i < stop && Refuses(vmas[i], perm) == None
    ensures var q := SplitBoth(vmas, i, start, end); NoneStray(q, i, stop + |q| - |vmas|, start, end, perm)
  {
    var r := SplitAt(vmas, i, end);
    SplitStray(vmas, i, stop, start, end, perm, end);
    SplitStray(r, i, stop + |r| - |vmas|, start, end, perm, start);
  }

  /** The areas before index i have been dealt with: their part of the range has the new permission,
      everything else its old meaning. */
  ghost predicate Painted(vmas: seq<Vma>, i: nat, was: seq<Vma>, start: nat, end: nat, perm: Perm) {
    && i <= |vmas|
    && forall a: nat :: Meaning(vmas, a) ==
         if start <= a < end && Meaning(vmas[..i], a).Some? then Repaint(Meaning(was, a), perm) else Meaning(was, a)
  }

  lemma PrefixNext(vmas: seq<Vma>, i: nat, a: nat)
    requires i < |vmas|
    ensures Meaning(vmas[..i + 1], a) == if Meaning(vmas[..i], a).Some? then Meaning(vmas[..i], a)
                                         else if Contains(vmas[i], a) then Some(View(vmas[i], a)) else None
  {
    assert vmas[..i + 1] == vmas[..i] + [vmas[i]];
    MeaningConcat(vmas[..i], [vmas[i]], a);
  }

  lemma PaintSkip(vmas: seq<Vma>, i: nat, was: seq<Vma>, start: nat, end: nat, perm: Perm)
    requires Painted(vmas, i, was, start, end, perm) && i < |vmas|
    requires vmas[i].perm == perm || !Meets(vmas[i], start, end)
    ensures Painted(vmas, i + 1, was, start, end, perm)
  {
    forall a: nat ensures Meaning(vmas, a) ==
      if start <= a < end && Meaning(vmas[..i + 1], a).Some? then Repaint(Meaning(was, a), perm) else Meaning(was, a)
    {
      PrefixNext(vmas, i, a);
      ReplaceMeaning(vmas, i, [], a);
    }
  }

  lemma PaintOne(vmas: seq<Vma>, i: nat, was: seq<Vma>, start: nat, end: nat, perm: Perm)
    requires Painted(vmas, i, was, start, end, perm) && i < |vmas|
    requires start <= vmas[i].start && vmas[i].end <= end
    ensures Painted(vmas[i := vmas[i].(perm := perm)], i + 1, was, start, end, perm)
  {
    var v := vmas[i].(perm := perm);
    var r := vmas[i := v];
    assert r == Replace(vmas, i, [v]) && r[..i] == vmas[..i];
    forall a: nat ensures Meaning(r, a) ==
      if start <= a < end && Meaning(r[..i + 1], a).Some? then Repaint(Meaning(was, a), perm) else Meaning(was, a)
    {
      PrefixNext(r, i, a);
      ReplaceMeaning(vmas, i, [v], a);
    }
  }

  lemma PaintKeeps(vmas: seq<Vma>, i: nat, perm: Perm)
    requires ListOk(vmas) && 0 < i < |vmas| - 1 && Refuses(vmas[i], perm) == None
    ensures ListOk(vmas[i := vmas[i].(perm := perm)])
  {
    var r := vmas[i := vmas[i].(perm := perm)];
    forall k: nat ensures InOrder(r, k) && NotEmpty(r, k) {
      assert InOrder(vmas, k) && NotEmpty(vmas, k);
    }
  }

  /** All areas have been dealt with. */
  lemma PaintDone(vmas: seq<Vma>, stop: nat, was: seq<Vma>, start: nat, end: nat, perm: Perm)
    requires Painted(vmas, stop, was, start, end, perm) && ListOk(vmas) && stop < |vmas| && vmas[stop].start >= end
    ensures forall a: nat :: Meaning(vmas, a) == if start <= a < end then Repaint(Meaning(was, a), perm) else Meaning(was, a)
  {
    forall a: nat ensures Meaning(vmas, a) == if start <= a < end then Repaint(Meaning(was, a), perm) else Meaning(was, a) {
      if start <= a < end {
        MeaningRest(vmas, stop, end, a);
      }
    }
  }

  /** The permission can be given to every mapped address of the range that does not have it. */
  ghost predicate Allowed(vmas: seq<Vma>, start: nat, end: nat, perm: Perm) {
    forall a: nat :: start <= a < end && Meaning(vmas, a).Some? ==> Allows(Meaning(vmas, a).value, perm)
  }

  predicate Allows(m: Info, perm: Perm) {
    m.perm == perm || Grants(m.shared, m.backing, perm)
  }

  lemma AllowedAfter(vmas: seq<Vma>, was: seq<Vma>, start: nat, end: nat, perm: Perm)
    requires Sorted(vmas)
    requires forall a: nat :: start <= a < end ==> Meaning(vmas, a) == Repaint(Meaning(was, a), perm)
    ensures Allowed(was, start, end, perm)
  {
    forall a: nat | start <= a < end && Meaning(was, a).Some? ensures Allows(Meaning(was, a).value, perm) {
      MeaningAt(vmas, a);
      assert Meaning(vmas, a).Some?;
      var i :| 0 <= i < |vmas| && Contains(vmas[i], a);
      assert InOrder(vmas, i) && Meaning(vmas, a) == Some(View(vmas[i], a));
      RefusalExact(vmas[i].shared, vmas[i].backing, perm);
    }
  }

  /** The first refused area stops the walk at address b: below it the range has the new permission,
      from there on nothing has changed. */
  lemma PaintStopped(vmas: seq<Vma>, i: nat, was: seq<Vma>, start: nat, end: nat, perm: Perm)
    requires Painted(vmas, i, was, start, end, perm) && ListOk(vmas) && 0 < i < |vmas| - 1
    requires start < end && Meets(vmas[i], start, end) && vmas[i].perm != perm && Refuses(vmas[i], perm).Some?
    ensures Stopped(was, vmas, start, end, perm, if vmas[i].start < start then start else vmas[i].start, Refuses(vmas[i], perm).value)
  {
    var b := if vmas[i].start < start then start else vmas[i].start;
    RefusalExact(vmas[i].shared, vmas[i].backing, perm);
    assert InOrder(vmas, i) && NotEmpty(vmas, i) && Contains(vmas[i], b);
    MeaningAt(vmas, b);
    forall a: nat ensures Meaning(vmas, a) == if start <= a < b then Repaint(Meaning(was, a), perm) else Meaning(was, a) {
      PrefixBelow(vmas, i, a);
    }
    PrefixBelow(vmas, i, b);
  }

  /** The areas before index i lie below it, those from it on do not. */
  lemma PrefixBelow(vmas: seq<Vma>, i: nat, a: nat)
    requires Sorted(vmas) && i < |vmas|
    ensures a >= vmas[i].start ==> Meaning(vmas[..i], a) == None
    ensures a < vmas[i].start ==> Meaning(vmas[..i], a) == Meaning(vmas, a)
  {
    if a < vmas[i].start {
      MeaningRest(vmas, i, vmas[i].start, a);
    } else {
      PrefixAbove(vmas, i, vmas[i].start, a);
    }
  }

  lemma {:induction false} PrefixAbove(vmas: seq<Vma>, i: nat, from: nat, a: nat)
    requires Sorted(vmas) && i < |vmas| && vmas[i].start <= from <= a
    ensures Meaning(vmas[..i], a) == None
  {
    if i > 0 {
      assert InOrder(vmas, i - 1);
      PrefixAbove(vmas, i - 1, from, a);
      PrefixNext(vmas, i - 1, a);
    }
  }

  ghost predicate Stopped(was: seq<Vma>, vmas: seq<Vma>, start: nat, end: nat, perm: Perm, b: nat, e: Error) {
    && start <= b < end && Meaning(was, b).Some?
    && Meaning(was, b).value.perm != perm && !Allows(Meaning(was, b).value, perm)
    && Refusal(Meaning(was, b).value.shared, Meaning(was, b).value.backing, perm) == Some(e)
    && forall a: nat :: Meaning(vmas, a) == if start <= a < b then Repaint(Meaning(was, a), perm) else Meaning(was, a)
  }

  class AddressSpace {
    var vmas: seq<Vma>

    ghost predicate Valid()
      reads this
    {
      ListOk(vmas)
    }

    /** vma_list_type(): the two sentinels. */
    constructor ()
      ensures Valid() && vmas[|vmas| - 1].start == 0x4000_0000_0000 && forall a: nat :: Meaning(vmas, a) == None
    {
      var none := Perm(false, false, false);
      vmas := [Vma(0, 0, none, false, Anon), Vma(LIMIT, LIMIT, none, false, Anon)];
      new;
      assert Sorted(vmas) by {
        forall i: nat ensures InOrder(vmas, i) {}
      }
      forall a: nat ensures Meaning(vmas, a) == None {
        MeaningAt(vmas, a);
      }
    }

    /** anon_vma::split(), file_vma::split(). */
    method Split(i: nat, edge: nat)
      requires i < |vmas|
      modifies this
      ensures vmas == SplitAt(old(vmas), i, edge)
    {
      var v := vmas[i];
      if edge <= v.start || edge >= v.end {
        return;
      }
      vmas := vmas[..i] + [LeftPart(v, edge), RightPart(v, edge)] + vmas[i + 1..];
    }

    /** The two splits that evacuate() and protect() begin each step with. */
    method SplitEnds(i: nat, stop: nat, start: nat, end: nat) returns (stop': nat)
      requires Valid() && Range(start, end) && 0 < i < stop < |vmas|
      modifies this
      ensures Valid() && vmas == SplitBoth(old(vmas), i, start, end) && stop' == stop + |vmas| - |old(vmas)|
      ensures AfterSplits(old(vmas), vmas, i, stop, stop', start, end)
      ensures forall a: nat :: Meaning(vmas, a) == Meaning(old(vmas), a)
    {
      SplitBothMeaning(vmas, i, start, end);
      SplitShape(vmas, i, stop, end);
      var n := |vmas|;
      Split(i, end);
      ghost var r := vmas;
      SplitShape(vmas, i, stop + |vmas| - |old(vmas)|, start);
      Split(i, start);
      SplitBothKeeps(old(vmas), r, vmas, i, stop, start, end);
      stop' := stop + |vmas| - n;
    }

    /** One step of evacuate(): an area is split off the range or erased. */
    method EvacuateArea(i: nat, stop: nat, start: nat, end: nat) returns (i': nat, stop': nat)
      requires Valid() && Range(start, end) && 0 < i < stop < |vmas| && ClearBefore(vmas, i, start, end)
      modifies this
      ensures Valid() && 0 < i' <= stop' < |vmas| && ClearBefore(vmas, i', start, end)
      ensures vmas[stop'] == old(vmas)[stop] && old(vmas)[i].start < vmas[i'].start <= LIMIT
      ensures forall a: nat :: !(start <= a < end) ==> Meaning(vmas, a) == Meaning(old(vmas), a)
    {
      stop' := SplitEnds(i, stop, start, end);
      NextStart(vmas, i);
      if start <= vmas[i].start && vmas[i].end <= end {
        ClearErase(vmas, i, start, end);
        vmas := Replace(vmas, i, []);
        return i, stop' - 1;
      }
      ClearNext(vmas, i, start, end);
      return i + 1, stop';
    }

    /** evacuate(): exactly the addresses of the range lose their meaning. */
    method Evacuate(start: nat, end: nat)
      requires Valid() && Aligned(start) && Aligned(end) && 0 < start && end <= LIMIT
      modifies this
      ensures Valid()
      ensures forall a: nat :: Meaning(vmas, a) == if start <= a < end then None else Meaning(old(vmas), a)
    {
      var range := Intersecting(vmas, start, end);
      var i, stop := range.0, range.1;
      FirstMeets(vmas, start, end);
      if i == stop {
        return;
      }
      NextStart(vmas, i);
      while i != stop
        invariant Valid() && 0 < i <= stop < |vmas| && vmas[stop].start >= end && vmas[i].start <= LIMIT
        invariant ClearBefore(vmas, i, start, end)
        invariant forall a: nat :: !(start <= a < end) ==> Meaning(vmas, a) == Meaning(old(vmas), a)
        decreases LIMIT - vmas[i].start
      {
        i, stop := EvacuateArea(i, stop, start, end);
      }
      forall a | start <= a < end ensures Meaning(vmas, a) == None {
        MeaningRest(vmas, stop, end, a);
      }
    }

    /** One step of protect() on an area that allows the permission. */
    method ProtectArea(i: nat, stop: nat, start: nat, end: nat, perm: Perm, ghost was: seq<Vma>) returns (stop': nat)
      requires Valid() && Range(start, end) && 0 < i < stop < |vmas| && Refuses(vmas[i], perm) == None
      requires Painted(vmas, i, was, start, end, perm) && NoneStray(vmas, i, stop, start, end, perm)
      modifies this
      ensures Valid() && i < stop' < |vmas| && Painted(vmas, i + 1, was, start, end, perm)
      ensures NoneStray(vmas, i + 1, stop', start, end, perm)
      ensures vmas[stop'] == old(vmas)[stop] && old(vmas)[i].start < vmas[i + 1].start <= LIMIT
    {
      SplitBothStray(vmas, i, stop, start, end, perm);
      stop' := SplitEnds(i, stop, start, end);
      PaintedSame(old(vmas), vmas, i, was, start, end, perm);
      NextStart(vmas, i);
      if start <= vmas[i].start && vmas[i].end <= end {
        PaintOne(vmas, i, was, start, end, perm);
        PaintKeeps(vmas, i, perm);
        vmas := vmas[i := vmas[i].(perm := perm)];
      } else {
        PaintSkip(vmas, i, was, start, end, perm);
      }
    }

    /** protect(): it succeeds exactly when the permission can be given to all that is mapped in the
        range; then exactly those addresses have it.  Otherwise the part below the first address
        that refuses it has been changed. */
    method Protect(start: nat, end: nat, perm: Perm) returns (err: Option<Error>)
      requires Valid() && Aligned(start) && Aligned(end) && 0 < start && end <= LIMIT
      modifies this
      ensures Valid()
      ensures err.None? <==> Allowed(old(vmas), start, end, perm)
      ensures err.None? ==>
                forall a: nat :: Meaning(vmas, a) ==
                  if start <= a < end then Repaint(Meaning(old(vmas), a), perm) else Meaning(old(vmas), a)
      ensures err.Some? ==> exists b :: Stopped(old(vmas), vmas, start, end, perm, b, err.value)
    {
      var range := Intersecting(vmas, start, end);
      var i, stop := range.0, range.1;
      FirstMeets(vmas, start, end);
      if i == stop {
        return None;
      }
      PaintBegins(vmas, start, end, perm);
      NextStart(vmas, i);
      while i != stop
        invariant Valid() && 0 < i <= stop < |vmas| && vmas[stop].start >= end && vmas[i].start <= LIMIT
        invariant Painted(vmas, i, old(vmas), start, end, perm) && NoneStray(vmas, i, stop, start, end, perm)
        decreases LIMIT - vmas[i].start
      {
        NextStart(vmas, i);
        if vmas[i].perm == perm {
          PaintSkip(vmas, i, old(vmas), start, end, perm);
          i := i + 1;
          continue;
        }
        err := Refuses(vmas[i], perm);
        if err.Some? {
          PaintStopped(vmas, i, old(vmas), start, end, perm);
          return;
        }
        stop := ProtectArea(i, stop, start, end, perm, old(vmas));
        i := i + 1;
      }
      PaintDone(vmas, stop, old(vmas), start, end, perm);
      AllowedAfter(vmas, old(vmas), start, end, perm);
      return None;
    }

    /** ismapped(): whether the range is not empty and every address of it is mapped. */
    method IsMapped(start: nat, end: nat) returns (r: bool)
      requires Valid() && (start <= LIMIT || end <= start)
      ensures r <==> start < end && forall a: nat :: start <= a < end ==> InUse(vmas, a)
    {
      var range := Intersecting(vmas, start, end);
      var i, cur := range.0, start;
      FirstMeets(vmas, start, end);
      if i == range.1 {
        assert start < end ==> !InUse(vmas, start);
        return false;
      }
      while i != range.1
        invariant range.0 <= i <= range.1 <= |vmas| && start <= cur < end
        invariant i < range.1 ==> cur <= vmas[i].end
        invariant forall a: nat :: start <= a < cur ==> InUse(vmas, a)
        invariant ClearBefore(vmas, i, cur, end)
      {
        if vmas[i].start > cur {
          PrefixBelow(vmas, i, cur);
          assert !InUse(vmas, cur);
          return false;
        }
        assert InOrder(vmas, i) && InOrder(vmas, i + 1);
        Advance(vmas, i, cur, end);
        cur := vmas[i].end;
        if cur >= end {
          return true;
        }
        i := i + 1;
      }
      if i < |vmas| {
        MeaningRest(vmas, i, end, cur);
      } else {
        assert vmas[..i] == vmas;
      }
      assert !InUse(vmas, cur);
      return false;
    }

    /** allocate() at a fixed address: the new area replaces whatever was mapped in its range, and its
        addresses follow each other in the file from the offset on. */
    method Map(start: nat, end: nat, v: Vma)
      requires Valid() && Range(start, end) && Refuses(v, v.perm) == None
      modifies this
      ensures Valid()
      ensures forall a: nat :: Meaning(vmas, a) ==
                if start <= a < end then
                  Some(Info(v.perm, v.shared,
                            if v.backing.Anon? then Anon else Mapped(v.backing.file, v.backing.offset + (a - start))))
                else Meaning(old(vmas), a)
    {
      Evacuate(start, end);
      var w := v.(start := AlignDown(start), end := AlignUp(end));
      var k := LowerBound(vmas, start);
      InsertFits(vmas, k, w);
      InsertKeeps(vmas, k, w);
      ghost var was := vmas;
      vmas := vmas[..k] + [w] + vmas[k..];
      forall a: nat ensures Meaning(vmas, a) == if start <= a < end then Some(View(w, a)) else Meaning(was, a) {
        InsertMeaning(was, k, w, a);
      }
    }
  }

  /** What the slice leaves out lies below the range or above it. */
  lemma MissedArea(vmas: seq<Vma>, start: nat, end: nat, i: nat)
    requires ListOk(vmas) && start < end && start <= LIMIT && i < |vmas|
    ensures var r := Intersecting(vmas, start, end);
            i < r.0 || r.0 == r.1 ==> vmas[i].end <= start || end <= vmas[i].start
  {
    var lb := LowerBound(vmas, start);
    assert InOrder(vmas, i) && InOrder(vmas, |vmas| - 1) && lb < |vmas|;
    assert InOrder(vmas, lb) && (lb > 0 ==> InOrder(vmas, lb - 1));
  }

  lemma SliceBounds(vmas: seq<Vma>, start: nat, end: nat)
    requires ListOk(vmas) && (start <= LIMIT || end <= start)
    ensures var r := Intersecting(vmas, start, end);
            && r.0 <= r.1
            && (r.0 < r.1 ==> start < end && vmas[r.0].end >= start && (r.1 < |vmas| ==> vmas[r.1].start >= end))
            && (r.0 < r.1 && 0 < start && end <= LIMIT ==> 0 < r.0 && r.1 < |vmas|)
  {
    var lb := LowerBound(vmas, start);
    assert start <= LIMIT ==> lb < |vmas|;
    assert InOrder(vmas, lb) && (0 < lb <= |vmas| ==> InOrder(vmas, lb - 1));
  }

  /** The areas before the first that meets the range are clear of it; if none meets it, all are. */
  lemma FirstMeets(vmas: seq<Vma>, start: nat, end: nat)
    requires ListOk(vmas) && (start <= LIMIT || end <= start)
    ensures var r := Intersecting(vmas, start, end);
            && r.0 <= r.1 && ClearBefore(vmas, r.0, start, end)
            && (r.0 < r.1 ==> start < end && vmas[r.0].end >= start && (r.1 < |vmas| ==> vmas[r.1].start >= end))
            && (r.0 < r.1 && 0 < start && end <= LIMIT ==> 0 < r.0 && r.1 < |vmas|)
            && (r.0 == r.1 ==> forall a: nat :: start <= a < end ==> Meaning(vmas, a) == None)
  {
    SliceBounds(vmas, start, end);
    var r := Intersecting(vmas, start, end);
    forall i, a: nat | 0 <= i < |vmas| && (i < r.0 || r.0 == r.1) && start <= a < end ensures !Contains(vmas[i], a) {
      MissedArea(vmas, start, end, i);
    }
    ClearOf(vmas[..r.0], start, end);
    if r.0 == r.1 { ClearOf(vmas, start, end); }
  }

  /** Areas that do not contain an address of the range give none a meaning. */
  lemma {:induction false} ClearOf(vmas: seq<Vma>, start: nat, end: nat)
    requires forall i, a: nat :: 0 <= i < |vmas| && start <= a < end ==> !Contains(vmas[i], a)
    ensures forall a: nat :: start <= a < end ==> Meaning(vmas, a) == None
  {
    if vmas != [] {
      ClearOf(vmas[1..], start, end);
    }
  }

  lemma PaintBegins(vmas: seq<Vma>, start: nat, end: nat, perm: Perm)
    requires ListOk(vmas) && 0 < start && end <= LIMIT
    ensures var r := Intersecting(vmas, start, end);
            && Painted(vmas, r.0, vmas, start, end, perm) && NoneStray(vmas, r.0, r.1, start, end, perm)
  {
    var r := Intersecting(vmas, start, end);
    FirstMeets(vmas, start, end);
    forall k | r.0 <= k < r.1 ensures Meets(vmas[k], start, end) {
      IntersectingMeets(vmas, start, end, k);
    }
  }

  lemma PaintedSame(vmas: seq<Vma>, r: seq<Vma>, i: nat, was: seq<Vma>, start: nat, end: nat, perm: Perm)
    requires Painted(vmas, i, was, start, end, perm) && i <= |r| && r[..i] == vmas[..i]
    requires forall a: nat :: Meaning(r, a) == Meaning(vmas, a)
    ensures Painted(r, i, was, start, end, perm)
  {}

  /** The area that contains `cur` maps everything up to its end; nothing before it reaches beyond. */
  lemma Advance(vmas: seq<Vma>, i: nat, cur: nat, end: nat)
    requires Sorted(vmas) && i < |vmas| && vmas[i].start <= cur
    requires ClearBefore(vmas, i, cur, end) && cur <= vmas[i].end
    ensures forall a: nat :: cur <= a < vmas[i].end ==> InUse(vmas, a)
    ensures ClearBefore(vmas, i + 1, vmas[i].end, end)
  {
    forall a: nat | cur <= a < vmas[i].end ensures InUse(vmas, a) {
      MeaningAt(vmas, a);
      assert Contains(vmas[i], a);
    }
    var next := vmas[..i + 1];
    forall a: nat | vmas[i].end <= a < end ensures Meaning(next, a) == None {
      PrefixNext(vmas, i, a);
    }
  }

  lemma InsertFits(vmas: seq<Vma>, k: nat, w: Vma)
    requires ListOk(vmas) && Range(w.start, w.end) && k == LowerBound(vmas, w.start)
    requires forall a: nat :: w.start <= a < w.end ==> Meaning(vmas, a) == None
    ensures 0 < k < |vmas| && vmas[k - 1].end <= w.start && w.end <= vmas[k].start
  {
    assert 0 < k < |vmas|;
    assert NotEmpty(vmas, k) && NotEmpty(vmas, k - 1);
    MeaningAt(vmas, vmas[k].start);
    assert k < |vmas| - 1 ==> Contains(vmas[k], vmas[k].start);
    MeaningAt(vmas, w.start);
    assert Contains(vmas[k - 1], w.start) <==> w.start < vmas[k - 1].end;
  }

  lemma InsertKeeps(vmas: seq<Vma>, k: nat, w: Vma)
    requires ListOk(vmas) && VmaOk(w) && w.start < w.end && 0 < k < |vmas|
    requires vmas[k - 1].end <= w.start && w.end <= vmas[k].start && vmas[k - 1].start < w.start
    ensures ListOk(vmas[..k] + [w] + vmas[k..])
  {
    var r := vmas[..k] + [w] + vmas[k..];
    assert forall j :: 0 <= j < |r| ==> r[j] == if j < k then vmas[j] else if j == k then w else vmas[j - 1];
    assert InOrder(vmas, k - 1) && InOrder(vmas, k);
    forall j: nat ensures InOrder(r, j) {
      assert InOrder(vmas, j) && (j > 0 ==> InOrder(vmas, j - 1));
    }
    forall j: nat ensures NotEmpty(r, j) {
      assert NotEmpty(vmas, j) && (j > 0 ==> NotEmpty(vmas, j - 1));
    }
  }

  lemma InsertMeaning(vmas: seq<Vma>, k: nat, w: Vma, a: nat)
    requires k <= |vmas| && (Contains(w, a) ==> Meaning(vmas, a) == None)
    ensures Meaning(vmas[..k] + [w] + vmas[k..], a) == if Contains(w, a) then Some(View(w, a)) else Meaning(vmas, a)
  {
    assert vmas == vmas[..k] + vmas[k..];
    MeaningConcat(vmas[..k], vmas[k..], a);
    MeaningConcat(vmas[..k] + [w], vmas[k..], a);
    MeaningConcat(vmas[..k], [w], a);
  }

  /** The walk comes to the lower sentinel if and only if the range begins at address 0, and to the
      upper one if and only if it ends above the limit.  Splitting leaves the sentinel as it is, it
      counts as contained in the range, and erasing it leaves a list that is not in order. */
  lemma SentinelsErased(vmas: seq<Vma>, start: nat, end: nat)
    requires ListOk(vmas) && start < end && start <= LIMIT
    ensures var r, last := Intersecting(vmas, start, end), |vmas| - 1;
            && (r.0 == 0 < r.1 <==> start == 0) && (start == 0 ==> Erases(vmas, 0, start, end))
            && (r.0 <= last < r.1 <==> end > LIMIT) && (end > LIMIT ==> Erases(vmas, last, start, end))
    ensures forall i :: 0 <= i < |vmas| && (i == 0 || i == |vmas| - 1) ==> !ListOk(Replace(vmas, i, []))
  {
    var lb, last := LowerBound(vmas, start), |vmas| - 1;
    assert InOrder(vmas, 0) && InOrder(vmas, last - 1) && InOrder(vmas, last);
    assert lb < |vmas| && (start == 0 ==> lb == 0);
    assert InOrder(vmas, lb) && (lb > 0 ==> InOrder(vmas, lb - 1)) && InOrder(vmas, LowerBound(vmas, end));
  }

  /** At area i evacuate() splits nothing and goes on to erase the area. */
  predicate Erases(vmas: seq<Vma>, i: nat, start: nat, end: nat)
    requires i < |vmas|
  {
    SplitBoth(vmas, i, start, end) == vmas && start <= vmas[i].start && vmas[i].end <= end
  }

  // ------------------------------------------------------------------ find_hole()

  /** A vma_range: the addresses lo up to but not including hi. */
  datatype Extent = Extent(lo: nat, hi: nat)

  predicate InLine(xs: seq<Extent>, i: nat) {
    i < |xs| ==>
      xs[i].lo <= xs[i].hi < WORD && forall j :: i < j < |xs| ==> xs[i].hi <= xs[j].lo && xs[i].lo < xs[j].lo
  }

  /** All ranges in order, both sentinels among them, and a range beyond the limit at the end. */
  ghost predicate ExtentsOk(xs: seq<Extent>) {
    && |xs| >= 3 && xs[0] == Extent(0, 0) && xs[|xs| - 1].lo > LIMIT
    && (exists k :: 0 <= k < |xs| && xs[k] == Extent(LIMIT, LIMIT))
    && (forall i: nat :: InLine(xs, i))
  }

  /** [a, a + size) lies below the limit and meets no range. */
  predicate Hole(xs: seq<Extent>, a: nat, size: nat) {
    a + size <= 0x4000_0000_0000 && forall i :: 0 <= i < |xs| ==> xs[i].hi <= a || a + size <= xs[i].lo
  }

  /** The sum of two 64-bit words. */
  function Add64(a: nat, b: nat): (r: nat)
    requires a < WORD && b < WORD
    ensures r < WORD && (r == a + b || r + WORD == a + b)
  {
    if a + b < WORD then a + b else a + b - WORD
  }

  /** The difference of two 64-bit words. */
  function Sub64(a: nat, b: nat): (r: nat)
    requires a < WORD && b < WORD
    ensures b <= a ==> r == a - b
  {
    if b <= a then a - b else a + WORD - b
  }

  function HugeUp(a: nat): (r: nat)
    ensures a <= r < a + HUGE
  {
    if a % HUGE == 0 then a else a - a % HUGE + HUGE
  }

  lemma HugeUpLeast(a: nat, b: nat)
    ensures HugeUp(a) % HUGE == 0
    ensures b % HUGE == 0 && a <= b ==> HugeUp(a) <= b
  {}

  /** The first range that starts at or above the address. */
  function FirstFrom(xs: seq<Extent>, a: nat): (r: nat)
    ensures r <= |xs| && (r < |xs| ==> xs[r].lo >= a)
    ensures forall i :: 0 <= i < r ==> xs[i].lo < a
  {
    if xs == [] || xs[0].lo >= a then 0 else 1 + FirstFrom(xs[1..], a)
  }

  /** No hole at or above `start` lies below range p; with `aligned`, none at a huge page border. */
  ghost predicate NoneBelow(xs: seq<Extent>, p: nat, start: nat, size: nat, aligned: bool)
    requires p < |xs|
  {
    p == 0 || forall a: nat :: start <= a && (aligned ==> a % HUGE == 0) && Hole(xs, a, size) ==> xs[p].lo < a + size
  }

  /** A hole that does not lie below range p lies above it. */
  lemma InGap(xs: seq<Extent>, p: nat, size: nat, a: nat)
    requires ExtentsOk(xs) && p + 1 < |xs| && (p == 0 || xs[p].lo < a + size) && Hole(xs, a, size)
    ensures xs[p].hi <= a && (a + size <= xs[p + 1].lo || xs[p + 1].hi <= a)
  {
    assert InLine(xs, p) && InLine(xs, p + 1);
  }

  /** What fits between p and the next range is a hole. */
  lemma GapHole(xs: seq<Extent>, p: nat, a: nat, size: nat)
    requires ExtentsOk(xs) && p + 1 < |xs| && xs[p].hi <= a && a + size <= xs[p + 1].lo <= LIMIT
    ensures Hole(xs, a, size)
  {
    assert InLine(xs, p) && InLine(xs, p + 1);
    forall i | 0 <= i < |xs| ensures xs[i].hi <= a || a + size <= xs[i].lo {
      assert InLine(xs, i);
    }
  }

  /** Neither the place asked for nor the start of the gap after p fits: the gap has no hole. */
  lemma NextGap(xs: seq<Extent>, p: nat, start: nat, size: nat, aligned: bool)
    requires ExtentsOk(xs) && p + 1 < |xs| && xs[p + 1].lo <= LIMIT && NoneBelow(xs, p, start, size, aligned)
    requires !(xs[p].hi <= start && start + size <= xs[p + 1].lo)
    requires xs[p].hi >= start ==>
               xs[p + 1].lo < (if aligned then HugeUp(xs[p].hi) else xs[p].hi) + size
    ensures NoneBelow(xs, p + 1, start, size, aligned)
  {
    assert InLine(xs, p) && InLine(xs, p + 1);
    forall a: nat | start <= a && (aligned ==> a % HUGE == 0) && Hole(xs, a, size) ensures xs[p + 1].lo < a + size {
      InGap(xs, p, size, a);
      if xs[p].hi >= start && aligned { HugeUpLeast(xs[p].hi, a); }
    }
  }

  /** No range at or below the limit is left. */
  lemma NoMoreGaps(xs: seq<Extent>, p: nat, start: nat, size: nat, aligned: bool)
    requires ExtentsOk(xs) && p + 1 < |xs| && xs[p + 1].lo > LIMIT && NoneBelow(xs, p, start, size, aligned)
    ensures forall a: nat :: start <= a && (aligned ==> a % HUGE == 0) ==> !Hole(xs, a, size)
    ensures LIMIT <= xs[p].lo
  {
    var k :| 0 <= k < |xs| && xs[k] == Extent(LIMIT, LIMIT);
    assert InLine(xs, k) && InLine(xs, p + 1);
    assert 0 < k <= p;
  }

  /** Neither subtraction of the search wraps: ranges do not overlap, and what is left of a gap of at
      least 2 MB after rounding its start up is not negative. */
  lemma NothingWraps(xs: seq<Extent>, p: nat, size: nat)
    requires ExtentsOk(xs) && p + 1 < |xs|
    ensures xs[p].hi <= xs[p + 1].lo < WORD
    ensures Sub64(xs[p + 1].lo, xs[p].hi) >= size >= HUGE ==> HugeUp(xs[p].hi) <= xs[p + 1].lo
  {
    assert InLine(xs, p) && InLine(xs, p + 1);
  }

  /** No hole that ends at or below `upto` begins behind a range that begins above a. */
  ghost predicate LastGap(xs: seq<Extent>, upto: nat, start: nat, size: nat, a: nat) {
    forall b: nat, i :: 0 <= i < |xs| && start <= b && b + size <= upto && Hole(xs, b, size) && a < xs[i].lo ==> b < xs[i].lo
  }

  /** Where the search stands: no hole below range p except `good`, which serves if nothing better comes. */
  ghost predicate Searched(xs: seq<Extent>, p: nat, start: nat, size: nat, good: nat) {
    && p + 1 < |xs|
    && NoneBelow(xs, p, start, size, true)
    && (good == 0 ==> NoneBelow(xs, p, start, size, false))
    && (good != 0 ==> size >= HUGE && start <= good <= xs[p].lo && Hole(xs, good, size) && LastGap(xs, xs[p].lo, start, size, good))
    && (p == 0 || (Hole(xs, start, size) ==> xs[p].lo < start + size))
  }

  /** No hole at or above `start` begins below a. */
  ghost predicate Lowest(xs: seq<Extent>, a: nat, start: nat, size: nat, aligned: bool) {
    forall b: nat :: start <= b < a && (aligned ==> b % 0x20_0000 == 0) ==> !Hole(xs, b, size)
  }

  /** `start + size` wraps. */
  predicate Wraps(start: nat, size: nat) { start + size >= WORD }

  /** The address lies inside a range, past its first address. */
  predicate Interior(xs: seq<Extent>, a: nat) {
    exists i :: 0 <= i < |xs| && xs[i].lo < a < xs[i].hi
  }

  /** With a sum that wraps, the search is at the last range that begins below `start`, or that range
      contains `start`. */
  predicate AtWrap(xs: seq<Extent>, p: nat, start: nat, size: nat)
    requires p + 1 < |xs|
  {
    Wraps(start, size) ==> xs[p].lo < start <= xs[p + 1].lo || (start <= xs[p].lo && Interior(xs, start))
  }

  lemma SearchBegins(xs: seq<Extent>, start: nat, size: nat)
    requires ExtentsOk(xs) && start <= xs[|xs| - 1].lo && size < WORD
    ensures var k := FirstFrom(xs, start);
            var p := if k == 0 then 0 else k - 1;
            Searched(xs, p, start, size, 0) && AtWrap(xs, p, start, size)
  {
    assert InLine(xs, FirstFrom(xs, start));
  }

  /** If `start` is not free between p and the next range, no hole begins there up to that range. */
  lemma NotStart(xs: seq<Extent>, p: nat, start: nat, size: nat, good: nat)
    requires start < WORD && size < WORD && ExtentsOk(xs) && Searched(xs, p, start, size, good) && xs[p + 1].lo <= LIMIT
    requires !(start >= xs[p].hi && Add64(start, size) <= xs[p + 1].lo)
    ensures Hole(xs, start, size) ==> xs[p + 1].lo < start + size
  {
    if Hole(xs, start, size) { InGap(xs, p, size, start); }
  }

  lemma LastGapNext(xs: seq<Extent>, p: nat, start: nat, size: nat, good: nat, good': nat)
    requires ExtentsOk(xs) && Searched(xs, p, start, size, good) && good' != 0
    requires if xs[p].hi >= start && xs[p + 1].lo - xs[p].hi >= size then good' == xs[p].hi && size > 0 else good' == good
    ensures good' <= xs[p + 1].lo && LastGap(xs, xs[p + 1].lo, start, size, good')
  {
    assert InLine(xs, p) && InLine(xs, p + 1);
    forall b: nat, i | 0 <= i < |xs| && start <= b && b + size <= xs[p + 1].lo && Hole(xs, b, size) && good' < xs[i].lo
      ensures b < xs[i].lo
    {
      assert InLine(xs, i);
      if xs[p].lo < b + size { InGap(xs, p, size, b); }
    }
  }

  lemma SearchGoesOn(xs: seq<Extent>, p: nat, start: nat, size: nat, good: nat, good': nat)
    requires start < WORD && size < WORD
    requires ExtentsOk(xs) && Searched(xs, p, start, size, good) && xs[p + 1].lo <= LIMIT && AtWrap(xs, p, start, size)
    requires !(start >= xs[p].hi && Add64(start, size) <= xs[p + 1].lo)
    requires if xs[p].hi >= start && xs[p + 1].lo - xs[p].hi >= size
             then size >= HUGE && good' == xs[p].hi && xs[p + 1].lo - HugeUp(xs[p].hi) < size
             else good' == good
    ensures Searched(xs, p + 1, start, size, good') && AtWrap(xs, p + 1, start, size)
  {
    assert InLine(xs, p) && InLine(xs, p + 1);
    NotStart(xs, p, start, size, good);
    NextGap(xs, p, start, size, true);
    if good' != 0 { LastGapNext(xs, p, start, size, good, good'); }
    if good' == good {
      if good == 0 { NextGap(xs, p, start, size, false); }
    } else {
      GapHole(xs, p, good', size);
    }
  }

  lemma GapLowest(xs: seq<Extent>, p: nat, start: nat, size: nat, aligned: bool, a: nat)
    requires ExtentsOk(xs) && p + 1 < |xs| && NoneBelow(xs, p, start, size, aligned)
    requires a == if aligned then HugeUp(xs[p].hi) else xs[p].hi
    ensures Lowest(xs, a, start, size, aligned)
  {
    forall b: nat | start <= b < a && (aligned ==> b % HUGE == 0) ensures !Hole(xs, b, size) {
      if Hole(xs, b, size) {
        InGap(xs, p, size, b);
        if aligned { HugeUpLeast(xs[p].hi, b); }
      }
    }
  }

  /** No answer only if there is no hole; an answer is a hole exactly if `start + size` does not wrap; a
      hole at the place asked for is the answer; a request below 2 MB otherwise gets the lowest hole, a
      larger one the lowest hole at a 2 MB border, or if none is at such a border a hole in the last gap that has
      one.  If the sum wraps, the answer is `start` whenever that is below the limit and not inside a range,
      hole or not. */
  ghost predicate Answer(xs: seq<Extent>, start: nat, size: nat, r: Option<nat>) {
    && (r.None? ==> forall a: nat :: start <= a ==> !Hole(xs, a, size))
    && (Hole(xs, start, size) ==> r == Some(start))
    && (r.Some? ==>
          && r.value >= start && (Hole(xs, r.value, size) <==> start + size < 0x1_0000_0000_0000_0000)
          && (size < 0x20_0000 ==> Lowest(xs, r.value, start, size, false))
          && (size >= 0x20_0000 && r.value != start ==>
                if r.value % 0x20_0000 == 0 then Lowest(xs, r.value, start, size, true)
                else LastGap(xs, LIMIT, start, size, r.value) && forall a: nat :: start <= a && a % 0x20_0000 == 0 ==> !Hole(xs, a, size)))
    && (Wraps(start, size) ==> r == if start <= LIMIT && !Interior(xs, start) then Some(start) else None)
  }

  lemma AnswerStart(xs: seq<Extent>, p: nat, start: nat, size: nat)
    requires ExtentsOk(xs) && p + 1 < |xs| && xs[p + 1].lo <= LIMIT && start < WORD && size < WORD
    requires start >= xs[p].hi && Add64(start, size) <= xs[p + 1].lo && AtWrap(xs, p, start, size)
    ensures Answer(xs, start, size, Some(start))
  {
    if Wraps(start, size) {
      NotInterior(xs, p, start, size);
    } else {
      GapHole(xs, p, start, size);
    }
  }

  /** The last range that begins below `start` ends at or below it: no range contains it. */
  lemma NotInterior(xs: seq<Extent>, p: nat, start: nat, size: nat)
    requires ExtentsOk(xs) && p + 1 < |xs| && xs[p].hi <= start && AtWrap(xs, p, start, size) && Wraps(start, size)
    ensures !Interior(xs, start) && start <= xs[p + 1].lo
  {
    assert InLine(xs, p) && InLine(xs, p + 1);
    forall i | 0 <= i < |xs| ensures !(xs[i].lo < start < xs[i].hi) {
      assert InLine(xs, i);
    }
  }

  lemma AnswerGap(xs: seq<Extent>, p: nat, start: nat, size: nat, good: nat, a: nat)
    requires ExtentsOk(xs) && Searched(xs, p, start, size, good) && xs[p + 1].lo <= LIMIT
    requires a == if size < HUGE then xs[p].hi else HugeUp(xs[p].hi)
    requires start <= a && a + size <= xs[p + 1].lo && start < WORD && size < WORD
    requires !(start >= xs[p].hi && Add64(start, size) <= xs[p + 1].lo)
    ensures Answer(xs, start, size, Some(a))
  {
    NotStart(xs, p, start, size, good);
    assert InLine(xs, p + 1);
    GapHole(xs, p, a, size);
    GapLowest(xs, p, start, size, size >= HUGE, a);
    HugeUpLeast(xs[p].hi, a);
  }

  lemma AnswerLast(xs: seq<Extent>, p: nat, start: nat, size: nat, good: nat)
    requires ExtentsOk(xs) && Searched(xs, p, start, size, good) && xs[p + 1].lo > LIMIT && AtWrap(xs, p, start, size)
    ensures Answer(xs, start, size, if good != 0 then Some(good) else None)
  {
    NoMoreGaps(xs, p, start, size, true);
    if good == 0 {
      NoMoreGaps(xs, p, start, size, false);
    }
  }

  /** find_hole(). */
  method FindHole(xs: seq<Extent>, start: nat, size: nat) returns (r: Option<nat>)
    requires ExtentsOk(xs) && start < WORD && size < WORD && start <= xs[|xs| - 1].lo
    ensures Answer(xs, start, size, r)
  {
    var goodEnough: nat := 0;
    var p := FirstFrom(xs, start);
    if p != 0 {
      p := p - 1;
    }
    SearchBegins(xs, start, size);
    var n := p + 1;
    while xs[n].lo <= LIMIT
      invariant n == p + 1 && Searched(xs, p, start, size, goodEnough) && AtWrap(xs, p, start, size)
      decreases |xs| - n
    {
      ghost var good := goodEnough;
      NothingWraps(xs, p, size);
      if start >= xs[p].hi && Add64(start, size) <= xs[n].lo {
        AnswerStart(xs, p, start, size);
        return Some(start);
      }
      if xs[p].hi >= start && Sub64(xs[n].lo, xs[p].hi) >= size {
        goodEnough := xs[p].hi;
        if size < HUGE {
          AnswerGap(xs, p, start, size, good, goodEnough);
          return Some(goodEnough);
        }
        if Sub64(xs[n].lo, HugeUp(goodEnough)) >= size {
          AnswerGap(xs, p, start, size, good, HugeUp(goodEnough));
          return Some(HugeUp(goodEnough));
        }
      }
      SearchGoesOn(xs, p, start, size, good, goodEnough);
      p := n;
      n := n + 1;
    }
    AnswerLast(xs, p, start, size, goodEnough);
    if goodEnough != 0 {
      return Some(goodEnough);
    }
    return None;
  }

  /** A request that wraps gets an address although no hole there is large enough. */
  method WrappedRequest() returns (r: Option<nat>)
    ensures r == Some(4096)
    ensures !Hole([Extent(0, 0), Extent(LIMIT, LIMIT), Extent(WORD - 8192, WORD - 4096)], 4096, WORD - 4096)
  {
    var xs := [Extent(0, 0), Extent(LIMIT, LIMIT), Extent(WORD - 8192, WORD - 4096)];
    assert xs[1] == Extent(LIMIT, LIMIT);
    r := FindHole(xs, 4096, WORD - 4096);
  }
}

/** The four-level page table of core/mmu.cc, its walker, and the operations that map a linear
    range, split a 2 MB page and look an address up.

    Addresses are counted in pages of 4 KB within the 48 bits that the table translates.  What a
    table means is the function `Translate`, which follows the processor: an entry one level
    above the last may map 512 pages at once, and then its address must be a multiple of 512
    pages; bit 12 of such an entry is not an address bit, any other low bit is a fault.
 */
module PageTable {

  import opened Wrappers
  import opened Multiples

  datatype Attr = Attr(write: bool, exec: bool)

  const RWX := Attr(true, true)

  /** Entry of a table: nothing, a page (of 4 KB, or of 2 MB one level up), or a table of 512 entries. */
  datatype Entry = Empty | Leaf(page: nat, attr: Attr) | Node(entries: seq<Entry>)

  datatype Hit = Hit(page: nat, attr: Attr)

  // ------------------------------------------------------------------ addresses and entries

  /** The number of the entry of a level that covers page v, counted through the whole address space:
      v without its index bits below that level. */
  function Drop(v: nat, level: nat): (r: nat) {
    if level == 0 then v else Drop(v / 512, level - 1)
  }

  /** pt_index() */
  function Index(v: nat, level: nat): (r: nat)
    ensures r < 512
  {
    Drop(v, level) % 512
  }

  /** The first page of the n-th entry of a level. */
  function Base(level: nat, n: nat): (r: nat) {
    if level == 0 then n else Base(level - 1, 512 * n)
  }

  /** The entry of the next level up has 512 entries. */
  lemma {:induction false} DropUp(v: nat, level: nat)
    requires level > 0
    ensures Drop(v, level) == Drop(v, level - 1) / 512
  {
    if level > 1 {
      DropUp(v / 512, level - 1);
    }
  }

  /** An entry covers the pages from its first page up to the first page of the next entry. */
  lemma {:induction false} Covers(v: nat, level: nat, n: nat)
    ensures Base(level, n) <= v <==> n <= Drop(v, level)
  {
    if level > 0 {
      Covers(v, level - 1, 512 * n);
      DropUp(v, level);
    }
  }

  lemma {:induction false} BaseGrows(level: nat, n: nat, k: nat)
    requires n < k
    ensures Base(level, n) < Base(level, k)
  {
    if level > 0 {
      BaseGrows(level - 1, 512 * n, 512 * k);
    }
  }

  lemma CoversExactly(v: nat, level: nat, n: nat)
    ensures Drop(v, level) == n <==> Base(level, n) <= v < Base(level, n + 1)
  {
    Covers(v, level, n);
    Covers(v, level, n + 1);
  }

  /** Inside the n-th entry, the index bits select the entry of the level below that covers v. */
  lemma IndexSelects(v: nat, level: nat, n: nat)
    requires level > 0 && Drop(v, level) == n
    ensures Drop(v, level - 1) == 512 * n + Index(v, level - 1)
  {
    DropUp(v, level);
  }

  // ------------------------------------------------------------------ translation

  /** What the processor makes of page v inside a 2 MB entry. */
  function LargeHit(page: nat, attr: Attr, v: nat): (r: Option<Hit>) {
    if page % 512 <= 1 then Some(Hit(page - page % 512 + v, attr)) else None
  }

  /** The translation of page v by an entry that covers it. */
  function Translate(e: Entry, level: nat, v: nat): (r: Option<Hit>)
    decreases level
  {
    match e
    case Empty => None
    case Leaf(p, a) => if level == 0 then Some(Hit(p, a)) else LargeHit(p, a, v % 512)
    case Node(es) =>
      if level == 0 || |es| != 512 then None else Translate(es[Index(v, level - 1)], level - 1, v)
  }

  /** Leaves only on the two lowest levels, tables of 512 entries, and 2 MB pages aligned. */
  predicate Wf(e: Entry, level: nat)
    decreases level
  {
    match e
    case Empty => true
    case Leaf(p, _) => level <= 1 && (level == 1 ==> p % 512 == 0)
    case Node(es) => level > 0 && |es| == 512 && forall i :: 0 <= i < 512 ==> Wf(es[i], level - 1)
  }

  // ------------------------------------------------------------------ splitting

  /** Bitwise or. */
  function Or(a: nat, b: nat): (r: nat)
    ensures a == 0 ==> r == b
    ensures b == 0 ==> r == a
  {
    if a == 0 then b
    else if b == 0 then a
    else 2 * Or(a / 2, b / 2) + (if a % 2 == 1 || b % 2 == 1 then 1 else 0)
  }

  /** split_large_page(): 512 small pages, each the 2 MB page's address with the index or-ed in. */
  function Split(e: Entry): (r: Entry)
    requires e.Leaf?
  {
    Node(seq(512, i requires 0 <= i < 512 => Leaf(e.page - e.page % 512 + Or(e.page % 512, i), e.attr)))
  }

  lemma SplitPage(e: Entry, v: nat)
    requires e.Leaf?
    ensures Translate(Split(e), 1, v) == Some(Hit(e.page - e.page % 512 + Or(e.page % 512, v % 512), e.attr))
  {
    assert Index(v, 0) == v % 512;
  }

  /** Splitting keeps every translation if and only if the page is aligned. */
  lemma SplitKeeps(e: Entry)
    requires e.Leaf?
    ensures (forall v: nat :: Translate(Split(e), 1, v) == Translate(e, 1, v)) <==> e.page % 512 == 0
  {
    if e.page % 512 == 0 {
      forall v: nat ensures Translate(Split(e), 1, v) == Translate(e, 1, v) {
        SplitPage(e, v);
      }
    } else {
      SplitPage(e, 0);
      StraysAtFirst(e.page, e.attr);
      assert Translate(e, 1, 0) != Translate(Split(e), 1, 0);
    }
  }

  /** The processor does not take the first page of a misaligned 2 MB page for the page in the entry. */
  lemma StraysAtFirst(page: nat, attr: Attr)
    requires page % 512 != 0
    ensures Or(page % 512, 0) == page % 512
    ensures LargeHit(page, attr, 0) != Some(Hit(page, attr))
  {}

  // ------------------------------------------------------------------ mapping a linear range

  /** The pages [first, end) are to become physical pages from `phys` on. */
  datatype Job = Job(first: nat, end: nat, phys: nat)

  /** What page v of the job becomes: inside a 2 MB page that the job covers whole, what the
      processor makes of the one entry written for it; elsewhere its own physical page. */
  function Mapped(job: Job, v: nat): (r: Option<Hit>)
    requires job.first <= v
  {
    var b := v - v % 512;
    if job.first <= b && b + 512 <= job.end then LargeHit(job.phys + (b - job.first), RWX, v - b)
    else Some(Hit(job.phys + (v - job.first), RWX))
  }

  /** Entry e' is the n-th entry e of a level with the pages [from, to) of the job mapped. */
  ghost predicate Done(e: Entry, e': Entry, level: nat, n: nat, job: Job, from: nat, to: nat)
    requires job.first <= from
  {
    forall v: nat :: Drop(v, level) == n ==>
      Translate(e', level, v) == if from <= v < to then Mapped(job, v) else Translate(e, level, v)
  }

  /** A table whose entries are all done is done. */
  lemma NodeDone(es: seq<Entry>, es': seq<Entry>, level: nat, n: nat, job: Job, from: nat, to: nat)
    requires level > 0 && |es| == 512 == |es'| && job.first <= from
    requires forall i :: 0 <= i < 512 ==> Done(es[i], es'[i], level - 1, 512 * n + i, job, from, to)
    ensures Done(Node(es), Node(es'), level, n, job, from, to)
  {
    forall v: nat | Drop(v, level) == n
      ensures Translate(Node(es'), level, v) == if from <= v < to then Mapped(job, v) else Translate(Node(es), level, v)
    {
      IndexSelects(v, level, n);
      var i := Index(v, level - 1);
      assert Done(es[i], es'[i], level - 1, 512 * n + i, job, from, to);
    }
  }

  /** Entries that no page of the range touches are done as they are. */
  lemma UntouchedDone(e: Entry, level: nat, n: nat, job: Job, from: nat, to: nat)
    requires job.first <= from && (to <= Base(level, n) || Base(level, n + 1) <= from)
    ensures Done(e, e, level, n, job, from, to)
  {
    forall v: nat | Drop(v, level) == n ensures !(from <= v < to) {
      CoversExactly(v, level, n);
    }
  }

  /** What is done in the part of the range that lies in the entry is all there is to do in it. */
  lemma ClampDone(e: Entry, e': Entry, level: nat, n: nat, job: Job, from: nat, to: nat)
    requires job.first <= from
    requires Done(e, e', level, n, job, Max(from, Base(level, n)), Min(to, Base(level, n + 1)))
    ensures Done(e, e', level, n, job, from, to)
  {
    forall v: nat | Drop(v, level) == n ensures Base(level, n) <= v < Base(level, n + 1) {
      CoversExactly(v, level, n);
    }
  }

  /** A 4 KB page is done by writing one leaf. */
  lemma SmallDone(e: Entry, n: nat, job: Job)
    requires job.first <= n < job.end && !CoversLarge(job, n - n % 512)
    ensures Done(e, Leaf(job.phys + (n - job.first), RWX), 0, n, job, n, n + 1)
  {}

  lemma LargeCongruent(job: Job, n: nat)
    requires job.first <= 512 * n
    ensures (job.phys + (512 * n - job.first)) % 512 == 0 <==> Congruent(job)
  {}

  /** So is a 2 MB page that the job covers whole. */
  lemma LargeDone(e: Entry, n: nat, job: Job)
    requires CoversLarge(job, 512 * n)
    ensures Done(e, Leaf(job.phys + (512 * n - job.first), RWX), 1, n, job, 512 * n, 512 * n + 512)
    ensures (job.phys + (512 * n - job.first)) % 512 == 0 <==> Congruent(job)
  {
    var page := job.phys + (512 * n - job.first);
    LargeCongruent(job, n);
    forall v: nat | Drop(v, 1) == n ensures 512 * n <= v < 512 * n + 512 && Mapped(job, v) == LargeHit(page, RWX, v % 512) {
      assert Drop(v, 1) == Drop(v / 512, 0) == v / 512;
    }
  }

  /** Virtual and physical pages agree on their place in a 2 MB page. */
  predicate Congruent(job: Job) { job.phys % 512 == job.first % 512 }

  /** The job covers a 2 MB page whole. */
  predicate CoversLarge(job: Job, b: nat) { b % 512 == 0 && job.first <= b && b + 512 <= job.end }

  /** The job leaves the n-th entry of a level in order: addresses are congruent, or it covers no 2 MB
      page of the entry whole. */
  ghost predicate Sound(job: Job, level: nat, n: nat) {
    Congruent(job) || forall b: nat :: CoversLarge(job, b) ==> Drop(b, level) != n
  }

  /** [from, to) is the part of the job that lies in the n-th entry. */
  predicate Part(job: Job, level: nat, n: nat, from: nat, to: nat) {
    && job.first < job.end
    && from == Max(job.first, Base(level, n)) && to == Min(job.end, Base(level, n + 1)) && from < to
  }

  /** The table that the walker descends into: a new one, the split 2 MB page, or the one there is. */
  function Opened(e: Entry, level: nat): (es: seq<Entry>)
    requires Wf(e, level) && 0 < level
    ensures |es| == 512
  {
    if e.Empty? then seq(512, _ => Empty) else if e.Leaf? then Split(e).entries else e.entries
  }

  lemma OpenedKeeps(e: Entry, level: nat)
    requires Wf(e, level) && 0 < level
    ensures Wf(Node(Opened(e, level)), level)
    ensures forall v: nat :: Translate(Node(Opened(e, level)), level, v) == Translate(e, level, v)
  {
    if e.Leaf? {
      SplitKeeps(e);
    }
  }

  /** One entry: a page or a 2 MB page covered whole is written as a leaf, otherwise the walker descends. */
  method MapEntry(e: Entry, level: nat, n: nat, job: Job, from: nat, to: nat) returns (e': Entry)
    requires level <= 3 && Wf(e, level) && Part(job, level, n, from, to)
    requires level == 0 ==> !CoversLarge(job, n - n % 512)
    ensures Done(e, e', level, n, job, from, to)
    ensures Wf(e', level) <==> Sound(job, level, n)
    decreases level, 1
  {
    LowBases(n);
    LowSound(job, n);
    if level < 2 && from == Base(level, n) && to == Base(level, n + 1) {
      assert job.phys + (from - job.first) < job.phys + (job.end - job.first);
      e' := Leaf(job.phys + (from - job.first), RWX);
      if level == 0 { SmallDone(e, n, job); } else { LargeDone(e, n, job); }
    } else {
      e' := MapLevel(e, level, n, job, from, to);
    }
  }

  lemma LowBases(n: nat)
    ensures Base(0, n) == n && Base(0, n + 1) == n + 1 && Base(1, n) == 512 * n && Base(1, n + 1) == 512 * n + 512
  {}

  /** Entries of the two lowest levels hold at most one 2 MB page, at their first page. */
  lemma LowSound(job: Job, n: nat)
    ensures CoversLarge(job, 512 * n) ==> (Sound(job, 1, n) <==> Congruent(job))
    ensures !CoversLarge(job, 512 * n) ==> Sound(job, 1, n)
    ensures !CoversLarge(job, n - n % 512) ==> Sound(job, 0, n)
  {
    forall b: nat | CoversLarge(job, b) && Drop(b, 1) == n ensures b == 512 * n {
      assert Drop(b, 1) == Drop(b / 512, 0) == b / 512;
    }
    LowBases(n);
    CoversExactly(512 * n, 1, n);
    forall b: nat | CoversLarge(job, b) && Drop(b, 0) == n ensures b == n - n % 512 {}
  }

  /** What is known of the entries of a table while the walker is at entry idx. */
  ghost predicate Walked(es0: seq<Entry>, es: seq<Entry>, level: nat, n: nat, job: Job, from: nat, to: nat, idx0: nat, idx: nat, j: nat)
    requires |es0| == 512 == |es| && j < 512 && job.first <= from
  {
    if idx0 <= j < idx then 
      Done(es0[j], es[j], level, 512 * n + j, job, from, to) && (Wf(es[j], level) <==> Sound(job, level, 512 * n + j))
    else es[j] == es0[j] && Wf(es[j], level)
  }

  ghost predicate AllWalked(es0: seq<Entry>, es: seq<Entry>, level: nat, n: nat, job: Job, from: nat, to: nat, idx0: nat, idx: nat)
    requires |es0| == 512 == |es| && job.first <= from
  {
    forall j: nat :: j < 512 ==> Walked(es0, es, level, n, job, from, to, idx0, idx, j)
  }

  /** map_level::operator(): the walk over the entries that the range touches. */
  method MapLevel(parent: Entry, level: nat, n: nat, job: Job, from: nat, to: nat) returns (e: Entry)
    requires 0 < level <= 4 && Wf(parent, level) && Part(job, level, n, from, to)
    requires level == 1 ==> !CoversLarge(job, 512 * n)
    ensures Done(parent, e, level, n, job, from, to)
    ensures Wf(e, level) <==> Sound(job, level, n)
    decreases level, 0
  {
    OpenedKeeps(parent, level);
    var es := Opened(parent, level);
    ghost var es0 := es;
    var idx, eidx := Index(from, level - 1), Index(to - 1, level - 1);
    ghost var idx0 := idx;
    while idx <= eidx
      invariant idx0 <= idx && |es| == 512
      invariant AllWalked(es0, es, level - 1, n, job, from, to, idx0, idx)
    {
      EntryPart(job, level, n, from, to, idx, eidx);
      assert Walked(es0, es, level - 1, n, job, from, to, idx0, idx, idx);
      var k := 512 * n + idx;
      var child := MapEntry(es[idx], level - 1, k, job, Max(from, Base(level - 1, k)), Min(to, Base(level - 1, k + 1)));
      WalkOn(es0, es, child, level - 1, n, job, from, to, idx0, idx);
      es := es[idx := child];
      idx := idx + 1;
    }
    e := Node(es);
    WalkEnds(es0, es, level, n, job, from, to, idx0, idx);
  }

  lemma WalkOn(es0: seq<Entry>, es: seq<Entry>, child: Entry, level: nat, n: nat, job: Job, from: nat, to: nat, idx0: nat, idx: nat)
    requires |es0| == 512 == |es| && idx0 <= idx < 512 && job.first <= from
    requires AllWalked(es0, es, level, n, job, from, to, idx0, idx)
    requires var k := 512 * n + idx; Done(es0[idx], child, level, k, job, Max(from, Base(level, k)), Min(to, Base(level, k + 1)))
    requires Wf(child, level) <==> Sound(job, level, 512 * n + idx)
    ensures AllWalked(es0, es[idx := child], level, n, job, from, to, idx0, idx + 1)
  {
    var es', next := es[idx := child], idx + 1;
    ClampDone(es0[idx], child, level, 512 * n + idx, job, from, to);
    forall j: nat | j < 512 ensures Walked(es0, es', level, n, job, from, to, idx0, next, j) {
      assert Walked(es0, es, level, n, job, from, to, idx0, idx, j);
    }
  }

  /** The first and the last entry that the walk visits hold the first and the last page of the range. */
  lemma RangeEntries(job: Job, level: nat, n: nat, from: nat, to: nat)
    requires level > 0 && Part(job, level, n, from, to)
    ensures Drop(from, level - 1) == 512 * n + Index(from, level - 1)
    ensures Drop(to - 1, level - 1) == 512 * n + Index(to - 1, level - 1)
  {
    CoversExactly(from, level, n);
    CoversExactly(to - 1, level, n);
    IndexSelects(from, level, n);
    IndexSelects(to - 1, level, n);
  }

  lemma WalkEnds(es0: seq<Entry>, es: seq<Entry>, level: nat, n: nat, job: Job, from: nat, to: nat, idx0: nat, idx: nat)
    requires |es0| == 512 == |es| && level > 0 && Part(job, level, n, from, to)
    requires idx0 == Index(from, level - 1) && idx > Index(to - 1, level - 1)
    requires AllWalked(es0, es, level - 1, n, job, from, to, idx0, idx)
    ensures Done(Node(es0), Node(es), level, n, job, from, to)
    ensures Wf(Node(es), level) <==> Sound(job, level, n)
  {
    RangeEntries(job, level, n, from, to);
    forall j | 0 <= j < 512
      ensures Done(es0[j], es[j], level - 1, 512 * n + j, job, from, to)
      ensures Wf(es[j], level - 1) <==> Sound(job, level - 1, 512 * n + j)
    {
      assert Walked(es0, es, level - 1, n, job, from, to, idx0, idx, j);
      if !(idx0 <= j < idx) {
        Covers(from, level - 1, 512 * n + j + 1);
        Covers(to - 1, level - 1, 512 * n + j);
        UntouchedDone(es[j], level - 1, 512 * n + j, job, from, to);
        UntouchedSound(job, level - 1, 512 * n + j, level, n, from, to);
      }
    }
    NodeDone(es0, es, level, n, job, from, to);
    NodeSound(es, level, n, job);
  }

  /** Entries of a table that no page of the job touches are in order. */
  lemma UntouchedSound(job: Job, level: nat, k: nat, above: nat, n: nat, from: nat, to: nat)
    requires above == level + 1 && n == k / 512 && Part(job, above, n, from, to)
    requires to <= Base(level, k) || Base(level, k + 1) <= from
    ensures Sound(job, level, k)
  {
    forall b: nat | CoversLarge(job, b) ensures Drop(b, level) != k {
      CoversExactly(b, level, k);
      CoversExactly(b, above, n);
      DropUp(b, above);
    }
  }

  /** A table is in order if and only if all its entries are. */
  lemma NodeSound(es: seq<Entry>, level: nat, n: nat, job: Job)
    requires level > 0 && |es| == 512
    requires forall j :: 0 <= j < 512 ==> (Wf(es[j], level - 1) <==> Sound(job, level - 1, 512 * n + j))
    ensures Wf(Node(es), level) <==> Sound(job, level, n)
  {
    if Sound(job, level, n) {
      forall j | 0 <= j < 512 ensures Wf(es[j], level - 1) {
        var k := 512 * n + j;
        forall b: nat | CoversLarge(job, b) && !Congruent(job) ensures Drop(b, level - 1) != k {
          DropUp(b, level);
        }
        assert Sound(job, level - 1, k);
      }
    } else {
      var b: nat :| CoversLarge(job, b) && Drop(b, level) == n;
      IndexSelects(b, level, n);
      var j := Index(b, level - 1);
      assert !Sound(job, level - 1, 512 * n + j);
      assert !Wf(es[j], level - 1);
    }
  }

  lemma EntryPart(job: Job, level: nat, n: nat, from: nat, to: nat, idx: nat, eidx: nat)
    requires 0 < level && Part(job, level, n, from, to) && (level == 1 ==> !CoversLarge(job, 512 * n))
    requires Index(from, level - 1) <= idx <= eidx == Index(to - 1, level - 1)
    ensures var k := 512 * n + idx;
            && Part(job, level - 1, k, Max(from, Base(level - 1, k)), Min(to, Base(level - 1, k + 1)))
            && (level == 1 ==> !CoversLarge(job, k - k % 512))
  {
    var k := 512 * n + idx;
    RangeEntries(job, level, n, from, to);
    Covers(from, level - 1, k + 1);
    Covers(to - 1, level - 1, k);
    BaseGrows(level - 1, k, k + 1);
    if idx > 0 { BaseGrows(level - 1, 512 * n, k); }
    if k + 1 < 512 * (n + 1) { BaseGrows(level - 1, k + 1, 512 * (n + 1)); }
    assert k - k % 512 == 512 * n;
  }

  /** Page v of the job becomes its own physical page. */
  predicate Straight(job: Job, v: nat)
    requires job.first <= v
  {
    Mapped(job, v) == Some(Hit(job.phys + (v - job.first), RWX))
  }

  /** Every page of the job does if and only if virtual and physical pages are congruent, or the job
      covers no 2 MB page whole. */
  lemma LinearExact(job: Job)
    ensures (forall v: nat :: job.first <= v < job.end ==> Straight(job, v))
            <==> Congruent(job) || forall b: nat :: !CoversLarge(job, b)
  {
    forall v: nat | job.first <= v < job.end && (Congruent(job) || !CoversLarge(job, v - v % 512)) ensures Straight(job, v) {
      StraightPage(job, v);
    }
    if !Congruent(job) && exists b: nat :: CoversLarge(job, b) {
      var b: nat :| CoversLarge(job, b);
      MisalignedPage(job, b);
    }
  }

  lemma StraightPage(job: Job, v: nat)
    requires job.first <= v < job.end && (Congruent(job) || !CoversLarge(job, v - v % 512))
    ensures Straight(job, v)
  {
    var b := v - v % 512;
    assert b % 512 == 0;
    if CoversLarge(job, b) { assert (job.phys + (b - job.first)) % 512 == 0; }
  }

  /** In a 2 MB page at a physical address that is not congruent, some page goes astray. */
  lemma MisalignedPage(job: Job, b: nat)
    requires !Congruent(job) && CoversLarge(job, b)
    ensures job.first <= b < job.end && !Straight(job, b)
  {
    assert b - b % 512 == b;
    assert (job.phys + (b - job.first)) % 512 != 0;
  }

  // ------------------------------------------------------------------ looking an address up

  /** virt_to_phys_map: down the table by the index bits of the address; the address in the entry
      (without bit 12 for a 2 MB page) with the low bits or-ed in. */
  function Walk(e: Entry, level: nat, v: nat): (r: Option<nat>)
    requires e.Leaf? || Wf(e, level)
    decreases level
  {
    match e
    case Empty => None
    case Leaf(p, _) => if level == 0 then Some(p) else Some(Or(p - p % 2, v % 512))
    case Node(es) => Walk(es[Index(v, level - 1)], level - 1, v)
  }

  function Two(k: nat): (r: nat)
    ensures r > 0
  {
    if k == 0 then 1 else 2 * Two(k - 1)
  }

  lemma {:induction false} OrAdds(q: nat, b: nat, k: nat)
    requires b < Two(k)
    ensures Or(Two(k) * q, b) == Two(k) * q + b
  {
    if k > 0 {
      var a, h := Two(k) * q, Two(k - 1) * q;
      assert a == 2 * h;
      OrAdds(q, b / 2, k - 1);
    }
  }

  lemma LargeWalk(p: nat, i: nat)
    requires p % 512 == 0 && i < 512
    ensures Or(p - p % 2, i) == p + i
  {
    var q := p / 512;
    BitSet(p);
    assert p == 512 * q;
    assert Two(3) == 8 && Two(6) == 64 && Two(9) == 512;
    OrAdds(q, i, 9);
  }

  /** The software walk finds what the processor finds, for every address and every well-formed table. */
  lemma {:induction false} WalkTranslates(e: Entry, level: nat, v: nat)
    requires Wf(e, level)
    ensures var t := Translate(e, level, v); Walk(e, level, v) == if t.Some? then Some(t.value.page) else None
    decreases level
  {
    if e.Leaf? && level == 1 {
      LargeWalk(e.page, v % 512);
    } else if e.Node? {
      WalkTranslates(e.entries[Index(v, level - 1)], level - 1, v);
    }
  }

  /** Bit 12 of an entry for a 2 MB page is not an address bit, for the processor and for the walk. */
  lemma Bit12Ignored(p: nat, attr: Attr, v: nat)
    requires p % 512 == 0
    ensures Translate(Leaf(p + 1, attr), 1, v) == Translate(Leaf(p, attr), 1, v) == Some(Hit(p + v % 512, attr))
    ensures Walk(Leaf(p + 1, attr), 1, v) == Walk(Leaf(p, attr), 1, v) == Some(p + v % 512)
  {
    LargeWalk(p, v % 512);
    BitSet(p);
    LargeHits(p, attr, v % 512);
  }

  lemma BitSet(p: nat)
    requires p % 512 == 0
    ensures (p + 1) % 512 == 1 && (p + 1) % 2 == 1 && p % 2 == 0
  {
    var q := p / 512;
    assert p == 512 * q == 2 * (256 * q);
    RestOf(512, q, 1);
    RestOf(2, 256 * q, 1);
    RestOf(2, 256 * q, 0);
  }

  lemma LargeHits(p: nat, attr: Attr, i: nat)
    requires p % 512 == 0 && (p + 1) % 512 == 1
    ensures LargeHit(p, attr, i) == LargeHit(p + 1, attr, i) == Some(Hit(p + i, attr))
  {}

  // ------------------------------------------------------------------ addresses in bytes

  const PAGE: nat := 4096
  const TOP: nat := 0x1_0000_0000_0000   // 48 bits

  /** The table covers the pages below the top. */
  lemma TopPages(v: nat)
    ensures Drop(v, 4) == 0 <==> v < TOP / PAGE
    ensures Base(4, 0) == 0 && Base(4, 1) == TOP / PAGE
  {
    assert Base(4, 1) == Base(3, 512) == Base(2, 262144) == Base(1, 134217728) == Base(0, 68719476736);
    assert Base(4, 0) == Base(3, 0) == Base(2, 0) == Base(1, 0) == Base(0, 0);
    Covers(v, 4, 1);
  }

  /** clamp(): widen the range [vstart, vend] to multiples of the slop, then cut it to [min, max]. */
  function Clamp(vstart: nat, vend: nat, min: nat, max: nat, slop: nat): (r: (nat, nat))
    requires slop > 0
  {
    (Max(vstart / slop * slop, min), Min(vend / slop * slop + (slop - 1), max))
  }

  /** Clamping widens each end to the next multiple of the slop, unless that passes the limit. */
  lemma ClampSlop(vstart: nat, vend: nat, min: nat, max: nat, slop: nat)
    requires slop > 0 && min <= vstart && vend <= max
    ensures var r := Clamp(vstart, vend, min, max, slop);
            && (r.0 % slop == 0 || r.0 == min) && min <= r.0 <= vstart < r.0 + slop
            && ((r.1 + 1) % slop == 0 || r.1 == max) && vend <= r.1 <= max && r.1 < vend + slop
  {
    SlopEnds(vstart, slop);
    SlopEnds(vend, slop);
  }

  lemma SlopEnds(v: nat, slop: nat)
    requires slop > 0
    ensures (v / slop * slop) % slop == 0 && v / slop * slop <= v < v / slop * slop + slop
    ensures (v / slop * slop + (slop - 1) + 1) % slop == 0
  {
    var q := v / slop;
    assert v == slop * q + v % slop;
    TimesMod(slop, q);
    TimesMod(slop, q + 1);
    assert slop * (q + 1) == q * slop + (slop - 1) + 1;
  }

  /** With one page of slop, whole pages are cut to the entry and never widened. */
  lemma ClampPages(from: nat, to: nat, b: nat, span: nat)
    requires from < to && span > 0
    ensures Clamp(PAGE * from, PAGE * to - 1, PAGE * b, PAGE * (b + span) - 1, PAGE)
            == (PAGE * Max(from, b), PAGE * Min(to, b + span) - 1)
  {
    assert (PAGE * to - 1) / PAGE == to - 1;
  }

  /** The page and the permission that the processor finds for an address. */
  function Lookup(root: Entry, a: nat): (r: Option<Hit>) {
    Translate(root, 4, a / PAGE)
  }

  /** The physical address that the processor finds for an address. */
  function Resolve(root: Entry, a: nat): (r: Option<nat>) {
    var t := Lookup(root, a);
    if t.Some? then Some(PAGE * t.value.page + a % PAGE) else None
  }

  /** [b, b + 2 MB) is a 2 MB page inside the range. */
  predicate WholeLarge(virt: nat, size: nat, b: nat) {
    b % (512 * PAGE) == 0 && virt <= b && b + 512 * PAGE <= virt + size
  }

  lemma PageMod(x: nat)
    ensures (PAGE * x) % (512 * PAGE) == PAGE * (x % 512)
  {
    var q, r := x / 512, x % 512;
    assert PAGE * x == (512 * PAGE) * q + PAGE * r;
  }

  lemma JobPages(virt: nat, phys: nat, size: nat, job: Job)
    requires virt % PAGE == 0 && phys % PAGE == 0 && size % PAGE == 0
    requires job == Job(virt / PAGE, (virt + size) / PAGE, phys / PAGE)
    ensures virt == PAGE * job.first && phys == PAGE * job.phys && virt + size == PAGE * job.end
    ensures Congruent(job) <==> virt % (512 * PAGE) == phys % (512 * PAGE)
  {
    assert virt == PAGE * job.first && phys == PAGE * job.phys;
    PageMod(job.first);
    PageMod(job.phys);
  }

  lemma JobLarge(virt: nat, size: nat, job: Job)
    requires virt == PAGE * job.first && virt + size == PAGE * job.end
    ensures (exists b: nat :: CoversLarge(job, b)) <==> (exists b: nat :: WholeLarge(virt, size, b))
  {
    forall b: nat | CoversLarge(job, b) ensures WholeLarge(virt, size, PAGE * b) {}
    forall b: nat | WholeLarge(virt, size, b) ensures CoversLarge(job, b / PAGE) {}
  }

  /** A mapped page is writable and executable. */
  lemma MappedAttr(job: Job, v: nat)
    requires job.first <= v
    ensures Mapped(job, v).Some? ==> Mapped(job, v).value.attr.write && Mapped(job, v).value.attr.exec
  {}

  /** Address a is in the range exactly if its page is in the job. */
  lemma JobRange(virt: nat, size: nat, job: Job, a: nat)
    requires virt == PAGE * job.first && virt + size == PAGE * job.end
    ensures virt <= a < virt + size <==> job.first <= a / PAGE < job.end
  {}

  /** Address a is in the range exactly if its page is in the job, and then it goes where its page goes. */
  lemma JobByte(was: Entry, root: Entry, virt: nat, phys: nat, size: nat, job: Job, a: nat)
    requires virt == PAGE * job.first && phys == PAGE * job.phys && virt + size == PAGE * job.end
    requires Done(was, root, 4, 0, job, job.first, job.end) && a < TOP
    ensures virt <= a < virt + size <==> job.first <= a / PAGE < job.end
    ensures !(virt <= a < virt + size) ==> Lookup(root, a) == Lookup(was, a)
    ensures virt <= a < virt + size && Lookup(root, a).Some? ==>
              Lookup(root, a).value.attr.write && Lookup(root, a).value.attr.exec
    ensures virt <= a < virt + size ==> (Resolve(root, a) == Some(phys + (a - virt)) <==> Straight(job, a / PAGE))
  {
    var v := a / PAGE;
    JobRange(virt, size, job, a);
    TopPages(v);
    assert Lookup(root, a) == if job.first <= v < job.end then Mapped(job, v) else Lookup(was, a);
    if job.first <= v < job.end {
      MappedAttr(job, v);
      assert a - virt == PAGE * (v - job.first) + a % PAGE;
    }
  }

  /** virt + k becomes phys + k for every k below size. */
  ghost predicate Exact(root: Entry, virt: nat, phys: nat, size: nat) {
    forall a: nat :: virt <= a < virt + size ==> Resolve(root, a) == Some(phys + (a - virt))
  }

  lemma JobBytes(was: Entry, root: Entry, virt: nat, phys: nat, size: nat, job: Job)
    requires virt == PAGE * job.first && phys == PAGE * job.phys && virt + size == PAGE * job.end
    requires Done(was, root, 4, 0, job, job.first, job.end) && virt + size <= TOP
    ensures Exact(root, virt, phys, size) <==> forall v: nat :: job.first <= v < job.end ==> Straight(job, v)
  {
    forall a: nat | virt <= a < virt + size
      ensures job.first <= a / PAGE < job.end
      ensures Resolve(root, a) == Some(phys + (a - virt)) <==> Straight(job, a / PAGE)
    {
      JobByte(was, root, virt, phys, size, job, a);
    }
    if Exact(root, virt, phys, size) {
      forall v: nat | job.first <= v < job.end ensures Straight(job, v) {
        var a := PAGE * v;
        assert virt <= a < virt + size && a / PAGE == v;
      }
    }
  }

  /** In the whole table, the job is sound under the condition of LinearExact. */
  lemma JobSound(job: Job)
    requires job.end <= TOP / PAGE
    ensures Sound(job, 4, 0) <==> Congruent(job) || !exists b: nat :: CoversLarge(job, b)
  {
    forall b: nat | CoversLarge(job, b) ensures Drop(b, 4) == 0 {
      TopPages(b);
    }
  }

  class AddressSpace {
    var root: Entry

    ghost predicate Valid()
      reads this
    {
      Wf(root, 4)
    }

    constructor ()
      ensures Valid() && forall a: nat :: Lookup(root, a) == None
    {
      root := Empty;
    }

    /** linear_map() of whole pages with one page of slop: no address outside the range changes, and
        virt + k becomes phys + k, writable and executable, for every k below size if and only if the
        addresses are congruent modulo 2 MB or the range holds no whole 2 MB page; and exactly then the
        table stays in order. */
    method LinearMap(virt: nat, phys: nat, size: nat)
      requires Valid() && size > 0 && virt % PAGE == 0 && phys % PAGE == 0 && size % PAGE == 0
      requires virt + size <= TOP
      modifies this
      ensures Valid() <==> virt % (512 * PAGE) == phys % (512 * PAGE) || !exists b: nat :: WholeLarge(virt, size, b)
      ensures forall a: nat :: a < TOP && !(virt <= a < virt + size) ==> Lookup(root, a) == Lookup(old(root), a)
      ensures forall a: nat :: virt <= a < virt + size && Lookup(root, a).Some? ==>
                Lookup(root, a).value.attr.write && Lookup(root, a).value.attr.exec
      ensures Exact(root, virt, phys, size)
              <==> virt % (512 * PAGE) == phys % (512 * PAGE) || !exists b: nat :: WholeLarge(virt, size, b)
    {
      var job := Job(virt / PAGE, (virt + size) / PAGE, phys / PAGE);
      JobPages(virt, phys, size, job);
      TopPages(job.first);
      root := MapLevel(root, 4, 0, job, job.first, job.end);
      JobBytes(old(root), root, virt, phys, size, job);
      JobLarge(virt, size, job);
      LinearExact(job);
      JobSound(job);
      forall a: nat | a < TOP
        ensures !(virt <= a < virt + size) ==> Lookup(root, a) == Lookup(old(root), a)
        ensures virt <= a < virt + size && Lookup(root, a).Some? ==>
                  Lookup(root, a).value.attr.write && Lookup(root, a).value.attr.exec
      {
        JobByte(old(root), root, virt, phys, size, job, a);
      }
    }

    /** virt_to_phys_pt(). */
    method VirtToPhys(a: nat) returns (r: Option<nat>)
      requires Valid()
      ensures r == Resolve(root, a)
    {
      WalkTranslates(root, 4, a / PAGE);
      var w := Walk(root, 4, a / PAGE);
      return if w.Some? then Some(PAGE * w.value + a % PAGE) else None;
    }
  }
}

/** The allocation tracker of core/alloctracker.cc: an array of records whose `next` indices link the
    unused records into one list and the living allocations, newest first, into another.
 */
module AllocTracker {

  import opened Lists

  const INITIAL: nat := 1024

  /** alloc_info, without the backtrace. */
  datatype Info = Info(stamp: nat, size: int, addr: nat, next: int)

  /** What is tracked about a living allocation. */
  datatype Entry = Entry(stamp: nat, size: int, addr: nat)

  // ------------------------------------------------------------------ linked indices

  /** The index at position i of the list, -1 behind its end. */
  function At(list: seq<nat>, i: nat): (r: int) {
    if i < |list| then list[i] else -1
  }

  predicate LinkAt(recs: seq<Info>, list: seq<nat>, i: nat) {
    i < |list| ==> list[i] < |recs| && recs[list[i]].next == At(list, i + 1)
  }

  /** Following `next` from `head` visits exactly the indices of the list and ends at -1. */
  ghost predicate Linked(recs: seq<Info>, head: int, list: seq<nat>) {
    head == At(list, 0) && forall i: nat :: LinkAt(recs, list, i)
  }

  /** Index k is on one of the lists exactly if it is an index of the array, and never on both. */
  predicate PlaceOk(n: nat, free: seq<nat>, live: seq<nat>, k: nat) {
    (k in free || k in live <==> k < n) && !(k in free && k in live)
  }

  /** Every index of the array is on exactly one of the lists, once. */
  ghost predicate Partition(n: nat, free: seq<nat>, live: seq<nat>) {
    NoRepeats(free) && NoRepeats(live) && forall k: nat :: PlaceOk(n, free, live, k)
  }

  lemma NoRepeatsCons(k: nat, list: seq<nat>)
    requires NoRepeats(list) && k !in list
    ensures NoRepeats([k] + list)
  {
    assert InsertAt(list, 0, k) == [k] + list;
    InsertMembers(list, 0, k);
  }

  /** Changing records that are not on the list leaves the list alone. */
  lemma LinkedFrame(recs: seq<Info>, recs': seq<Info>, head: int, list: seq<nat>)
    requires Linked(recs, head, list) && |recs| <= |recs'|
    requires forall k :: k in list && k < |recs| ==> recs'[k].next == recs[k].next
    ensures Linked(recs', head, list)
  {
    forall i: nat ensures LinkAt(recs', list, i) {
      assert LinkAt(recs, list, i);
    }
  }

  lemma LinkedCons(recs: seq<Info>, head: int, list: seq<nat>, k: nat)
    requires Linked(recs, head, list) && k < |recs| && recs[k].next == head
    ensures Linked(recs, k, [k] + list)
  {
    forall i: nat ensures LinkAt(recs, [k] + list, i) {
      if i > 0 { assert LinkAt(recs, list, i - 1); }
    }
  }

  lemma LinkedTail(recs: seq<Info>, head: int, list: seq<nat>)
    requires Linked(recs, head, list) && list != []
    ensures list[0] < |recs| && Linked(recs, recs[list[0]].next, list[1..])
  {
    assert LinkAt(recs, list, 0);
    forall i: nat ensures LinkAt(recs, list[1..], i) {
      assert LinkAt(recs, list, i + 1);
    }
  }

  /** Unlinking position i: the pointer to it takes over its `next`. */
  lemma Unlink(recs: seq<Info>, recs': seq<Info>, head: int, list: seq<nat>, i: nat)
    requires Linked(recs, head, list) && NoRepeats(list) && i < |list| && |recs'| == |recs| && list[i] < |recs|
    requires forall k :: k in list && k < |recs| && k != list[i] ==>
               recs'[k].next == if i > 0 && k == list[i - 1] then recs[list[i]].next else recs[k].next
    ensures Linked(recs', if i == 0 then recs[list[0]].next else head, Without(list, i))
  {
    var r := Without(list, i);
    assert forall k :: 0 <= k < |r| ==> r[k] == list[if k < i then k else k + 1];
    assert LinkAt(recs, list, i) && Unlike(list, i);
    if i > 0 { assert Unlike(list, i - 1); }
    forall k: nat ensures LinkAt(recs', r, k) {
      UnlinkAt(recs, recs', list, i, k);
    }
  }

  lemma UnlinkAt(recs: seq<Info>, recs': seq<Info>, list: seq<nat>, i: nat, k: nat)
    requires (forall j: nat :: LinkAt(recs, list, j)) && NoRepeats(list) && i < |list| && |recs'| == |recs| && list[i] < |recs|
    requires forall k :: k in list && k < |recs| && k != list[i] ==>
               recs'[k].next == if i > 0 && k == list[i - 1] then recs[list[i]].next else recs[k].next
    ensures LinkAt(recs', Without(list, i), k)
  {
    var r := Without(list, i);
    if k < |r| {
      var j := if k < i then k else k + 1;
      assert r[k] == list[j];
      assert k + 1 < |r| ==> r[k + 1] == list[if k + 1 < i then k + 1 else k + 2];
      assert LinkAt(recs, list, j) && LinkAt(recs, list, i);
      assert Unlike(list, j) && Unlike(list, i) && (i > 0 ==> Unlike(list, i - 1));
    }
  }

  // ------------------------------------------------------------------ what is tracked

  function View(recs: seq<Info>, list: seq<nat>): (r: seq<Entry>)
    ensures |r| == |list|
  {
    seq(|list|, i requires 0 <= i < |list| => EntryOf(recs, list[i]))
  }

  function EntryOf(recs: seq<Info>, k: nat): (r: Entry) {
    if k < |recs| then Entry(recs[k].stamp, recs[k].size, recs[k].addr) else Entry(0, 0, 0)
  }

  lemma ViewFrame(recs: seq<Info>, recs': seq<Info>, list: seq<nat>)
    requires forall k :: k in list ==> EntryOf(recs', k) == EntryOf(recs, k)
    ensures View(recs', list) == View(recs, list)
  {}

  lemma ViewWithout(recs: seq<Info>, list: seq<nat>, i: nat)
    requires i < |list|
    ensures View(recs, Without(list, i)) == View(recs, list)[..i] + View(recs, list)[i + 1..]
  {}

  /** The newest record of the address is dropped, all others stay. */
  function Dropped(live: seq<Entry>, addr: nat): (r: seq<Entry>) {
    if live == [] then []
    else if live[0].addr == addr then live[1..]
    else [live[0]] + Dropped(live[1..], addr)
  }

  lemma {:induction false} DroppedAt(live: seq<Entry>, addr: nat, i: nat)
    requires i <= |live| && (forall k :: 0 <= k < i ==> live[k].addr != addr) && (i < |live| ==> live[i].addr == addr)
    ensures Dropped(live, addr) == if i < |live| then live[..i] + live[i + 1..] else live
  {
    if i > 0 {
      var t := live[1..];
      assert forall k :: 0 <= k < |t| ==> t[k] == live[k + 1];
      DroppedAt(t, addr, i - 1);
      if i < |live| { SkipShift(live, i); } else { assert [live[0]] + t == live; }
    }
  }

  lemma SkipShift(live: seq<Entry>, i: nat)
    requires 0 < i < |live|
    ensures [live[0]] + (live[1..][..i - 1] + live[1..][i..]) == live[..i] + live[i + 1..]
  {}

  /** Stamps fall along the list, so the first record of an address is its newest. */
  predicate Falling(live: seq<Entry>, bound: nat) {
    && (forall i :: 0 <= i < |live| ==> live[i].stamp < bound)
    && (forall i, j :: 0 <= i < j < |live| ==> live[i].stamp > live[j].stamp)
  }

  lemma {:induction false} DroppedIn(live: seq<Entry>, addr: nat)
    ensures forall e :: e in Dropped(live, addr) ==> e in live
  {
    if live != [] {
      DroppedIn(live[1..], addr);
    }
  }

  lemma FallingCons(e: Entry, list: seq<Entry>, bound: nat)
    requires Falling(list, bound) && e.stamp < bound && forall f :: f in list ==> f.stamp < e.stamp
    ensures Falling([e] + list, bound)
  {
    assert forall k :: 0 <= k < |list| ==> list[k] in list;
  }

  lemma FallingTail(live: seq<Entry>, bound: nat)
    requires Falling(live, bound) && live != []
    ensures Falling(live[1..], bound) && forall f :: f in live[1..] ==> f.stamp < live[0].stamp
  {}

  lemma {:induction false} DroppedFalls(live: seq<Entry>, addr: nat, bound: nat)
    requires Falling(live, bound)
    ensures Falling(Dropped(live, addr), bound)
  {
    if live != [] {
      FallingTail(live, bound);
      DroppedFalls(live[1..], addr, bound);
      DroppedIn(live[1..], addr);
      if live[0].addr != addr {
        FallingCons(live[0], Dropped(live[1..], addr), bound);
      }
    }
  }

  /** What is dropped is the newest record of the address; what is left is all the others. */
  lemma {:induction false} DropsNewest(live: seq<Entry>, addr: nat, bound: nat)
    requires Falling(live, bound)
    ensures Falling(Dropped(live, addr), bound) && forall e :: e in Dropped(live, addr) ==> e in live
    ensures forall e :: e in live && e !in Dropped(live, addr) ==>
              e.addr == addr && forall f :: f in live && f.addr == addr ==> f.stamp <= e.stamp
    ensures |Dropped(live, addr)| == if exists e :: e in live && e.addr == addr then |live| - 1 else |live|
  {
    DroppedFalls(live, addr, bound);
    DroppedIn(live, addr);
    if live != [] {
      var t := live[1..];
      FallingTail(live, bound);
      DropsNewest(t, addr, bound);
      assert forall e :: e in live <==> e == live[0] || e in t;
      if live[0].addr != addr {
        assert forall e :: e in Dropped(live, addr) <==> e == live[0] || e in Dropped(t, addr);
      }
    }
  }

  /** Forgetting an allocation just remembered gives back what was tracked before. */
  lemma RememberForget(live: seq<Entry>, e: Entry)
    ensures Dropped([e] + live, e.addr) == live
  {
    assert ([e] + live)[1..] == live;
  }

  // ------------------------------------------------------------------ the tracker

  /** The state of the tracker is in order. */
  ghost predicate Ok(recs: seq<Info>, firstFree: int, newest: int, stamp: nat, free: seq<nat>, live: seq<nat>) {
    && Linked(recs, firstFree, free) && Linked(recs, newest, live) && Partition(|recs|, free, live)
    && Falling(View(recs, live), stamp)
  }

  /** The first unused record becomes the newest allocation. */
  lemma RememberKeeps(recs: seq<Info>, firstFree: int, newest: int, stamp: nat, free: seq<nat>, live: seq<nat>, size: int, addr: nat)
    requires Ok(recs, firstFree, newest, stamp, free, live) && free != []
    ensures var k := free[0];
            && firstFree == k < |recs|
            && var recs' := recs[k := Info(stamp, size, addr, newest)];
               && Ok(recs', recs[k].next, k, stamp + 1, free[1..], [k] + live)
               && View(recs', [k] + live) == [Entry(stamp, size, addr)] + View(recs, live)
  {
    var k := free[0];
    LinkedTail(recs, firstFree, free);
    var recs' := recs[k := Info(stamp, size, addr, newest)];
    assert PlaceOk(|recs|, free, live, k) && Unlike(free, 0);
    LinkedFrame(recs, recs', recs[k].next, free[1..]);
    LinkedFrame(recs, recs', newest, live);
    LinkedCons(recs', newest, live, k);
    NoRepeatsCons(k, live);
    assert free == [k] + free[1..];
    forall i: nat ensures Unlike(free[1..], i) { assert Unlike(free, i + 1); }
    forall i: nat ensures PlaceOk(|recs'|, free[1..], [k] + live, i) {
      assert PlaceOk(|recs|, free, live, i);
      assert i in free <==> i == k || i in free[1..];
    }
    ViewFrame(recs, recs', live);
    assert View(recs', [k] + live) == [EntryOf(recs', k)] + View(recs', live);
  }

  /** The record at position i of the living ones becomes the first unused one. */
  lemma ForgetKeeps(recs: seq<Info>, firstFree: int, newest: int, stamp: nat, free: seq<nat>, live: seq<nat>, i: nat, recs': seq<Info>)
    requires Ok(recs, firstFree, newest, stamp, free, live) && i < |live| && live[i] < |recs| == |recs'|
    requires i > 0 ==> live[i - 1] < |recs| && live[i - 1] != live[i]
    requires var r := recs[live[i] := recs[live[i]].(addr := 0, next := firstFree)];
             recs' == if i == 0 then r else r[live[i - 1] := r[live[i - 1]].(next := recs[live[i]].next)]
    ensures Ok(recs', live[i], if i == 0 then recs[live[0]].next else newest, stamp, [live[i]] + free, Without(live, i))
    ensures View(recs', Without(live, i)) == View(recs, live)[..i] + View(recs, live)[i + 1..]
  {
    var k := live[i];
    WithoutMembers(live, i);
    assert PlaceOk(|recs|, free, live, k) && (i > 0 ==> PlaceOk(|recs|, free, live, live[i - 1]));
    Unlink(recs, recs', newest, live, i);
    LinkedFrame(recs, recs', firstFree, free);
    LinkedCons(recs', firstFree, free, k);
    NoRepeatsCons(k, free);
    forall j: nat ensures PlaceOk(|recs'|, [k] + free, Without(live, i), j) {
      assert PlaceOk(|recs|, free, live, j);
    }
    ViewFrame(recs, recs', Without(live, i));
    ViewWithout(recs, live, i);
  }

  class Tracker {
    var recs: seq<Info>         // allocations
    var firstFree: int
    var newest: int             // newest_allocation
    var stamp: nat              // current_seq
    ghost var free: seq<nat>
    ghost var live: seq<nat>

    ghost predicate Valid()
      reads this
    {
      Ok(recs, firstFree, newest, stamp, free, live)
    }

    /** The living allocations, newest first. */
    ghost function Tracked(): seq<Entry>
      reads this
    {
      View(recs, live)
    }

    constructor ()
      ensures Valid() && Tracked() == [] && recs == []
    {
      recs, firstFree, newest, stamp := [], -1, -1, 0;
      free, live := [], [];
    }

    /** Make room when no record is unused: twice the array, all new records unused. */
    method Grow()
      requires Valid() && free == []
      modifies this`recs, this`firstFree, this`free
      ensures Valid() && free != [] && Tracked() == old(Tracked())
      ensures |recs| == if |old(recs)| == 0 then 1024 else 2 * |old(recs)|
    {
      var n := |recs|;
      var size := if n == 0 then INITIAL else 2 * n;
      recs := recs + seq(size - n, _ => Info(0, 0, 0, -1));
      var i := n;
      while i < size
        invariant n <= i <= size == |recs|
        invariant forall k :: 0 <= k < n ==> recs[k] == old(recs)[k]
        invariant Linked(recs, firstFree, free) && NoRepeats(free)
        invariant forall k: nat :: k in free <==> n <= k < i
      {
        ghost var was := recs;
        recs := recs[i := recs[i].(addr := 0, next := firstFree)];
        LinkedFrame(was, recs, firstFree, free);
        LinkedCons(recs, firstFree, free, i);
        NoRepeatsCons(i, free);
        firstFree := i;
        free := [i] + free;
        i := i + 1;
      }
      GrowKeeps(old(recs), recs, newest, free, live);
    }

    /** remember(): the array grows only when every record is in use. */
    method Remember(addr: nat, size: int)
      requires Valid()
      modifies this
      ensures Valid() && Tracked() == [Entry(old(stamp), size, addr)] + old(Tracked()) && stamp == old(stamp) + 1
      ensures |recs| == if old(free) != [] then |old(recs)| else if old(recs) == [] then 1024 else 2 * |old(recs)|
    {
      if firstFree < 0 {
        Grow();
      }
      RememberKeeps(recs, firstFree, newest, stamp, free, live, size, addr);
      var index := firstFree;
      firstFree := recs[index].next;
      recs := recs[index := Info(stamp, size, addr, newest)];
      newest := index;
      stamp := stamp + 1;
      free, live := free[1..], [index] + live;
    }

    /** forget(): the newest record of the address, if there is one, becomes unused. */
    method Forget(addr: nat)
      requires Valid()
      modifies this
      ensures Valid() && stamp == old(stamp)
      ensures Tracked() == if addr == 0 then old(Tracked()) else Dropped(old(Tracked()), addr)
    {
      if addr == 0 {
        return;
      }
      // `slot` is the record whose `next` the walk reads, -1 for newest_allocation
      var slot, cur := -1, newest;
      ghost var i := 0;
      while cur >= 0
        invariant i <= |live| && cur == At(live, i) && slot == (if i == 0 then -1 else live[i - 1])
        invariant forall k :: 0 <= k < i ==> Tracked()[k].addr != addr
        decreases |live| - i
      {
        assert LinkAt(recs, live, i);
        if recs[cur].addr == addr {
          Unuse(slot, cur, addr, i);
          return;
        }
        slot := cur;
        cur := recs[cur].next;
        i := i + 1;
      }
      DroppedAt(Tracked(), addr, i);
    }

    /** The record found, at position i of the living ones, becomes the first unused one. */
    method Unuse(slot: int, cur: nat, addr: nat, ghost i: nat)
      requires Valid() && i < |live| && cur == live[i] && slot == (if i == 0 then -1 else live[i - 1])
      requires Tracked()[i].addr == addr && forall k :: 0 <= k < i ==> Tracked()[k].addr != addr
      modifies this`recs, this`firstFree, this`newest, this`free, this`live
      ensures Valid() && Tracked() == Dropped(old(Tracked()), addr)
    {
      DroppedAt(Tracked(), addr, i);
      assert LinkAt(recs, live, i);
      if i > 0 { assert LinkAt(recs, live, i - 1) && Unlike(live, i - 1); }
      var next := recs[cur].next;
      recs := recs[cur := recs[cur].(addr := 0, next := firstFree)];
      if slot < 0 {
        newest := next;
      } else {
        recs := recs[slot := recs[slot].(next := next)];
      }
      ForgetKeeps(old(recs), firstFree, old(newest), stamp, free, live, i, recs);
      firstFree := cur;
      free, live := [cur] + free, Without(live, i);
    }
  }

  lemma GrowKeeps(recs: seq<Info>, recs': seq<Info>, newest: int, free: seq<nat>, live: seq<nat>)
    requires Linked(recs, newest, live) && Partition(|recs|, [], live) && |recs| < |recs'| && NoRepeats(free)
    requires forall k :: 0 <= k < |recs| ==> recs'[k] == recs[k]
    requires forall k: nat :: k in free <==> |recs| <= k < |recs'|
    ensures Linked(recs', newest, live) && Partition(|recs'|, free, live) && View(recs', live) == View(recs, live) && free != []
  {
    LinkedFrame(recs, recs', newest, live);
    forall k: nat ensures PlaceOk(|recs'|, free, live, k) { assert PlaceOk(|recs|, [], live, k); }
    forall k | k in live ensures EntryOf(recs', k) == EntryOf(recs, k) { assert PlaceOk(|recs|, [], live, k); }
    ViewFrame(recs, recs', live);
    assert |recs| in free;
  }
}

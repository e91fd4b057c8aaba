/** What the other modules share: optional values, multiples, and lists without repetitions. */
module Wrappers {

  datatype Option<T> = None | Some(value: T)

  function Min(a: nat, b: nat): (r: nat) { if a <= b then a else b }

  function Max(a: nat, b: nat): (r: nat) { if a <= b then b else a }
}

module Multiples {

  lemma Times(m: nat, a: int, b: int)
    requires a <= b
    ensures m * a <= m * b
  {}

  lemma RestOf(m: nat, y: nat, r: nat)
    requires r < m
    ensures (m * y + r) % m == r
  {
    var q, r' := (m * y + r) / m, (m * y + r) % m;
    assert m * y + r == m * q + r';
    assert m * (y - q) == r' - r;
    if y - q >= 1 { Times(m, 1, y - q); } else if y - q <= -1 { Times(m, y - q, -1); }
  }

  lemma TimesMod(m: nat, y: nat)
    requires m > 0
    ensures (m * y) % m == 0
  {
    RestOf(m, y, 0);
  }
}

module Lists {

  /** The entry at position i does not come again. */
  predicate Unlike(list: seq<nat>, i: nat) {
    forall j :: i < j < |list| ==> list[i] != list[j]
  }

  ghost predicate NoRepeats(list: seq<nat>) {
    forall i: nat :: Unlike(list, i)
  }

  function Without(list: seq<nat>, k: nat): (r: seq<nat>)
    requires k < |list|
  {
    list[..k] + list[k + 1..]
  }

  function InsertAt(list: seq<nat>, k: nat, x: nat): (r: seq<nat>)
    requires k <= |list|
    ensures |r| == |list| + 1
  {
    list[..k] + [x] + list[k..]
  }

  lemma WithoutMembers(list: seq<nat>, k: nat)
    requires NoRepeats(list) && k < |list|
    ensures NoRepeats(Without(list, k))
    ensures forall x :: x in Without(list, k) <==> x in list && x != list[k]
  {
    var r := Without(list, k);
    assert forall i :: 0 <= i < |r| ==> r[i] == list[if i < k then i else i + 1];
    forall i: nat ensures Unlike(r, i) {
      assert Unlike(list, i) && Unlike(list, i + 1);
    }
    forall x | x in r ensures x in list && x != list[k] {
      var i :| 0 <= i < |r| && r[i] == x;
      assert Unlike(list, i) && Unlike(list, k);
    }
    forall x | x in list && x != list[k] ensures x in r {
      var i :| 0 <= i < |list| && list[i] == x;
      assert r[if i < k then i else i - 1] == x;
    }
  }

  /** Where the entries of the shortened list come from. */
  lemma WithoutAt(list: seq<nat>, k: nat, i: nat)
    requires NoRepeats(list) && k < |list| && i < |list| - 1
    ensures Without(list, k)[i] == list[if i < k then i else i + 1] != list[k]
  {
    assert Unlike(list, i) && Unlike(list, k);
  }

  lemma InsertMembers(list: seq<nat>, k: nat, x: nat)
    requires NoRepeats(list) && k <= |list| && x !in list
    ensures NoRepeats(InsertAt(list, k, x))
    ensures forall y :: y in InsertAt(list, k, x) <==> y == x || y in list
  {
    var r := InsertAt(list, k, x);
    assert forall i :: 0 <= i < |r| ==> r[i] == if i < k then list[i] else if i == k then x else list[i - 1];
    forall i: nat ensures Unlike(r, i) {
      assert Unlike(list, i) && (i > 0 ==> Unlike(list, i - 1));
    }
    forall y | y in list ensures y in r {
      var i :| 0 <= i < |list| && list[i] == y;
      assert r[if i < k then i else i + 1] == y;
    }
    assert r[k] == x;
  }

  lemma TailMembers(list: seq<nat>)
    requires NoRepeats(list) && list != []
    ensures NoRepeats(list[1..])
    ensures forall x :: x in list[1..] <==> x in list && x != list[0]
  {
    WithoutMembers(list, 0);
    assert Without(list, 0) == list[1..];
  }

  lemma AppendMembers(list: seq<nat>, x: nat)
    requires NoRepeats(list) && x !in list
    ensures NoRepeats(list + [x])
  {
    InsertMembers(list, |list|, x);
    assert InsertAt(list, |list|, x) == list + [x];
  }

  lemma SamePlace(list: seq<nat>, i: nat, j: nat)
    requires NoRepeats(list) && i < |list| && j < |list| && list[i] == list[j]
    ensures i == j
  {
    assert Unlike(list, i) && Unlike(list, j);
  }
}

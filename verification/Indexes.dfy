/** The eviction lists of the caches: a list of positions, newest in front, with its hash index. */
module Indexes {

  predicate Distinct(l: seq<nat>) {
    forall i, j :: 0 <= i < j < |l| ==> l[i] != l[j]
  }

  function Elements(l: seq<nat>): set<nat> {
    set x | x in l
  }

  /** The list without its occurrence of `x`. */
  function Drop(l: seq<nat>, x: nat): seq<nat> {
    if l == [] then [] else if l[0] == x then l[1..] else [l[0]] + Drop(l[1..], x)
  }

  lemma {:induction false} DropIs(l: seq<nat>, x: nat)
    requires Distinct(l)
    ensures Distinct(Drop(l, x))
    ensures Elements(Drop(l, x)) == Elements(l) - {x}
    ensures x in l ==> |Drop(l, x)| == |l| - 1
    ensures x !in l ==> Drop(l, x) == l
    decreases |l|
  {
    if l != [] {
      var rest := l[1..];
      assert l == [l[0]] + rest;
      assert Distinct(rest) && l[0] !in rest;
      DropIs(rest, x);
      if l[0] == x {
        assert Elements(l) == {x} + Elements(rest);
      } else {
        var d := Drop(rest, x);
        assert forall y :: y in d ==> y in Elements(d);
        assert l[0] !in d;
        assert Elements(l) == {l[0]} + Elements(rest);
        assert Elements([l[0]] + d) == {l[0]} + Elements(d);
      }
    }
  }

  /** The list is in the order of the given time stamps, latest first. */
  ghost predicate Falling(l: seq<nat>, time: nat -> nat) {
    forall i, j :: 0 <= i < j < |l| ==> time(l[i]) > time(l[j])
  }

  lemma {:induction false} FallingDrop(l: seq<nat>, x: nat, time: nat -> nat)
    requires Falling(l, time)
    ensures Falling(Drop(l, x), time)
    ensures forall y :: y in Drop(l, x) ==> y in l
    decreases |l|
  {
    if l != [] {
      var rest := l[1..];
      assert l == [l[0]] + rest;
      assert Falling(rest, time) by { assert forall i :: 0 <= i < |rest| ==> rest[i] == l[i + 1]; }
      FallingDrop(rest, x, time);
      assert forall y :: y in rest ==> time(l[0]) > time(y);
    }
  }

  lemma {:induction false} FallingPush(l: seq<nat>, x: nat, time: nat -> nat)
    requires Falling(l, time) && forall y :: y in l ==> time(y) < time(x)
    ensures Falling([x] + l, time)
  {
    assert forall i :: 0 < i <= |l| ==> ([x] + l)[i] == l[i - 1];
  }

  lemma {:induction false} FallingSame(l: seq<nat>, f: nat -> nat, g: nat -> nat)
    requires Falling(l, f) && forall y :: y in l ==> f(y) == g(y)
    ensures Falling(l, g)
  {
  }

  /** `keys` are the keys of the hash map that finds a position's place in the list. */
  datatype Index = Index(list: seq<nat>, keys: set<nat>) {

    /** The index has exactly the positions of the list, each once. */
    ghost predicate Ok() {
      Distinct(list) && keys == Elements(list) && |keys| == |list|
    }

    function PushFront(x: nat): (r: Index)
      requires Ok() && x !in keys
      ensures r.Ok() && r.keys == keys + {x} && r.Size() == Size() + 1
    {
      var r := Index([x] + list, keys + {x});
      assert r.Ok() by {
        assert forall i :: 0 < i < |r.list| ==> r.list[i] == list[i - 1];
        assert forall y :: y in list ==> y in keys;
        assert Elements(r.list) == r.keys;
      }
      r
    }

    /** `back` and `pop_back`, erasing the position from the index. */
    function PopBack(): (r: Index)
      requires Ok() && list != []
      ensures r.Ok() && r.Size() == Size() - 1 && list[|list| - 1] in keys && r.keys == keys - {list[|list| - 1]}
    {
      var n := |list| - 1;
      var r := Index(list[..n], keys - {list[n]});
      assert r.Ok() by {
        assert list == r.list + [list[n]];
        assert list[n] !in r.list;
        assert Elements(r.list) == r.keys;
      }
      r
    }

    /** The position's entry spliced out of the list. */
    function Remove(x: nat): (r: Index)
      requires Ok() && x in keys
      ensures r.Ok() && r.keys == keys - {x} && r.Size() == Size() - 1
    {
      DropIs(list, x);
      Index(Drop(list, x), keys - {x})
    }

    /** The position's entry spliced to the front. */
    function ToFront(x: nat): (r: Index)
      requires Ok() && x in keys
      ensures r.Ok() && r.keys == keys && r.list[0] == x
    {
      Remove(x).PushFront(x)
    }

    function Size(): (n: nat) {
      |keys|
    }
  }

  const EMPTY := Index([], {})
}

/** The LRU cache (src/eviction/lru.cc under src/libzlog/cache.cc). */
module Lrus {
  import opened Common
  import opened Indexes

  /** The eviction list with its index, and the owner's map. */
  datatype State = State(order: Index, cached: map<nat, Bytes>) {

    ghost predicate Valid(c: nat) {
      && order.Ok() && order.Size() <= c
      && (forall x :: x in cached <==> x in order.keys)
    }
  }

  const BEGIN := State(EMPTY, map[])

  /** LRU::cache_put_miss, with the owner's insertion. */
  function PutMiss(c: nat, s: State, pos: nat, data: Bytes): State
    requires s.Valid(c) && c > 0 && pos !in s.cached
  {
    var order := s.order.PushFront(pos);
    if order.Size() > c then
      var x := order.list[|order.list| - 1];
      State(order.PopBack(), (s.cached - {x})[pos := data])
    else State(order, s.cached[pos := data])
  }

  /** Cache::put. */
  function Put(c: nat, s: State, pos: nat, data: Bytes): (bool, State)
    requires s.Valid(c)
  {
    if c > 0 && |data| < c && pos !in s.cached then (true, PutMiss(c, s, pos, data)) else (false, s)
  }

  /** Cache::get with LRU::cache_get_hit. */
  function Get(c: nat, s: State, pos: nat): (Option<Bytes>, State)
    requires s.Valid(c)
  {
    if pos in s.cached then (Some(s.cached[pos]), s.(order := s.order.ToFront(pos))) else (None, s)
  }

  /** The position evicted is not the one inserted: the list has at least two. */
  lemma {:induction false} LastIsOld(ix: Index, pos: nat)
    requires ix.Ok() && pos !in ix.keys && ix.Size() > 0
    ensures var order := ix.PushFront(pos);
            order.list != [] && order.list[|order.list| - 1] in ix.keys && order.list[|order.list| - 1] != pos
  {
    assert ix.list[|ix.list| - 1] in ix.keys;
  }

  lemma {:induction false} PutKeeps(c: nat, s: State, pos: nat, data: Bytes)
    requires s.Valid(c)
    ensures Put(c, s, pos, data).1.Valid(c)
  {
    hide Index.Ok, Index.PushFront, Index.PopBack, Index.Size;
    if c > 0 && |data| < c && pos !in s.cached && s.order.Size() > 0 {
      LastIsOld(s.order, pos);
    }
  }

  lemma {:induction false} GetKeeps(c: nat, s: State, pos: nat)
    requires s.Valid(c)
    ensures Get(c, s, pos).1.Valid(c)
  {
    hide Distinct, Elements;
  }

  datatype Call = PutCall(pos: nat, data: Bytes) | GetCall(pos: nat)

  function After(c: nat, s: State, call: Call): (r: State)
    requires s.Valid(c)
    ensures r.Valid(c)
  {
    match call
    case PutCall(pos, data) => PutKeeps(c, s, pos, data); Put(c, s, pos, data).1
    case GetCall(pos) => GetKeeps(c, s, pos); Get(c, s, pos).1
  }

  function Reached(c: nat, calls: seq<Call>): (s: State)
    ensures s.Valid(c)
  {
    if calls == [] then BEGIN else After(c, Reached(c, calls[..|calls| - 1]), calls[|calls| - 1])
  }

  // ----- exactness -------------------------------------------------------------------------------

  /** Where the `c` positions used last are cached, the call uses its position: a put that is new and fits, or a hit. */
  predicate Uses(c: nat, recent: seq<nat>, call: Call) {
    match call
    case PutCall(pos, data) => c > 0 && |data| < c && pos !in Take(c, recent)
    case GetCall(pos) => pos in Take(c, recent)
  }

  /** All positions ever used, most recently used first, each once. This is about the calls alone. */
  function Recency(c: nat, calls: seq<Call>): seq<nat> {
    if calls == [] then []
    else
      var before, last := Recency(c, calls[..|calls| - 1]), calls[|calls| - 1];
      if Uses(c, before, last) then [last.pos] + Drop(before, last.pos) else before
  }

  function Take(n: nat, l: seq<nat>): seq<nat> {
    if |l| <= n then l else l[..n]
  }

  /** Dropping an element of the first `n` commutes with taking the first `n`. */
  lemma {:induction false} DropInside(n: nat, l: seq<nat>, x: nat)
    requires n > 0 && x in Take(n, l)
    ensures Take(n - 1, Drop(l, x)) == Drop(Take(n, l), x)
    decreases |l|
  {
    var t := Take(n, l);
    assert t[0] == l[0] && t[1..] == Take(n - 1, l[1..]);
    if l[0] != x {
      assert x in t[1..];
      assert n - 1 > 0;
      DropInside(n - 1, l[1..], x);
      assert Drop(l, x) == [l[0]] + Drop(l[1..], x);
      assert Take(n - 1, Drop(l, x)) == [l[0]] + Take(n - 2, Drop(l[1..], x));
    }
  }

  /** Dropping an element beyond the first `n` does not change them. */
  lemma {:induction false} DropBeyond(n: nat, l: seq<nat>, x: nat)
    requires x !in Take(n, l)
    ensures Take(n, Drop(l, x)) == Take(n, l)
    decreases |l|
  {
    if l != [] && n > 0 {
      var t := Take(n, l);
      assert t[0] == l[0] && t[1..] == Take(n - 1, l[1..]);
      assert l[0] != x;
      DropBeyond(n - 1, l[1..], x);
      assert Drop(l, x) == [l[0]] + Drop(l[1..], x);
      assert Take(n, Drop(l, x)) == [l[0]] + Take(n - 1, Drop(l[1..], x));
    } else {
      DropNotLonger(l, x);
    }
  }

  lemma {:induction false} DropNotLonger(l: seq<nat>, x: nat)
    ensures |Drop(l, x)| <= |l|
    decreases |l|
  {
    if l != [] { DropNotLonger(l[1..], x); }
  }

  lemma {:induction false} TakeCons(n: nat, x: nat, l: seq<nat>)
    requires n > 0
    ensures Take(n, [x] + l) == [x] + Take(n - 1, l)
  {
  }

  /** A put of a position that is not cached. */
  lemma {:induction false} PutExact(c: nat, s: State, pos: nat, data: Bytes, all: seq<nat>)
    requires s.Valid(c) && c > 0 && pos !in s.cached && s.order.list == Take(c, all)
    ensures PutMiss(c, s, pos, data).order.list == Take(c, [pos] + Drop(all, pos))
  {
    assert pos !in s.order.list by { assert forall x :: x in s.order.list ==> x in s.order.keys; }
    DropBeyond(c, all, pos);
    TakeCons(c, pos, Drop(all, pos));
    var l := s.order.list;
    assert Take(c - 1, Drop(all, pos)) == Take(c - 1, l) by { TakeLess(c - 1, c, Drop(all, pos)); }
    hide Drop, Distinct, Elements;
    if |l| == c {
      assert ([pos] + l)[..c] == [pos] + l[..c - 1];
    }
  }

  lemma {:induction false} TakeLess(m: nat, n: nat, l: seq<nat>)
    requires m <= n
    ensures Take(m, l) == Take(m, Take(n, l))
  {
  }

  lemma {:induction false} HitExact(c: nat, s: State, pos: nat, all: seq<nat>)
    requires s.Valid(c) && pos in s.cached && s.order.list == Take(c, all)
    ensures Get(c, s, pos).1.order.list == Take(c, [pos] + Drop(all, pos))
  {
    assert pos in s.order.list;
    assert c > 0;
    DropInside(c, all, pos);
    TakeCons(c, pos, Drop(all, pos));
  }

  /**
    LRU exactness: after any calls the cache holds the most recently used positions, as many as fit,
    and its list has them in order of recency.
    */
  lemma {:induction false} LruExact(c: nat, calls: seq<Call>)
    ensures Reached(c, calls).order.list == Take(c, Recency(c, calls))
    ensures forall x :: x in Reached(c, calls).cached <==> x in Take(c, Recency(c, calls))
    decreases |calls|
  {
    hide PutMiss, Take, Drop;
    if calls == [] {
      NothingTaken(c);
    } else {
      var n := |calls| - 1;
      LruExact(c, calls[..n]);
      var s, all := Reached(c, calls[..n]), Recency(c, calls[..n]);
      if Uses(c, all, calls[n]) {
        match calls[n] {
          case PutCall(pos, data) => PutExact(c, s, pos, data, all);
          case GetCall(pos) => HitExact(c, s, pos, all);
        }
      }
    }
    var r := Reached(c, calls);
    assert forall x :: x in r.order.keys <==> x in r.order.list;
  }

  lemma {:induction false} NothingTaken(c: nat)
    ensures Take(c, []) == []
  {
  }

  /** The data of the last put of `pos` that was to be accepted. */
  function LastPut(c: nat, calls: seq<Call>, pos: nat): Option<Bytes> {
    if calls == [] then None
    else
      var rest, last := calls[..|calls| - 1], calls[|calls| - 1];
      if last.PutCall? && last.pos == pos && Uses(c, Recency(c, rest), last) then Some(last.data)
      else LastPut(c, rest, pos)
  }

  /** A call changes no cached data: it may add the data of a put, and may evict. */
  lemma {:induction false} DataStay(c: nat, s: State, call: Call, x: nat)
    requires s.Valid(c) && x in After(c, s, call).cached
    ensures x in s.cached || (call.PutCall? && call.pos == x && c > 0 && |call.data| < c)
    ensures After(c, s, call).cached[x] == if x in s.cached then s.cached[x] else call.data
  {
    hide Index.Ok, Index.PushFront, Index.PopBack, Index.Size, Index.ToFront;
  }

  /** A hit returns the bytes of the put that inserted the position. */
  lemma {:induction false} HitReturnsInserted(c: nat, calls: seq<Call>, pos: nat)
    ensures var s := Reached(c, calls);
            pos in s.cached ==> Get(c, s, pos).0 == LastPut(c, calls, pos) == Some(s.cached[pos])
    decreases |calls|
  {
    hide State.Valid, Take, Recency, After;
    if calls != [] && pos in Reached(c, calls).cached {
      var rest, last := calls[..|calls| - 1], calls[|calls| - 1];
      HitReturnsInserted(c, rest, pos);
      LruExact(c, rest);
      DataStay(c, Reached(c, rest), last, pos);
    }
  }

  /**
    What the cache answers, from the calls alone. A put is accepted exactly if the cache has a capacity,
    the data are shorter than it and the position is not among the `c` used last; a position that was put
    with such data is cached afterwards. A get finds exactly these positions, with the data put last.
    */
  lemma {:induction false} LruReplies(c: nat, calls: seq<Call>, pos: nat, data: Bytes)
    ensures var s, recent := Reached(c, calls), Recency(c, calls);
            && (Put(c, s, pos, data).0 <==> c > 0 && |data| < c && pos !in Take(c, recent))
            && (c > 0 && |data| < c ==> pos in After(c, s, PutCall(pos, data)).cached)
            && Get(c, s, pos).0 == (if pos in Take(c, recent) then LastPut(c, calls, pos) else None)
            && (pos in Take(c, recent) ==> LastPut(c, calls, pos).Some?)
  {
    hide Distinct, Elements, Index.Ok, Take, Recency, LastPut, Reached;
    LruExact(c, calls);
    HitReturnsInserted(c, calls, pos);
  }

  // ----- the code --------------------------------------------------------------------------------

  /** Cache with an LRU policy: the fields that put and get change. */
  class LruCache {
    const c: nat
    var order: Index
    var cacheMap: map<nat, Bytes>

    function Now(): State
      reads this
    {
      State(order, cacheMap)
    }

    ghost predicate Valid()
      reads this
    {
      Now().Valid(c)
    }

    constructor (size: nat)
      ensures Valid() && c == size && Now() == BEGIN
    {
      c, order, cacheMap := size, EMPTY, map[];
    }

    method PutData(pos: nat, data: Bytes) returns (ok: bool)
      requires Valid()
      modifies this
      ensures Valid() && (ok, Now()) == Put(c, old(Now()), pos, data)
      ensures ok <==> c > 0 && |data| < c && pos !in old(cacheMap)
      ensures c > 0 && |data| < c ==> pos in cacheMap && (ok ==> cacheMap[pos] == data)
    {
      hide Index.Ok, Index.PushFront, Index.PopBack, Index.Size;
      PutKeeps(c, Now(), pos, data);
      ok := c > 0 && |data| < c && pos !in cacheMap;
      if ok {
        if order.Size() > 0 { LastIsOld(order, pos); }
        order := order.PushFront(pos);
        if order.Size() > c {
          var r := order.list[|order.list| - 1];
          cacheMap := cacheMap - {r};
          order := order.PopBack();
        }
        cacheMap := cacheMap[pos := data];
      }
    }

    method GetData(pos: nat) returns (data: Option<Bytes>)
      requires Valid()
      modifies this
      ensures Valid() && (data, Now()) == Get(c, old(Now()), pos)
      ensures data == if pos in cacheMap then Some(cacheMap[pos]) else None
      ensures cacheMap == old(cacheMap)
    {
      GetKeeps(c, Now(), pos);
      data := None;
      if pos in cacheMap {
        data := Some(cacheMap[pos]);
        order := order.ToFront(pos);
      }
    }
  }
}

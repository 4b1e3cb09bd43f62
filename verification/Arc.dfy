/** The ARC cache (src/eviction/arc.cc under src/libzlog/cache.cc). */
module Arcs {
  import opened Common
  import opened Indexes

  /**
    The lists T1, T2 of cached and B1, B2 of evicted positions, the target size `p` of T1, and the
    owner's map. The program leaves `p` without an initial value: it may start as any number.
    */
  datatype State = State(t1: Index, t2: Index, b1: Index, b2: Index, p: real, cached: map<nat, Bytes>) {

    function Total(): nat {
      t1.Size() + t2.Size() + b1.Size() + b2.Size()
    }

    /** The hash maps index the lists, and no position is in two of them. */
    ghost predicate Separate() {
      && t1.Ok() && t2.Ok() && b1.Ok() && b2.Ok()
      && (forall x :: x in t1.keys ==> x !in t2.keys && x !in b1.keys && x !in b2.keys)
      && (forall x :: x in t2.keys ==> x !in b1.keys && x !in b2.keys)
      && (forall x :: x in b1.keys ==> x !in b2.keys)
    }

    /** The bounds of ARC for capacity `c`. */
    ghost predicate Bounded(c: nat) {
      && t1.Size() + b1.Size() <= c
      && t1.Size() + t2.Size() <= c
      && Total() <= 2 * c
      && (b1.Size() + b2.Size() > 0 ==> t1.Size() + t2.Size() == c)
    }

    /** The owner's map holds exactly the positions of T1 and T2. */
    ghost predicate Mapped() {
      forall x :: x in cached <==> x in t1.keys || x in t2.keys
    }

    ghost predicate Valid(c: nat) {
      Separate() && Bounded(c) && Mapped()
    }

    /** The position is in one of the lists. */
    predicate Known(x: nat) {
      x in t1.keys || x in t2.keys || x in b1.keys || x in b2.keys
    }
  }

  function Begin(p: real): State {
    State(EMPTY, EMPTY, EMPTY, EMPTY, p, map[])
  }

  function Delta1(s: State): real
    requires s.b1.Size() > 0
  {
    if s.b1.Size() >= s.b2.Size() then 1.0 else s.b2.Size() as real / s.b1.Size() as real
  }

  function Delta2(s: State): real
    requires s.b2.Size() > 0
  {
    if s.b2.Size() >= s.b1.Size() then 1.0 else s.b1.Size() as real / s.b2.Size() as real
  }

  /** `replace` evicts from T1 rather than from T2. */
  predicate FromT1(s: State, pos: nat) {
    s.t1.Size() > 0 && (s.t1.Size() as real > s.p || (pos in s.b2.keys && s.t1.Size() as real <= s.p))
  }

  /** ARC::replace. Only called when the list it takes the last element of is not empty. */
  function Replace(s: State, pos: nat): State
    requires s.Separate() && (FromT1(s, pos) || s.t2.Size() > 0)
  {
    if FromT1(s, pos) then
      var x := s.t1.list[|s.t1.list| - 1];
      assert x in s.t1.keys;
      s.(t1 := s.t1.PopBack(), b1 := s.b1.PushFront(x), cached := s.cached - {x})
    else
      var x := s.t2.list[|s.t2.list| - 1];
      assert x in s.t2.keys;
      s.(t2 := s.t2.PopBack(), b2 := s.b2.PushFront(x), cached := s.cached - {x})
  }

  lemma {:induction false} NotEmpty(ix: Index)
    requires ix.Ok() && ix.Size() > 0
    ensures ix.list != [] && ix.list[|ix.list| - 1] in ix.keys
  {
  }

  lemma {:induction false} Inhabited(ix: Index, x: nat)
    requires ix.Ok() && x in ix.keys
    ensures ix.Size() > 0
  {
  }

  /** What `replace` does to the sizes and to the owner's map, from a state that may lack room. */
  ghost predicate OneEvicted(s: State, r: State) {
    && r.Separate() && r.Mapped()
    && r.t1.Size() + r.t2.Size() == s.t1.Size() + s.t2.Size() - 1
    && r.Total() == s.Total()
    && r.t1.Size() + r.b1.Size() == s.t1.Size() + s.b1.Size()
    && (forall x :: x in s.b1.keys ==> x in r.b1.keys)
    && (forall x :: x in s.b2.keys ==> x in r.b2.keys)
    && (forall x :: r.Known(x) ==> s.Known(x))
  }

  lemma {:induction false} Replaced(s: State, pos: nat)
    requires s.Separate() && s.Mapped() && (FromT1(s, pos) || s.t2.Size() > 0)
    ensures OneEvicted(s, Replace(s, pos))
  {
    hide Index.Ok, Index.PopBack, Index.PushFront, Index.Size;
    if FromT1(s, pos) { NotEmpty(s.t1); } else { NotEmpty(s.t2); }
  }

  /** A position that was evicted from T1 comes back. */
  function HitB1(c: nat, s: State, pos: nat): State
    requires c > 0 && s.Valid(c) && pos in s.b1.keys
  {
    var d := Delta1(s);
    var p := if s.p + d < c as real then s.p + d else c as real;
    var r := Replace(s.(p := p), pos);
    Replaced(s.(p := p), pos);
    r.(b1 := r.b1.Remove(pos), t2 := r.t2.PushFront(pos))
  }

  /** A position that was evicted from T2 comes back. */
  function HitB2(c: nat, s: State, pos: nat): State
    requires c > 0 && s.Valid(c) && pos in s.b2.keys
  {
    var d := Delta2(s);
    var p := if s.p - d > 0.0 then s.p - d else 0.0;
    var r := Replace(s.(p := p), pos);
    Replaced(s.(p := p), pos);
    r.(b2 := r.b2.Remove(pos), t2 := r.t2.PushFront(pos))
  }

  /** Room for a position that is in no list. */
  function MakeRoom(c: nat, s: State, pos: nat): State
    requires c > 0 && s.Valid(c)
  {
    if s.t1.Size() + s.b1.Size() >= c then
      if s.t1.Size() < c then Replace(s.(b1 := s.b1.PopBack()), pos)
      else
        var x := s.t1.list[|s.t1.list| - 1];
        s.(t1 := s.t1.PopBack(), cached := s.cached - {x})
    else if s.Total() >= c then
      Replace(if s.Total() >= 2 * c then s.(b2 := s.b2.PopBack()) else s, pos)
    else s
  }

  /** There is room in T1 and in the lists for one more position. */
  ghost predicate Roomy(c: nat, s: State) {
    && s.Separate() && s.Mapped()
    && s.t1.Size() + s.b1.Size() < c && s.t1.Size() + s.t2.Size() < c && s.Total() < 2 * c
    && (s.b1.Size() + s.b2.Size() > 0 ==> s.t1.Size() + s.t2.Size() == c - 1)
  }

  lemma {:induction false} RoomMade(c: nat, s: State, pos: nat)
    requires c > 0 && s.Valid(c)
    ensures Roomy(c, MakeRoom(c, s, pos))
    ensures forall x :: MakeRoom(c, s, pos).Known(x) ==> s.Known(x)
  {
    hide Index.Ok, Index.PopBack, Index.PushFront, Index.Size, Replace;
    if s.t1.Size() + s.b1.Size() >= c {
      if s.t1.Size() < c {
        NotEmpty(s.b1);
        Replaced(s.(b1 := s.b1.PopBack()), pos);
      } else {
        NotEmpty(s.t1);
      }
    } else if s.Total() >= c {
      if s.Total() >= 2 * c {
        NotEmpty(s.b2);
        Replaced(s.(b2 := s.b2.PopBack()), pos);
      } else {
        Replaced(s, pos);
      }
    }
  }

  /** ARC::cache_put_miss. */
  function PutMiss(c: nat, s: State, pos: nat): State
    requires c > 0 && s.Valid(c) && pos !in s.cached
  {
    if pos in s.b1.keys then HitB1(c, s, pos)
    else if pos in s.b2.keys then HitB2(c, s, pos)
    else
      var r := MakeRoom(c, s, pos);
      RoomMade(c, s, pos);
      r.(t1 := r.t1.PushFront(pos))
  }

  /** ARC::cache_get_hit. */
  function GetHit(c: nat, s: State, pos: nat): State
    requires s.Valid(c) && pos in s.cached
  {
    if pos in s.t1.keys then s.(t1 := s.t1.Remove(pos), t2 := s.t2.PushFront(pos))
    else s.(t2 := s.t2.ToFront(pos))
  }

  /** Cache::put: refused for a cache without capacity, for data that are too long, and for a cached position. */
  function Put(c: nat, s: State, pos: nat, data: Bytes): (bool, State)
    requires s.Valid(c)
  {
    if c > 0 && |data| < c && pos !in s.cached then
      var r := PutMiss(c, s, pos);
      (true, r.(cached := r.cached[pos := data]))
    else (false, s)
  }

  /** Cache::get. */
  function Get(c: nat, s: State, pos: nat): (Option<Bytes>, State)
    requires s.Valid(c)
  {
    if pos in s.cached then (Some(s.cached[pos]), GetHit(c, s, pos)) else (None, s)
  }

  // ----- the invariant ---------------------------------------------------------------------------

  /** `replace` has something to take in each of the two cases, whatever `p` is. */
  lemma {:induction false} HitsKeep(c: nat, s: State, pos: nat, data: Bytes)
    requires c > 0 && s.Valid(c) && (pos in s.b1.keys || pos in s.b2.keys)
    ensures pos in s.b1.keys ==> var r := HitB1(c, s, pos); r.(cached := r.cached[pos := data]).Valid(c)
    ensures pos in s.b2.keys ==> var r := HitB2(c, s, pos); r.(cached := r.cached[pos := data]).Valid(c)
  {
    hide Index.Ok, Index.PopBack, Index.PushFront, Index.Remove, Index.Size, Replace;
    if pos in s.b1.keys {
      Inhabited(s.b1, pos);
      var d := Delta1(s);
      Replaced(s.(p := if s.p + d < c as real then s.p + d else c as real), pos);
    } else {
      Inhabited(s.b2, pos);
      var d := Delta2(s);
      Replaced(s.(p := if s.p - d > 0.0 then s.p - d else 0.0), pos);
    }
  }

  lemma {:induction false} PutKeeps(c: nat, s: State, pos: nat, data: Bytes)
    requires s.Valid(c)
    ensures Put(c, s, pos, data).1.Valid(c)
  {
    hide Index.Ok, Index.PopBack, Index.PushFront, Index.Remove, Index.Size, Replace, MakeRoom, HitB1, HitB2;
    if c > 0 && |data| < c && pos !in s.cached {
      if pos in s.b1.keys || pos in s.b2.keys {
        HitsKeep(c, s, pos, data);
      } else {
        RoomMade(c, s, pos);
        assert !MakeRoom(c, s, pos).Known(pos);
      }
    }
  }

  lemma {:induction false} GetKeeps(c: nat, s: State, pos: nat)
    requires s.Valid(c)
    ensures Get(c, s, pos).1.Valid(c)
    ensures Get(c, s, pos).0 == if pos in s.cached then Some(s.cached[pos]) else None
    ensures Get(c, s, pos).1.cached == s.cached
  {
    hide Index.Ok, Index.PushFront, Index.Remove, Index.Size, Index.ToFront;
    if pos in s.cached && pos !in s.t1.keys {
      assert s.t2.ToFront(pos).Size() == s.t2.Size() by { SameSize(s.t2, pos); }
    }
  }

  lemma {:induction false} SameSize(ix: Index, x: nat)
    requires ix.Ok() && x in ix.keys
    ensures ix.ToFront(x).Size() == ix.Size()
  {
  }

  // ----- runs ------------------------------------------------------------------------------------

  datatype Call = PutCall(pos: nat, data: Bytes) | GetCall(pos: nat)

  /** The state after a sequence of calls, from any initial value of `p`. */
  ghost function Reached(c: nat, p: real, calls: seq<Call>): (s: State)
    ensures s.Valid(c)
  {
    if calls == [] then Begin(p)
    else
      var s := Reached(c, p, calls[..|calls| - 1]);
      match calls[|calls| - 1]
      case PutCall(pos, data) => PutKeeps(c, s, pos, data); Put(c, s, pos, data).1
      case GetCall(pos) => GetKeeps(c, s, pos); Get(c, s, pos).1
  }

  /** The call uses its position: a put of one that is not cached, with data that fit, or a hit. */
  ghost predicate Uses(c: nat, s: State, call: Call) {
    match call
    case PutCall(pos, data) => c > 0 && |data| < c && pos !in s.cached
    case GetCall(pos) => pos in s.cached
  }

  /** The data of the last put of `pos` that was accepted. */
  ghost function LastPut(c: nat, p: real, calls: seq<Call>, pos: nat): Option<Bytes> {
    if calls == [] then None
    else
      var rest, last := calls[..|calls| - 1], calls[|calls| - 1];
      if last.PutCall? && last.pos == pos && Uses(c, Reached(c, p, rest), last) then Some(last.data)
      else LastPut(c, p, rest, pos)
  }

  /** The invariants of ARC, in every state of every run and for every initial `p`. */
  lemma {:induction false} ArcInvariants(c: nat, p: real, calls: seq<Call>)
    ensures var s := Reached(c, p, calls);
            && Distinct(s.t1.list + s.t2.list + s.b1.list + s.b2.list)
            && |s.t1.list| + |s.b1.list| <= c
            && |s.t1.list| + |s.t2.list| <= c
            && |s.t1.list| + |s.t2.list| + |s.b1.list| + |s.b2.list| <= 2 * c
            && (|s.b1.list| + |s.b2.list| > 0 ==> |s.t1.list| + |s.t2.list| == c)
            && (forall x :: x in s.cached <==> x in s.t1.list || x in s.t2.list)
  {
    var s := Reached(c, p, calls);
    hide Reached;
    AllDistinct(s);
    SizeIsLength(s.t1);
    SizeIsLength(s.t2);
    SizeIsLength(s.b1);
    SizeIsLength(s.b2);
  }

  lemma {:induction false} SizeIsLength(ix: Index)
    requires ix.Ok()
    ensures ix.Size() == |ix.list| && forall x :: x in ix.keys <==> x in ix.list
  {
  }

  lemma {:induction false} Joined(a: seq<nat>, b: seq<nat>)
    requires Distinct(a) && Distinct(b) && forall x :: x in a ==> x !in b
    ensures Distinct(a + b)
  {
    var l := a + b;
    forall i, j | 0 <= i < j < |l| ensures l[i] != l[j] {
      assert i < |a| ==> l[i] in a;
      assert j >= |a| ==> l[j] in b;
    }
  }

  lemma {:induction false} AllDistinct(s: State)
    requires s.Separate()
    ensures Distinct(s.t1.list + s.t2.list + s.b1.list + s.b2.list)
  {
    SizeIsLength(s.t1);
    SizeIsLength(s.t2);
    SizeIsLength(s.b1);
    SizeIsLength(s.b2);
    Joined(s.t1.list, s.t2.list);
    Joined(s.t1.list + s.t2.list, s.b1.list);
    Joined(s.t1.list + s.t2.list + s.b1.list, s.b2.list);
  }

  /** The owner's map loses exactly one position. */
  ghost predicate LosesOne(before: map<nat, Bytes>, after: map<nat, Bytes>) {
    exists x :: x in before && after == before - {x}
  }

  lemma {:induction false} ReplaceLosesOne(s: State, pos: nat)
    requires s.Separate() && s.Mapped() && (FromT1(s, pos) || s.t2.Size() > 0)
    ensures LosesOne(s.cached, Replace(s, pos).cached)
  {
    hide Index.Ok, Index.PopBack, Index.PushFront, Index.Size;
    if FromT1(s, pos) { NotEmpty(s.t1); } else { NotEmpty(s.t2); }
  }

  lemma {:induction false} RoomLosesOne(c: nat, s: State, pos: nat)
    requires c > 0 && s.Valid(c)
    ensures var r := MakeRoom(c, s, pos);
            r.cached == s.cached || (s.t1.Size() + s.t2.Size() == c && LosesOne(s.cached, r.cached))
  {
    hide Index.Ok, Index.PopBack, Index.PushFront, Index.Size, Replace;
    if s.t1.Size() + s.b1.Size() >= c {
      if s.t1.Size() < c {
        NotEmpty(s.b1);
        ReplaceLosesOne(s.(b1 := s.b1.PopBack()), pos);
      } else {
        NotEmpty(s.t1);
      }
    } else if s.Total() >= c {
      if s.Total() >= 2 * c {
        NotEmpty(s.b2);
        ReplaceLosesOne(s.(b2 := s.b2.PopBack()), pos);
      } else {
        ReplaceLosesOne(s, pos);
      }
    }
  }

  lemma {:induction false} HitsLoseOne(c: nat, s: State, pos: nat)
    requires c > 0 && s.Valid(c) && (pos in s.b1.keys || pos in s.b2.keys)
    ensures s.t1.Size() + s.t2.Size() == c
    ensures pos in s.b1.keys ==> LosesOne(s.cached, HitB1(c, s, pos).cached)
    ensures pos in s.b2.keys ==> LosesOne(s.cached, HitB2(c, s, pos).cached)
  {
    hide Index.Ok, Index.PopBack, Index.PushFront, Index.Remove, Index.Size, Replace, LosesOne;
    if pos in s.b1.keys {
      Inhabited(s.b1, pos);
      var d := Delta1(s);
      ReplaceLosesOne(s.(p := if s.p + d < c as real then s.p + d else c as real), pos);
    } else {
      Inhabited(s.b2, pos);
      var d := Delta2(s);
      ReplaceLosesOne(s.(p := if s.p - d > 0.0 then s.p - d else 0.0), pos);
    }
  }

  /**
    A put is accepted exactly if the cache has a capacity, the data are shorter than it and the position is
    not cached. In the owner's map it adds its position and loses at most one other, when full; a put that
    is refused changes nothing.
    */
  lemma {:induction false} PutEvictsAtMostOne(c: nat, s: State, pos: nat, data: Bytes)
    requires s.Valid(c)
    ensures var (ok, s') := Put(c, s, pos, data);
            && (ok <==> c > 0 && |data| < c && pos !in s.cached)
            && (!ok ==> s' == s)
            && (c > 0 && |data| < c ==> pos in s'.cached)
            && (ok ==>
                  && pos in s'.cached && s'.cached[pos] == data
                  && (s'.cached == s.cached[pos := data]
                      || (s.t1.Size() + s.t2.Size() == c && exists x :: x in s.cached && s'.cached == (s.cached - {x})[pos := data])))
  {
    hide State.Valid, HitB1, HitB2, MakeRoom, Index.PushFront, Index.Size;
    if c > 0 && |data| < c && pos !in s.cached {
      var r := PutMiss(c, s, pos);
      if pos in s.b1.keys || pos in s.b2.keys {
        HitsLoseOne(c, s, pos);
      } else {
        RoomLosesOne(c, s, pos);
      }
      assert r.cached == s.cached || LosesOne(s.cached, r.cached);
      if r.cached != s.cached {
        var x :| x in s.cached && r.cached == s.cached - {x};
        assert Put(c, s, pos, data).1.cached == (s.cached - {x})[pos := data];
      }
    }
  }

  // ----- adaptation and eviction -----------------------------------------------------------------

  function Larger(x: real, y: real): real { if x >= y then x else y }

  function Smaller(x: real, y: real): real { if x <= y then x else y }

  /** The target size of T1 after a miss: it grows when T1 evicted the position too early, and shrinks for T2. */
  function Target(c: nat, s: State, pos: nat): real
    requires s.Separate()
  {
    if pos in s.b1.keys then
      Inhabited(s.b1, pos);
      Smaller(s.p + Larger(1.0, s.b2.Size() as real / s.b1.Size() as real), c as real)
    else if pos in s.b2.keys then
      Inhabited(s.b2, pos);
      Larger(s.p - Larger(1.0, s.b1.Size() as real / s.b2.Size() as real), 0.0)
    else s.p
  }

  /** The program's two cases are a maximum. */
  lemma {:induction false} RatioIsLarger(x: nat, y: nat)
    requires y > 0
    ensures Larger(1.0, x as real / y as real) == if y >= x then 1.0 else x as real / y as real
  {
    var q := x as real / y as real;
    assert q * y as real == x as real;
    if q > 1.0 { assert q * y as real > 1.0 * y as real; }
    if q < 1.0 { assert q * y as real < 1.0 * y as real; }
  }

  lemma {:induction false} Deltas(s: State, pos: nat)
    requires s.Separate()
    ensures pos in s.b1.keys ==> s.b1.Size() > 0 && Delta1(s) == Larger(1.0, s.b2.Size() as real / s.b1.Size() as real)
    ensures pos in s.b2.keys ==> s.b2.Size() > 0 && Delta2(s) == Larger(1.0, s.b1.Size() as real / s.b2.Size() as real)
  {
    hide Index.Ok, Index.Size, Larger;
    if pos in s.b1.keys {
      Inhabited(s.b1, pos);
      RatioIsLarger(s.b2.Size(), s.b1.Size());
    }
    if pos in s.b2.keys {
      Inhabited(s.b2, pos);
      RatioIsLarger(s.b1.Size(), s.b2.Size());
    }
  }

  /** The last position of T1, or else of T2, leaves the owner's map for the front of its ghost list. */
  ghost predicate LastGoes(s: State, r: State, first: bool) {
    var from, to := if first then s.t1.list else s.t2.list, if first then r.b1.list else r.b2.list;
    from != [] && r.cached == s.cached - {from[|from| - 1]} && to != [] && to[0] == from[|from| - 1]
  }

  lemma {:induction false} ReplaceTakesLast(s: State, pos: nat)
    requires s.Separate() && s.Mapped() && (FromT1(s, pos) || s.t2.Size() > 0)
    ensures FromT1(s, pos) <==> s.t1.Size() > 0 && (s.t1.Size() as real > s.p || pos in s.b2.keys)
    ensures LastGoes(s, Replace(s, pos), FromT1(s, pos)) && Replace(s, pos).p == s.p
    ensures s.t1.Size() > 0 ==> s.t1.list != []
  {
    hide Index.Ok, Index.Size, Index.PopBack;
    if FromT1(s, pos) { NotEmpty(s.t1); } else { NotEmpty(s.t2); }
    if s.t1.Size() > 0 { NotEmpty(s.t1); }
  }

  /** Which of the two lists a miss evicts from, when the cache is full. */
  predicate TakesT1(c: nat, s: State, pos: nat)
    requires s.Separate()
  {
    s.t1.Size() > 0 && (s.t1.Size() as real > Target(c, s, pos) || pos in s.b2.keys)
  }

  /** Removing another position from a list keeps its front. */
  lemma {:induction false} FrontStays(ix: Index, x: nat)
    requires ix.Ok() && x in ix.keys && ix.list != [] && ix.list[0] != x
    ensures ix.Remove(x).list != [] && ix.Remove(x).list[0] == ix.list[0]
  {
  }

  lemma {:induction false} GhostReturns(c: nat, s: State, pos: nat)
    requires c > 0 && s.Valid(c) && pos !in s.cached && (pos in s.b1.keys || pos in s.b2.keys)
    ensures var r := PutMiss(c, s, pos);
            r.p == Target(c, s, pos) && LastGoes(s, r, TakesT1(c, s, pos)) && r.t2.list != [] && r.t2.list[0] == pos
    ensures s.t1.Size() + s.t2.Size() == c
  {
    hide Index.Ok, Index.Size, Index.PopBack, Index.Remove, Replace, Target, Larger, Smaller;
    HitsLoseOne(c, s, pos);
    Deltas(s, pos);
    var s1 := s.(p := Target(c, s, pos));
    TargetIs(c, s, pos);
    Replaced(s1, pos);
    ReplaceTakesLast(s1, pos);
    var r := Replace(s1, pos);
    LastIsCached(s);
    if pos in s.b1.keys {
      if FromT1(s1, pos) { FrontStays(r.b1, pos); }
    } else {
      if !FromT1(s1, pos) { FrontStays(r.b2, pos); }
    }
  }

  lemma {:induction false} TargetIs(c: nat, s: State, pos: nat)
    requires s.Separate()
    ensures pos in s.b1.keys ==> s.b1.Size() > 0 && Target(c, s, pos) == if s.p + Delta1(s) < c as real then s.p + Delta1(s) else c as real
    ensures pos !in s.b1.keys && pos in s.b2.keys ==>
              s.b2.Size() > 0 && Target(c, s, pos) == if s.p - Delta2(s) > 0.0 then s.p - Delta2(s) else 0.0
    ensures pos !in s.b1.keys && pos !in s.b2.keys ==> Target(c, s, pos) == s.p
  {
    hide Index.Ok, Index.Size, Delta1, Delta2;
    Deltas(s, pos);
  }

  lemma {:induction false} LastIsCached(s: State)
    requires s.Separate() && s.Mapped()
    ensures s.t1.list != [] ==> s.t1.list[|s.t1.list| - 1] in s.cached
    ensures s.t2.list != [] ==> s.t2.list[|s.t2.list| - 1] in s.cached
  {
  }

  /** Room for a new position: nothing is evicted, or T1 is all there is and its last goes, or the rule decides. */
  lemma {:induction false} RoomByRule(c: nat, s: State, pos: nat)
    requires c > 0 && s.Valid(c) && pos !in s.b2.keys
    ensures var r := MakeRoom(c, s, pos);
            && r.p == s.p
            && if s.t1.Size() + s.t2.Size() < c then r.cached == s.cached
               else if s.t1.Size() == c then
                 && s.t1.list != [] && var x := s.t1.list[|s.t1.list| - 1];
                 r.cached == s.cached - {x} && !r.Known(x)
               else LastGoes(s, r, s.t1.Size() > 0 && s.t1.Size() as real > s.p)
  {
    hide Index.Ok, Index.Size, Index.PopBack, Index.PushFront, Replace, LastGoes;
    if s.t1.Size() + s.b1.Size() >= c {
      if s.t1.Size() < c {
        NotEmpty(s.b1);
        ReplaceTakesLast(s.(b1 := s.b1.PopBack()), pos);
        SameLast(s, s.(b1 := s.b1.PopBack()), pos);
      } else {
        NotEmpty(s.t1);
      }
    } else if s.Total() >= c {
      if s.Total() >= 2 * c {
        NotEmpty(s.b2);
        ReplaceTakesLast(s.(b2 := s.b2.PopBack()), pos);
        SameLast(s, s.(b2 := s.b2.PopBack()), pos);
      } else {
        ReplaceTakesLast(s, pos);
      }
    }
  }

  lemma {:induction false} SameLast(s: State, u: State, pos: nat)
    requires u.t1 == s.t1 && u.t2 == s.t2 && u.cached == s.cached && u.p == s.p && pos !in s.b2.keys && pos !in u.b2.keys
    ensures forall r, first :: LastGoes(u, r, first) <==> LastGoes(s, r, first)
  {
  }

  lemma {:induction false} FrontIs(ix: Index, x: nat)
    requires ix.Ok() && x !in ix.keys
    ensures ix.PushFront(x).list != [] && ix.PushFront(x).list[0] == x
  {
  }

  lemma {:induction false} NewArrives(c: nat, s: State, pos: nat)
    requires c > 0 && s.Valid(c) && !s.Known(pos)
    ensures var r := PutMiss(c, s, pos);
            && r.p == Target(c, s, pos) && r.t1.list != [] && r.t1.list[0] == pos
            && if s.t1.Size() + s.t2.Size() < c then r.cached == s.cached
               else if s.t1.Size() == c then
                 && s.t1.list != [] && var x := s.t1.list[|s.t1.list| - 1];
                 r.cached == s.cached - {x} && !r.Known(x)
               else LastGoes(s, r, TakesT1(c, s, pos))
  {
    hide Index.Ok, Index.Size, Index.PopBack, Index.PushFront, MakeRoom, Target;
    TargetIs(c, s, pos);
    RoomMade(c, s, pos);
    RoomByRule(c, s, pos);
    LastIsCached(s);
    FrontIs(MakeRoom(c, s, pos).t1, pos);
  }

  /**
    How ARC adapts, on an accepted put. The target for T1 moves as `Target` says. A position that was
    evicted before comes to the front of T2, a new one to the front of T1. A full cache evicts: the last
    position of T1 without trace if T1 is all there is and the position is new; else the last of T1 if T1
    is above its target, or the position had been evicted from T2, and otherwise the last of T2, which
    goes to the front of its ghost list.
    */
  lemma {:induction false} ArcAdapts(c: nat, s: State, pos: nat, data: Bytes)
    requires s.Valid(c) && Put(c, s, pos, data).0
    ensures var s', full := Put(c, s, pos, data).1, s.t1.Size() + s.t2.Size() == c;
            && s'.p == Target(c, s, pos)
            && (s.Known(pos) ==> s'.t2.list != [] && s'.t2.list[0] == pos)
            && (!s.Known(pos) ==> s'.t1.list != [] && s'.t1.list[0] == pos)
            && exists kept :: s'.cached == kept[pos := data]
                 && if !full then kept == s.cached
                    else if !s.Known(pos) && s.t1.Size() == c then
                      && s.t1.list != [] && var x := s.t1.list[|s.t1.list| - 1];
                      kept == s.cached - {x} && !s'.Known(x)
                    else LastGoes(s, s'.(cached := kept), TakesT1(c, s, pos))
  {
    hide Index.Ok, Index.Size, Index.PopBack, Index.PushFront, MakeRoom, HitB1, HitB2, Target, LastGoes, State.Separate;
    var r, s' := PutMiss(c, s, pos), Put(c, s, pos, data).1;
    assert s'.cached == r.cached[pos := data];
    if pos in s.b1.keys || pos in s.b2.keys {
      GhostReturns(c, s, pos);
    } else {
      NewArrives(c, s, pos);
    }
    assert s'.(cached := r.cached) == r;
  }

  /** What a new position makes the ghost lists forget: their last one, where `MakeRoom` needs room. */
  lemma {:induction false} RoomForgets(c: nat, s: State, pos: nat, x: nat)
    requires c > 0 && s.Valid(c)
    ensures var r, t1 := MakeRoom(c, s, pos), s.t1.Size() + s.b1.Size() >= c;
            && (x in s.b1.keys && x !in r.b1.keys ==> t1 && s.b1.list != [] && x == s.b1.list[|s.b1.list| - 1])
            && (x in s.b2.keys && x !in r.b2.keys ==>
                  !t1 && s.Total() >= 2 * c && s.b2.list != [] && x == s.b2.list[|s.b2.list| - 1])
  {
    hide Index.Ok, Index.PopBack, Index.PushFront, Index.Size, Replace;
    if s.t1.Size() + s.b1.Size() >= c {
      if s.t1.Size() < c {
        NotEmpty(s.b1);
        Replaced(s.(b1 := s.b1.PopBack()), pos);
      } else {
        NotEmpty(s.t1);
      }
    } else if s.Total() >= c {
      if s.Total() >= 2 * c {
        NotEmpty(s.b2);
        Replaced(s.(b2 := s.b2.PopBack()), pos);
      } else {
        Replaced(s, pos);
      }
    }
  }

  /**
    The ghost lists remember: a put forgets an evicted position only if it is the put's own, which comes
    back, or the last of its list, when the put's position is new and the list must give way.
    */
  lemma {:induction false} GhostsRemember(c: nat, s: State, pos: nat, data: Bytes, x: nat)
    requires s.Valid(c) && Put(c, s, pos, data).0 && x != pos
    ensures var s', t1 := Put(c, s, pos, data).1, s.t1.Size() + s.b1.Size() >= c;
            && (x in s.b1.keys && x !in s'.b1.keys ==>
                  !s.Known(pos) && t1 && s.b1.list != [] && x == s.b1.list[|s.b1.list| - 1])
            && (x in s.b2.keys && x !in s'.b2.keys ==>
                  !s.Known(pos) && !t1 && s.Total() >= 2 * c && s.b2.list != [] && x == s.b2.list[|s.b2.list| - 1])
  {
    hide Index.Ok, Index.PopBack, Index.PushFront, Index.Remove, Index.Size, Replace, MakeRoom;
    if pos in s.b1.keys {
      Inhabited(s.b1, pos);
      var d := Delta1(s);
      Replaced(s.(p := if s.p + d < c as real then s.p + d else c as real), pos);
    } else if pos in s.b2.keys {
      Inhabited(s.b2, pos);
      var d := Delta2(s);
      Replaced(s.(p := if s.p - d > 0.0 then s.p - d else 0.0), pos);
    } else {
      RoomMade(c, s, pos);
      RoomForgets(c, s, pos, x);
    }
  }

  /** A hit brings its position to the front of T2, from whichever list it was in, and changes nothing else. */
  lemma {:induction false} HitMoves(c: nat, s: State, pos: nat)
    requires s.Valid(c)
    ensures var s' := Get(c, s, pos).1;
            if pos in s.cached then
              && s'.t1.list == Drop(s.t1.list, pos) && s'.t2.list == [pos] + Drop(s.t2.list, pos)
              && s'.b1 == s.b1 && s'.b2 == s.b2 && s'.p == s.p && s'.cached == s.cached
            else s' == s
  {
    if pos in s.cached {
      DropIs(s.t1.list, pos);
      DropIs(s.t2.list, pos);
    }
  }

  /** A hit returns the bytes of the put that inserted the position. */
  lemma {:induction false} HitReturnsInserted(c: nat, p: real, calls: seq<Call>, pos: nat)
    ensures var s := Reached(c, p, calls);
            pos in s.cached ==> Get(c, s, pos).0 == LastPut(c, p, calls, pos) == Some(s.cached[pos])
    decreases |calls|
  {
    hide GetHit, PutMiss, State.Valid;
    if calls != [] {
      var rest, last := calls[..|calls| - 1], calls[|calls| - 1];
      HitReturnsInserted(c, p, rest, pos);
      var s := Reached(c, p, rest);
      match last {
        case PutCall(q, data) =>
          PutEvictsAtMostOne(c, s, q, data);
        case GetCall(q) => GetKeeps(c, s, q);
      }
    }
  }

  // ----- recency ---------------------------------------------------------------------------------

  /** The number of the call that last used `x`: an accepted put, or a hit. */
  ghost function LastUse(c: nat, p: real, calls: seq<Call>, x: nat): nat {
    if calls == [] then 0
    else
      var n := |calls| - 1;
      if calls[n].pos == x && Uses(c, Reached(c, p, calls[..n]), calls[n]) then n + 1 else LastUse(c, p, calls[..n], x)
  }

  ghost predicate Recent(s: State, time: nat -> nat) {
    Falling(s.t1.list, time) && Falling(s.t2.list, time)
  }

  /** The time stamps after `pos` was used. */
  ghost predicate Touched(f: nat -> nat, g: nat -> nat, pos: nat) {
    forall x :: x != pos ==> f(x) == g(x) < g(pos)
  }

  lemma {:induction false} ReplaceRecent(s: State, pos: nat, f: nat -> nat)
    requires s.Separate() && (FromT1(s, pos) || s.t2.Size() > 0) && Recent(s, f)
    ensures Recent(Replace(s, pos), f)
  {
    hide Index.Ok, Index.PopBack, Index.PushFront, Index.Size, Falling;
    if FromT1(s, pos) {
      NotEmpty(s.t1);
      PopRecent(s.t1, f);
    } else {
      NotEmpty(s.t2);
      PopRecent(s.t2, f);
    }
  }

  lemma {:induction false} RoomRecent(c: nat, s: State, pos: nat, f: nat -> nat)
    requires c > 0 && s.Valid(c) && Recent(s, f)
    ensures Recent(MakeRoom(c, s, pos), f)
  {
    hide Replace, Index.PopBack, Falling;
    if s.t1.Size() + s.b1.Size() >= c {
      if s.t1.Size() < c {
        NotEmpty(s.b1);
        ReplaceRecent(s.(b1 := s.b1.PopBack()), pos, f);
      } else {
        NotEmpty(s.t1);
        PopRecent(s.t1, f);
      }
    } else if s.Total() >= c {
      if s.Total() >= 2 * c {
        NotEmpty(s.b2);
        ReplaceRecent(s.(b2 := s.b2.PopBack()), pos, f);
      } else {
        ReplaceRecent(s, pos, f);
      }
    }
  }

  lemma {:induction false} PopRecent(ix: Index, f: nat -> nat)
    requires ix.Ok() && ix.list != [] && Falling(ix.list, f)
    ensures Falling(ix.PopBack().list, f)
  {
  }

  /** A new or returning position goes to the front of its list. */
  lemma {:induction false} PushRecent(ix: Index, pos: nat, f: nat -> nat, g: nat -> nat)
    requires ix.Ok() && pos !in ix.keys && Falling(ix.list, f) && Touched(f, g, pos)
    ensures Falling(ix.PushFront(pos).list, g) && Falling(ix.list, g)
  {
    hide Falling;
    assert forall y :: y in ix.list ==> y in ix.keys;
    FallingSame(ix.list, f, g);
    FallingPush(ix.list, pos, g);
  }

  lemma {:induction false} OtherRecent(ix: Index, pos: nat, f: nat -> nat, g: nat -> nat)
    requires ix.Ok() && pos !in ix.keys && Falling(ix.list, f) && Touched(f, g, pos)
    ensures Falling(ix.list, g)
  {
    assert forall y :: y in ix.list ==> y in ix.keys;
    FallingSame(ix.list, f, g);
  }

  lemma {:induction false} PutRecent(c: nat, s: State, pos: nat, f: nat -> nat, g: nat -> nat)
    requires c > 0 && s.Valid(c) && pos !in s.cached && Recent(s, f) && Touched(f, g, pos)
    ensures Recent(PutMiss(c, s, pos), g)
  {
    hide Index.PushFront, Index.PopBack, Index.Remove, Index.Size, Replace, MakeRoom, Falling, Touched, Index.Ok;
    if pos in s.b1.keys {
      Inhabited(s.b1, pos);
      var d := Delta1(s);
      var s1 := s.(p := if s.p + d < c as real then s.p + d else c as real);
      Replaced(s1, pos);
      ReplaceRecent(s1, pos, f);
      PushRecent(Replace(s1, pos).t2, pos, f, g);
      OtherRecent(Replace(s1, pos).t1, pos, f, g);
    } else if pos in s.b2.keys {
      Inhabited(s.b2, pos);
      var d := Delta2(s);
      var s1 := s.(p := if s.p - d > 0.0 then s.p - d else 0.0);
      Replaced(s1, pos);
      ReplaceRecent(s1, pos, f);
      PushRecent(Replace(s1, pos).t2, pos, f, g);
      OtherRecent(Replace(s1, pos).t1, pos, f, g);
    } else {
      RoomMade(c, s, pos);
      RoomRecent(c, s, pos, f);
      var r := MakeRoom(c, s, pos);
      assert !r.Known(pos);
      PushRecent(r.t1, pos, f, g);
      OtherRecent(r.t2, pos, f, g);
    }
  }

  lemma {:induction false} RemoveRecent(ix: Index, pos: nat, f: nat -> nat)
    requires ix.Ok() && pos in ix.keys && Falling(ix.list, f)
    ensures Falling(ix.Remove(pos).list, f)
  {
    hide Falling;
    FallingDrop(ix.list, pos, f);
  }

  lemma {:induction false} HitRecent(c: nat, s: State, pos: nat, f: nat -> nat, g: nat -> nat)
    requires s.Valid(c) && pos in s.cached && Recent(s, f) && Touched(f, g, pos)
    ensures Recent(GetHit(c, s, pos), g)
  {
    hide Index.PushFront, Index.Remove, Index.Size, Falling, Touched, Index.Ok;
    if pos in s.t1.keys {
      RemoveRecent(s.t1, pos, f);
      OtherRecent(s.t1.Remove(pos), pos, f, g);
      PushRecent(s.t2, pos, f, g);
    } else {
      RemoveRecent(s.t2, pos, f);
      PushRecent(s.t2.Remove(pos), pos, f, g);
      OtherRecent(s.t1, pos, f, g);
    }
  }

  lemma {:induction false} LastUseBound(c: nat, p: real, calls: seq<Call>, x: nat)
    ensures LastUse(c, p, calls, x) <= |calls|
    decreases |calls|
  {
    hide Reached, Uses;
    if calls != [] { LastUseBound(c, p, calls[..|calls| - 1], x); }
  }

  /** The time of last use of every position. */
  ghost function Times(c: nat, p: real, calls: seq<Call>): nat -> nat {
    (x: nat) => LastUse(c, p, calls, x)
  }

  /** T1 and T2 are in order of last use, so what `replace` evicts is the least recently used of its list. */
  lemma {:induction false} ListsInRecencyOrder(c: nat, p: real, calls: seq<Call>)
    ensures Recent(Reached(c, p, calls), Times(c, p, calls))
    decreases |calls|
  {
    hide LastUse, Uses, State.Valid, PutMiss, GetHit, Touched;
    if calls != [] {
      var rest := calls[..|calls| - 1];
      ListsInRecencyOrder(c, p, rest);
      StampsMove(c, p, calls, Times(c, p, rest), Times(c, p, calls));
      StepRecent(c, Reached(c, p, rest), calls[|calls| - 1], Times(c, p, rest), Times(c, p, calls));
    }
  }

  lemma {:induction false} StampsMove(c: nat, p: real, calls: seq<Call>, f: nat -> nat, g: nat -> nat)
    requires calls != []
    requires forall x :: f(x) == LastUse(c, p, calls[..|calls| - 1], x) && g(x) == LastUse(c, p, calls, x)
    ensures var n := |calls| - 1;
            if Uses(c, Reached(c, p, calls[..n]), calls[n]) then Touched(f, g, calls[n].pos) else forall x :: f(x) == g(x)
  {
    hide Reached, Uses;
    var n := |calls| - 1;
    forall x ensures LastUse(c, p, calls[..n], x) <= n { LastUseBound(c, p, calls[..n], x); }
  }

  lemma {:induction false} StepRecent(c: nat, s: State, call: Call, f: nat -> nat, g: nat -> nat)
    requires s.Valid(c) && Recent(s, f)
    requires if Uses(c, s, call) then Touched(f, g, call.pos) else forall x :: f(x) == g(x)
    ensures match call
            case PutCall(pos, data) => Recent(Put(c, s, pos, data).1, g)
            case GetCall(pos) => Recent(Get(c, s, pos).1, g)
  {
    hide PutMiss, GetHit, State.Valid, Touched, Falling;
    if Uses(c, s, call) {
      match call {
        case PutCall(pos, data) => PutRecent(c, s, pos, f, g);
        case GetCall(pos) => HitRecent(c, s, pos, f, g);
      }
    } else {
      FallingSame(s.t1.list, f, g);
      FallingSame(s.t2.list, f, g);
    }
  }

  // ----- the code --------------------------------------------------------------------------------

  /** Cache with an ARC policy: the fields that put and get change. */
  class ArcCache {
    const c: nat
    var t1: Index
    var t2: Index
    var b1: Index
    var b2: Index
    var p: real
    var cacheMap: map<nat, Bytes>

    function Now(): State
      reads this
    {
      State(t1, t2, b1, b2, p, cacheMap)
    }

    ghost predicate Valid()
      reads this
    {
      Now().Valid(c)
    }

    constructor (size: nat, anything: real)
      ensures Valid() && c == size && Now() == Begin(anything)
    {
      c, p := size, anything;
      t1, t2, b1, b2, cacheMap := EMPTY, EMPTY, EMPTY, EMPTY, map[];
    }

    /** ARC::replace. */
    method Evict(pos: nat)
      requires Now().Separate() && (FromT1(Now(), pos) || t2.Size() > 0)
      modifies this
      ensures Now() == Replace(old(Now()), pos)
    {
      hide Index.Ok, Index.Size, Index.PopBack, Index.PushFront;
      if t1.Size() > 0 && (t1.Size() as real > p || (pos in b2.keys && t1.Size() as real <= p)) {
        NotEmpty(t1);
        var r := t1.list[|t1.list| - 1];
        t1 := t1.PopBack();
        cacheMap := cacheMap - {r};
        b1 := b1.PushFront(r);
      } else {
        NotEmpty(t2);
        var r := t2.list[|t2.list| - 1];
        t2 := t2.PopBack();
        cacheMap := cacheMap - {r};
        b2 := b2.PushFront(r);
      }
    }

    /** The part of ARC::cache_put_miss for a position that was evicted before. */
    method PutGhost(pos: nat)
      requires c > 0 && Valid() && pos !in cacheMap && (pos in b1.keys || pos in b2.keys)
      modifies this
      ensures Now() == PutMiss(c, old(Now()), pos)
    {
      hide Index.Ok, Index.Size, Index.PushFront, Index.PopBack, Index.Remove, Replace;
      if pos in b1.keys {
        Inhabited(b1, pos);
        var q := p + Delta1(Now());
        p := if q < c as real then q else c as real;
        Replaced(Now(), pos);
        Evict(pos);
        t2 := t2.PushFront(pos);
        b1 := b1.Remove(pos);
      } else {
        Inhabited(b2, pos);
        var q := p - Delta2(Now());
        p := if q > 0.0 then q else 0.0;
        Replaced(Now(), pos);
        Evict(pos);
        t2 := t2.PushFront(pos);
        b2 := b2.Remove(pos);
      }
    }

    /** The part for a position that is in no list. */
    method PutNew(pos: nat)
      requires c > 0 && Valid() && !Now().Known(pos)
      modifies this
      ensures Now() == PutMiss(c, old(Now()), pos)
    {
      hide Index.Ok, Index.Size, Index.PushFront, Index.PopBack, Replace;
      ghost var s := Now();
      RoomMade(c, s, pos);
      if t1.Size() + b1.Size() >= c {
        if t1.Size() < c {
          NotEmpty(b1);
          b1 := b1.PopBack();
          Evict(pos);
        } else {
          NotEmpty(t1);
          var r := t1.list[|t1.list| - 1];
          t1 := t1.PopBack();
          cacheMap := cacheMap - {r};
        }
      } else if Now().Total() >= c {
        if Now().Total() >= 2 * c {
          NotEmpty(b2);
          b2 := b2.PopBack();
        }
        Evict(pos);
      }
      assert Now() == MakeRoom(c, s, pos) && !Now().Known(pos);
      t1 := t1.PushFront(pos);
    }

    /** Cache::put. */
    method PutData(pos: nat, data: Bytes) returns (ok: bool)
      requires Valid()
      modifies this
      ensures Valid() && (ok, Now()) == Put(c, old(Now()), pos, data)
      ensures ok <==> c > 0 && |data| < c && pos !in old(cacheMap)
      ensures c > 0 && |data| < c ==> pos in cacheMap && (ok ==> cacheMap[pos] == data)
    {
      hide PutMiss, HitB1, HitB2, MakeRoom, Index.Ok, Index.Size, Replace;
      PutKeeps(c, Now(), pos, data);
      ok := c > 0 && |data| < c && pos !in cacheMap;
      if ok {
        if pos in b1.keys || pos in b2.keys {
          PutGhost(pos);
        } else {
          PutNew(pos);
        }
        cacheMap := cacheMap[pos := data];
      }
    }

    /** Cache::get. */
    method GetData(pos: nat) returns (data: Option<Bytes>)
      requires Valid()
      modifies this
      ensures Valid() && (data, Now()) == Get(c, old(Now()), pos)
      ensures data == if pos in cacheMap then Some(cacheMap[pos]) else None
      ensures cacheMap == old(cacheMap)
    {
      hide Index.Ok, Index.Size, Index.PushFront, Index.Remove;
      GetKeeps(c, Now(), pos);
      data := None;
      if pos in cacheMap {
        data := Some(cacheMap[pos]);
        if pos in t1.keys {
          t1 := t1.Remove(pos);
          t2 := t2.PushFront(pos);
        } else {
          t2 := t2.ToFront(pos);
        }
      }
    }
  }
}

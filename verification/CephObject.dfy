/** The object class as the program writes it: a header, the omap and the bytes, updated in place. */
module CephObjects {
  import opened Common
  import opened Cells
  import opened Cls

  /** The keys after `start`, as `omap_get_keys` sees them. */
  predicate After(start: Option<nat>, key: nat) {
    start.None? || key > start.value
  }

  lemma {:induction false} LeastKey(keys: set<nat>) returns (k: nat)
    requires keys != {}
    ensures k in keys && forall j :: j in keys ==> k <= j
    decreases |keys|
  {
    k :| k in keys;
    var rest := keys - {k};
    if rest == {} {
      assert forall j :: j in keys ==> j == k || j in rest;
    } else {
      var m := LeastKey(rest);
      assert forall j :: j in keys ==> j == k || j in rest;
      if m < k { k := m; }
    }
  }

  /** The entries whose keys come after `start`. */
  ghost predicate Rest(all: map<nat, Entry>, rest: map<nat, Entry>, start: Option<nat>) {
    && (forall k :: k in rest <==> k in all && After(start, k))
    && (forall k :: k in rest ==> rest[k] == all[k])
  }

  lemma {:induction false} RestShrinks(all: map<nat, Entry>, rest: map<nat, Entry>, start: Option<nat>, key: nat)
    requires Rest(all, rest, start) && key in rest && forall k :: k in rest && After(start, k) ==> key <= k
    ensures Rest(all, rest - {key}, Some(key)) && |rest - {key}| < |rest|
  {
    var less := rest - {key};
    assert less.Keys == rest.Keys - {key};
    assert |less.Keys| < |rest.Keys|;
  }

  lemma {:induction false} RestIsAbove(o: Obj, rest: map<nat, Entry>, start: Option<nat>, key: nat, pos: nat)
    requires Rest(o.omap, rest, start) && key in rest && key > pos && (start.Some? ==> start.value <= pos)
    requires forall k :: k in rest && After(start, k) ==> key <= k
    ensures rest == o.Above(pos) && rest != map[]
  {
    assert rest.Keys == o.Above(pos).Keys;
  }

  lemma {:induction false} RestIsNothing(o: Obj, rest: map<nat, Entry>, start: Option<nat>, pos: nat)
    requires Rest(o.omap, rest, start) && (start.Some? ==> start.value <= pos) && forall k :: k in rest ==> !After(start, k)
    ensures rest == map[] && o.Above(pos) == map[]
  {
    assert forall k :: k in o.Above(pos) ==> k in rest;
  }

  class CephObject {
    /** The extended attribute; none until the object is sealed. */
    var header: Option<Header>
    var omap: map<nat, Entry>
    var bytes: Bytes

    ghost predicate Valid()
      reads this
    {
      header.None? ==> omap == map[] && bytes == []
    }

    ghost function State(): Option<Obj>
      reads this
    {
      if header.None? then None else Some(Obj(header.value, omap, bytes))
    }

    constructor ()
      ensures Valid() && State() == None
    {
      header, omap, bytes := None, map[], [];
    }

    method EpochGuard(epoch: nat) returns (ret: Ret)
      ensures header.None? ==> ret == ENOENT
      ensures header.Some? ==> ret == if epoch < 1 then EINVAL else if epoch < header.value.epoch then ESPIPE else Success
    {
      if header.None? {
        return ENOENT;
      }
      ret := if epoch < 1 then EINVAL else if epoch < header.value.epoch then ESPIPE else Success;
    }

    method PositionTrimmed(pos: nat) returns (b: bool)
      requires header.Some?
      ensures b == State().value.Covered(pos)
    {
      var limit := header.value.Limit();
      b := limit.Some? && pos <= limit.value;
    }

    method UpdateMaxPos(pos: nat)
      requires header.Some?
      modifies this`header
      ensures header == Some(old(header.value).UpdateMax(pos))
    {
      var h := header.value;
      if h.empty || pos > h.maxPos {
        header := Some(h.(maxPos := pos, empty := false));
      }
    }

    method EntryRead(epoch: nat, pos: nat) returns (ret: Ret, out: Bytes)
      ensures Step(State(), Op.Read(epoch, pos)) == (Reply(ret, out, None), State())
    {
      out := [];
      ret := EpochGuard(epoch);
      if ret != Success {
        return;
      }
      var trimmed := PositionTrimmed(pos);
      if trimmed {
        return ENODATA, out;
      }
      if pos !in omap {
        return ERANGE, out;
      }
      var entry := omap[pos];
      if entry.invalid {
        return ENODATA, out;
      }
      if entry.bytestream {
        if entry.data != [] {
          return EIO, out;
        }
        if entry.length != 0 {
          out := Slice(bytes, entry.offset, entry.length);
        }
      } else {
        if entry.offset != 0 || entry.length != 0 {
          return EIO, out;
        }
        out := entry.data;
      }
    }

    method EntryWrite(epoch: nat, pos: nat, data: Bytes) returns (ret: Ret)
      requires Valid()
      modifies this
      ensures Valid() && Step(old(State()), Op.Write(epoch, pos, data)) == (Code(ret), State())
    {
      ret := EpochGuard(epoch);
      if ret != Success {
        return;
      }
      var trimmed := PositionTrimmed(pos);
      if trimmed || pos in omap {
        return EROFS;
      }
      var omapMax := header.value.OmapMax();
      if omapMax.Some? && |data| >= omapMax.value {
        var offset, length := |bytes| % TWO_32, |data| % TWO_32;
        bytes := Overwrite(bytes, offset, data[..length]);
        omap := omap[pos := Entry(false, true, [], offset, length)];
      } else {
        omap := omap[pos := Entry(false, false, data, 0, 0)];
      }
      UpdateMaxPos(pos);
    }

    method EntryInvalidate(epoch: nat, pos: nat, force: bool, limit: bool) returns (ret: Ret)
      requires Valid()
      modifies this
      ensures Valid()
      ensures limit && !force ==> ret == EIO && State() == old(State())
      ensures force ==> Step(old(State()), Op.Trim(epoch, pos, limit, false)) == (Code(ret), State())
      ensures !force && !limit ==> Step(old(State()), Op.Fill(epoch, pos)) == (Code(ret), State())
    {
      if limit && !force {
        return EIO;
      }
      ret := EpochGuard(epoch);
      if ret != Success {
        return;
      }
      if limit {
        var h := header.value;
        if h.Limit().None? || pos > h.Limit().value {
          UpdateMaxPos(pos);
          header := Some(header.value.(trimLimit := Int64(pos)));
        }
        return Success;
      }
      var trimmed := PositionTrimmed(pos);
      if trimmed {
        return Success;
      }
      var entry := HOLE;
      if pos in omap {
        entry := omap[pos];
        if entry.invalid {
          return Success;
        }
        if !force {
          return EROFS;
        }
      }
      omap := omap[pos := entry.(invalid := true)];
      UpdateMaxPos(pos);
    }

    method EntrySeal(epoch: nat, omapMax: Option<nat>) returns (ret: Ret)
      requires Valid()
      modifies this`header
      ensures Valid() && Step(old(State()), Op.Seal(epoch, omapMax)) == (Code(ret), State())
    {
      if epoch < 1 {
        return EINVAL;
      }
      var h := if header.Some? then header.value else Header(0, true, 0, -1, -1);
      if header.Some? && epoch <= h.epoch {
        return ESPIPE;
      }
      header := Some(h.(epoch := epoch, omapMax := if omapMax.Some? then omapMax.value else -1));
      ret := Success;
    }

    method MaxPosition() returns (ret: Ret, max: Option<nat>)
      ensures Step(State(), Op.MaxPos) == (Reply(ret, [], max), State())
    {
      if header.None? {
        return ENOENT, None;
      }
      return Success, if header.value.empty then None else Some(header.value.maxPos);
    }

    /** `omap_get_keys(oid, start, 1)`. */
    method NextKey(start: Option<nat>) returns (key: Option<nat>)
      ensures key.None? ==> forall k :: k in omap ==> !After(start, k)
      ensures key.Some? ==> key.value in omap && After(start, key.value)
                            && forall k :: k in omap && After(start, k) ==> key.value <= k
    {
      var keys := set k | k in omap && After(start, k);
      assert forall k :: k in omap && After(start, k) ==> k in keys;
      if keys == {} {
        key := None;
      } else {
        ghost var least := LeastKey(keys);
        var k :| k in keys && forall j :: j in keys ==> k <= j;
        key := Some(k);
      }
    }

    /** The rest of a full trim: delete the keys up to `pos` one by one, in order, and truncate. */
    method ReclaimSpace(pos: nat) returns (ret: Ret)
      requires header.Some?
      modifies this`omap, this`bytes
      ensures Reclaim(old(State().value), pos) == (Code(ret), State().value)
    {
      ghost var o := State().value;
      var start: Option<nat> := None;
      var key := NextKey(start);
      while key.Some?
        invariant start.Some? ==> start.value <= pos
        invariant Rest(o.omap, omap, start)
        invariant key.None? ==> forall k :: k in omap ==> !After(start, k)
        invariant key.Some? ==> key.value in omap && forall k :: k in omap && After(start, k) ==> key.value <= k
        invariant bytes == o.bytes
        decreases |omap|
      {
        if key.value > pos {
          RestIsAbove(o, omap, start, key.value, pos);
          return EIO;
        }
        ghost var before := omap;
        omap := omap - {key.value};
        RestShrinks(o.omap, before, start, key.value);
        start := key;
        key := NextKey(start);
      }
      RestIsNothing(o, omap, start, pos);
      bytes := [];
      ret := Success;
    }

    /** CephBackend::Trim. */
    method Trim(epoch: nat, pos: nat, limit: bool, full: bool) returns (ret: Ret)
      requires Valid()
      modifies this
      ensures Valid() && Step(old(State()), Op.Trim(epoch, pos, limit, full)) == (Code(ret), State())
    {
      if full && !limit {
        return EINVAL;
      }
      ret := EntryInvalidate(epoch, pos, true, limit);
      if ret != Success || !full {
        return;
      }
      ret := ReclaimSpace(pos);
    }
  }
}

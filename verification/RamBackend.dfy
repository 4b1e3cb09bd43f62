/** `RAMBackend` as the program writes it: one table of objects and a head object, updated in place. */
module RamBackends {
  import opened Common
  import opened Cells
  import opened Stripes
  import opened Ram

  class RamBackend<V> {
    /** The log objects. */
    var objects: Store
    /** The head object: its epoch and the views by epoch. */
    var epoch: nat
    var projections: map<nat, V>

    /** Views are numbered 1, 2, ... without a gap, and the head's epoch is the last of them. */
    ghost predicate ValidHead()
      reads this
    {
      forall e :: e in projections <==> 1 <= e <= epoch
    }

    /** The committed views, oldest first. */
    ghost function Views(): seq<V>
      requires ValidHead()
      reads this
    {
      seq(epoch, i requires 0 <= i < epoch reads this requires ValidHead() => projections[i + 1])
    }

    constructor (view: V)
      ensures ValidHead() && Views() == [view] && objects == map[]
    {
      objects := map[];
      epoch := 1;
      projections := map[1 := view];
    }

    method CheckEpoch(e: nat, oid: Oid) returns (ret: Ret)
      ensures ret == if oid !in objects then ENOENT else if e < objects[oid].epoch then ESPIPE else Success
    {
      if oid !in objects {
        return ENOENT;
      }
      ret := if e < objects[oid].epoch then ESPIPE else Success;
    }

    method Read(oid: Oid, e: nat, pos: nat) returns (ret: Ret, data: Bytes)
      ensures Apply(objects, oid, Op.Read(e, pos)) == (Reply(ret, data, None), objects)
    {
      data := [];
      if e == 0 {
        return EINVAL, data;
      }
      ret := CheckEpoch(e, oid);
      if ret != Success {
        return;
      }
      var lobj := objects[oid];
      if lobj.limit.Some? && pos <= lobj.limit.value {
        return ENODATA, data;
      }
      if pos !in lobj.entries {
        return ERANGE, data;
      }
      var entry := lobj.entries[pos];
      if entry.trimmed || entry.invalidated {
        return ENODATA, data;
      }
      return Success, entry.data;
    }

    method Write(oid: Oid, data: Bytes, e: nat, pos: nat) returns (ret: Ret)
      modifies this`objects
      ensures Apply(old(objects), oid, Op.Write(e, pos, data)) == (Code(ret), objects)
    {
      if e == 0 {
        return EINVAL;
      }
      ret := CheckEpoch(e, oid);
      if ret != Success {
        return;
      }
      var lobj := objects[oid];
      if lobj.limit.Some? && pos <= lobj.limit.value {
        return EROFS;
      }
      if pos in lobj.entries {
        return EROFS;
      }
      var maxpos := Max(lobj.maxpos, pos);
      objects := objects[oid := lobj.(entries := lobj.entries[pos := Entry(false, false, data)], maxpos := maxpos)];
    }

    method Fill(oid: Oid, e: nat, pos: nat) returns (ret: Ret)
      modifies this`objects
      ensures Apply(old(objects), oid, Op.Fill(e, pos)) == (Code(ret), objects)
    {
      if e == 0 {
        return EINVAL;
      }
      ret := CheckEpoch(e, oid);
      if ret != Success {
        return;
      }
      var lobj := objects[oid];
      if lobj.limit.Some? && pos <= lobj.limit.value {
        return Success;
      }
      if pos in lobj.entries {
        var entry := lobj.entries[pos];
        return if entry.trimmed || entry.invalidated then Success else EROFS;
      }
      objects := objects[oid := lobj.(entries := lobj.entries[pos := HOLE], maxpos := Max(lobj.maxpos, pos))];
    }

    method Trim(oid: Oid, e: nat, pos: nat, limit: bool, full: bool) returns (ret: Ret)
      modifies this`objects
      ensures Apply(old(objects), oid, Op.Trim(e, pos, limit, full)) == (Code(ret), objects)
    {
      if full && !limit {
        return EINVAL;
      }
      if e == 0 {
        return EINVAL;
      }
      ret := CheckEpoch(e, oid);
      if ret != Success {
        return;
      }
      var lobj := objects[oid];
      if limit {
        lobj := lobj.(limit := Some(if lobj.limit.Some? then Max(pos, lobj.limit.value) else pos));
      }
      if full {
        lobj := lobj.(entries := map[]);
      } else if lobj.limit.Some? && pos <= lobj.limit.value {
      } else {
        var entry := if pos in lobj.entries then lobj.entries[pos].(trimmed := true, data := []) else HOLE;
        lobj := lobj.(entries := lobj.entries[pos := entry], maxpos := Max(lobj.maxpos, pos));
      }
      assert lobj == objects[oid] ==> objects[oid := lobj] == objects;
      objects := objects[oid := lobj];
    }

    method Seal(oid: Oid, e: nat) returns (ret: Ret)
      modifies this`objects
      ensures Apply(old(objects), oid, Op.Seal(e, None)) == (Code(ret), objects)
    {
      if e == 0 {
        return EINVAL;
      }
      var obj := FRESH;
      if oid in objects {
        obj := objects[oid];
        if e <= obj.epoch {
          return ESPIPE;
        }
      }
      objects := objects[oid := obj.(epoch := e)];
      ret := Success;
    }

    method MaxPos(oid: Oid) returns (ret: Ret, max: Option<nat>)
      ensures Apply(objects, oid, Op.MaxPos) == (Reply(ret, [], max), objects)
    {
      if oid !in objects {
        return ENOENT, None;
      }
      var lobj := objects[oid];
      if lobj.entries != map[] {
        var pos := lobj.maxpos;
        if lobj.limit.Some? {
          pos := Max(pos, lobj.limit.value);
        }
        return Success, Some(pos);
      }
      return Success, lobj.limit;
    }

    /** Compare and swap: the proposal is taken exactly when it is for the next epoch. */
    method ProposeView(e: nat, view: V) returns (ret: Ret)
      requires ValidHead()
      modifies this`epoch, this`projections
      ensures ValidHead()
      ensures ret.Success? <==> e == |old(Views())| + 1
      ensures ret.ESPIPE? <==> 0 < e <= |old(Views())|
      ensures Views() == if ret.Success? then old(Views()) + [view] else old(Views())
    {
      if e == 0 {
        return EINVAL;
      }
      var required := epoch + 1;
      if e > required {
        return EINVAL;
      }
      if e != required {
        return ESPIPE;
      }
      projections := projections[e := view];
      epoch := e;
      ret := Success;
    }

    /** Epoch 0 asks for the latest view; otherwise up to `max` views from the given epoch on. */
    method ReadViews(e: nat, max: nat) returns (ret: Ret, views: map<nat, V>)
      requires ValidHead()
      ensures ret.Success?
      ensures e == 0 && epoch > 0 ==> views == map[epoch := Views()[epoch - 1]]
      ensures e > 0 ==> forall k :: k in views <==> e <= k < e + max && k <= epoch
      ensures forall k :: k in views ==> 1 <= k <= epoch && views[k] == Views()[k - 1]
    {
      views := map[];
      if e > epoch {
        return Success, views;
      }
      if e == 0 {
        if epoch > 0 {
          views := map[epoch := projections[epoch]];
        }
        return Success, views;
      }
      var k, count := e, 0;
      while count != max && k <= epoch
        invariant k == e + count && count <= max && k <= epoch + 1
        invariant forall i :: i in views <==> e <= i < k
        invariant forall i :: i in views ==> views[i] == projections[i]
        decreases epoch + 1 - k
      {
        views := views[k := projections[k]];
        k, count := k + 1, count + 1;
      }
      ret := Success;
    }
  }
}

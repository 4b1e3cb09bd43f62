/** The in-memory backend (src/storage/ram/ram.cc, src/include/zlog/backend/ram.h). */
module Ram {
  import opened Common
  import opened Cells
  import opened Stripes

  datatype Entry = Entry(trimmed: bool, invalidated: bool, data: Bytes)

  datatype LogObject = LogObject(epoch: nat, maxpos: nat, entries: map<nat, Entry>, limit: Option<nat>) {

    /** The position is in the trimmed range. */
    predicate Covered(p: nat) {
      limit.Some? && p <= limit.value
    }

    function Insert(p: nat, e: Entry): LogObject {
      this.(entries := entries[p := e], maxpos := Max(maxpos, p))
    }

    /** What position `p` holds, as a reader sees it. */
    function Cell(p: nat): Cell {
      if Covered(p) then Invalid
      else if p !in entries then Unwritten
      else if entries[p].trimmed || entries[p].invalidated then Invalid
      else Data(entries[p].data)
    }

    /** `MaxPos`. */
    function Top(): Option<nat> {
      if entries != map[] then
        Some(if limit.Some? then Max(maxpos, limit.value) else maxpos)
      else limit
    }

    /** `maxpos` bounds the entries, and is itself an entry or in the trimmed range. */
    predicate Valid() {
      && (forall p :: p in entries ==> p <= maxpos)
      && (maxpos > 0 ==> maxpos in entries || Covered(maxpos))
    }

    /** The promise behind a full trim up to `p`: no entry lies above the resulting limit. */
    predicate NoneAbove(p: nat) {
      forall q :: q in entries ==> q <= p || Covered(q)
    }
  }

  const FRESH := LogObject(0, 0, map[], None)
  const HOLE := Entry(true, true, [])

  /** An admitted write, read, fill or trim of one object. */
  function Admitted(o: LogObject, op: Op): (Reply, LogObject)
    requires Guarded(op)
  {
    match op
    case Write(_, pos, data) =>
      if o.Covered(pos) || pos in o.entries then (Code(EROFS), o)
      else (Code(Success), o.Insert(pos, Entry(false, false, data)))
    case Read(_, pos) =>
      if o.Covered(pos) then (Code(ENODATA), o)
      else if pos !in o.entries then (Code(ERANGE), o)
      else if o.entries[pos].trimmed || o.entries[pos].invalidated then (Code(ENODATA), o)
      else (Reply(Success, o.entries[pos].data, None), o)
    case Fill(_, pos) =>
      if o.Covered(pos) then (Code(Success), o)
      else if pos !in o.entries then (Code(Success), o.Insert(pos, HOLE))
      else if o.entries[pos].trimmed || o.entries[pos].invalidated then (Code(Success), o)
      else (Code(EROFS), o)
    case Trim(_, pos, limit, full) =>
      var o1 := if limit then
                  o.(limit := Some(if o.limit.Some? then Max(pos, o.limit.value) else pos))
                else o;
      if full then (Code(Success), o1.(entries := map[]))
      else if o1.Covered(pos) then (Code(Success), o1)
      else if pos !in o1.entries then (Code(Success), o1.Insert(pos, HOLE))
      else (Code(Success), o1.Insert(pos, o1.entries[pos].(trimmed := true, data := [])))
  }

  /** Any call on one object, which may not exist. */
  function Step(o: Option<LogObject>, op: Op): (Reply, Option<LogObject>) {
    match op
    case MaxPos => (if o.None? then Code(ENOENT) else Reply(Success, [], o.value.Top()), o)
    case Seal(epoch, _) =>
      if epoch == 0 then (Code(EINVAL), o)
      else if o.None? then (Code(Success), Some(FRESH.(epoch := epoch)))
      else if epoch <= o.value.epoch then (Code(ESPIPE), o)
      else (Code(Success), Some(o.value.(epoch := epoch)))
    case _ =>
      var g := Guard(if o.Some? then Some(o.value.epoch) else None, op);
      if !g.Success? then (Code(g), o)
      else
        var (reply, o') := Admitted(o.value, op);
        (reply, Some(o'))
  }

  /** The condition under which a call on a valid object keeps the storage contract. */
  predicate Kept(o: Option<LogObject>, op: Op) {
    o.Some? && op.Trim? && op.full && op.limit ==> o.value.NoneAbove(op.pos)
  }

  /** A full trim is a range trim; the backends refuse any other. */
  predicate Coherent(op: Op) {
    op.Trim? && op.full ==> op.limit
  }

  /** Reads and writes go through the state machine of the addressed position... */
  lemma {:induction false} AdmittedMeans(o: LogObject, op: Op, p: nat)
    requires Guarded(op) && Coherent(op) && o.Valid() && Kept(Some(o), op)
    ensures var (reply, o') := Admitted(o, op);
            && reply == Answer(o.Cell(op.pos), op)
            && o'.Cell(p) == (if reply.ret.Success? then Next(o.Cell(p), op, p) else o.Cell(p))
            && o'.epoch == o.epoch
  {
  }

  /** ... and the highest position is a running maximum, even across `entries.clear()`. */
  lemma {:induction false} AdmittedTop(o: LogObject, op: Op)
    requires Guarded(op) && Coherent(op) && o.Valid() && Kept(Some(o), op)
    ensures var (reply, o') := Admitted(o, op);
            && o'.Valid()
            && o'.Top() == (if reply.ret.Success? then NextTop(o.Top(), op) else o.Top())
  {
    var o' := Admitted(o, op).1;
    assert op.pos in o.entries ==> o.entries != map[];
    assert o.maxpos in o.entries ==> o.entries != map[];
    assert o.entries != map[] ==> exists p :: p in o.entries;
    assert op.pos in o'.entries ==> o'.entries != map[];
  }

  /**
    Clearing all entries amounts to a range trim exactly when the promise holds: otherwise the
    positions of the entries above the limit go back to unwritten.
    */
  lemma {:induction false} FullTrimIffPromise(o: LogObject, op: Op)
    requires o.Valid() && op.Trim? && op.limit && op.full
    ensures o.NoneAbove(op.pos) <==>
            forall p: nat :: Admitted(o, op).1.Cell(p) == Next(o.Cell(p), op, p)
  {
    if o.NoneAbove(op.pos) {
      forall p: nat ensures Admitted(o, op).1.Cell(p) == Next(o.Cell(p), op, p) {
        AdmittedMeans(o, op, p);
      }
    } else {
      var q :| q in o.entries && q > op.pos && !o.Covered(q);
      assert Admitted(o, op).1.Cell(q) == Unwritten;
      assert !o.Cell(q).Unwritten?;
    }
  }

  // ----- the store -------------------------------------------------------------------------------

  type Store = map<Oid, LogObject>

  function Lookup(st: Store, oid: Oid): Option<LogObject> {
    if oid in st then Some(st[oid]) else None
  }

  function Apply(st: Store, oid: Oid, op: Op): (Reply, Store) {
    var (reply, o) := Step(Lookup(st, oid), op);
    (reply, if o.None? || o == Lookup(st, oid) then st else st[oid := o.value])
  }

  /** What a position of an object holds; an object that does not exist has nothing written. */
  function CellAt(st: Store, oid: Oid, p: nat): Cell {
    if oid in st then st[oid].Cell(p) else Unwritten
  }
}

/** One log object of the Ceph object class (src/storage/ceph/cls_zlog.h, cls_zlog.cc). */
module Cls {
  import opened Common
  import opened Cells

  const TWO_63 := 0x8000_0000_0000_0000
  const TWO_64 := 0x1_0000_0000_0000_0000

  /** The conversion of an unsigned to a signed 64-bit number. */
  function Int64(u: nat): int {
    if u % TWO_64 < TWO_63 then u % TWO_64 else u % TWO_64 - TWO_64
  }

  /** The header as it is stored: an absent limit is negative, and so is a size that is not set. */
  datatype Header = Header(epoch: nat, empty: bool, maxPos: nat, omapMax: int, trimLimit: int) {

    function Limit(): Option<nat> {
      if trimLimit >= 0 then Some(trimLimit) else None
    }

    function OmapMax(): Option<nat> {
      if omapMax >= 0 then Some(omapMax) else None
    }

    function Max(): Option<nat> {
      if empty then None else Some(maxPos)
    }

    function UpdateMax(pos: nat): Header {
      if empty || pos > maxPos then this.(maxPos := pos, empty := false) else this
    }

    function UpdateLimit(pos: nat): Header {
      if Limit().None? || pos > Limit().value then UpdateMax(pos).(trimLimit := Int64(pos)) else this
    }
  }

  /** An omap entry: its data are in the entry itself, or in the object's bytes. */
  datatype Entry = Entry(invalid: bool, bytestream: bool, data: Bytes, offset: nat, length: nat)

  const HOLE := Entry(true, false, [], 0, 0)

  /** The bytes from `offset` on that exist, up to `length`. */
  function Slice(bytes: Bytes, offset: nat, length: nat): Bytes {
    if offset >= |bytes| then [] else bytes[offset..Min(offset + length, |bytes|)]
  }

  function Overwrite(bytes: Bytes, offset: nat, data: Bytes): Bytes
    requires offset <= |bytes|
  {
    bytes[..offset] + data + (if offset + |data| < |bytes| then bytes[offset + |data|..] else [])
  }

  datatype Obj = Obj(header: Header, omap: map<nat, Entry>, bytes: Bytes) {

    predicate Covered(p: nat) {
      header.Limit().Some? && p <= header.Limit().value
    }

    /** The entry has been written and neither invalidated nor trimmed. */
    predicate Live(p: nat) {
      p in omap && !omap[p].invalid && !Covered(p)
    }

    function Payload(e: Entry): Bytes {
      if !e.bytestream then e.data else if e.length == 0 then [] else Slice(bytes, e.offset, e.length)
    }

    /** What position `p` holds, as a reader sees it. */
    function Cell(p: nat): Cell {
      if Covered(p) then Invalid
      else if p !in omap then Unwritten
      else if omap[p].invalid then Invalid
      else Data(Payload(omap[p]))
    }

    /** The data of a write go to the bytes when they are at least as long as the configured size. */
    predicate Spills(data: Bytes) {
      header.OmapMax().Some? && |data| >= header.OmapMax().value
    }

    /** Entries are of one kind or the other, and live extents lie in the bytes. */
    ghost predicate EntriesOk() {
      && (forall p :: p in omap ==> if omap[p].bytestream then omap[p].data == [] else omap[p].offset == omap[p].length == 0)
      && (forall p :: Live(p) && omap[p].bytestream ==> omap[p].offset + omap[p].length <= |bytes|)
    }

    /** Live extents do not overlap. */
    ghost predicate Apart() {
      forall p, q :: Live(p) && Live(q) && p != q && omap[p].bytestream && omap[q].bytestream ==>
        omap[p].offset + omap[p].length <= omap[q].offset || omap[q].offset + omap[q].length <= omap[p].offset
    }

    /** The header's maximum bounds all positions and the limit. */
    ghost predicate HeaderOk() {
      && (header.empty ==> omap == map[] && header.Limit().None?)
      && (forall p :: p in omap ==> p <= header.maxPos)
      && (header.Limit().Some? ==> header.Limit().value <= header.maxPos)
    }

    ghost predicate Valid() {
      EntriesOk() && Apart() && HeaderOk()
    }

    /** The entries above `pos`. */
    function Above(pos: nat): map<nat, Entry> {
      map p | p in omap && p > pos :: omap[p]
    }
  }

  const FRESH := Obj(Header(0, true, 0, -1, -1), map[], [])

  /** LogEntry::set_data: offset and length are 32-bit numbers. */
  function SetData(o: Obj, pos: nat, data: Bytes): Obj {
    if o.Spills(data) then
      var offset, length := |o.bytes| % TWO_32, |data| % TWO_32;
      o.(omap := o.omap[pos := Entry(false, true, [], offset, length)],
         bytes := Overwrite(o.bytes, offset, data[..length]))
    else o.(omap := o.omap[pos := Entry(false, false, data, 0, 0)])
  }

  /** log_entry_invalidate without a limit. */
  function Invalidate(o: Obj, pos: nat, force: bool): (Reply, Obj) {
    if o.Covered(pos) then (Code(Success), o)
    else if pos in o.omap && o.omap[pos].invalid then (Code(Success), o)
    else if pos in o.omap && !force then (Code(EROFS), o)
    else
      var e := if pos in o.omap then o.omap[pos].(invalid := true) else HOLE;
      (Code(Success), o.(omap := o.omap[pos := e], header := o.header.UpdateMax(pos)))
  }

  function ReadEntry(o: Obj, pos: nat): Reply {
    if o.Covered(pos) then Code(ENODATA)
    else if pos !in o.omap then Code(ERANGE)
    else if o.omap[pos].invalid then Code(ENODATA)
    else
      var e := o.omap[pos];
      if e.bytestream && e.data != [] then Code(EIO)
      else if !e.bytestream && (e.offset != 0 || e.length != 0) then Code(EIO)
      else Reply(Success, o.Payload(e), None)
  }

  /** The deletions of a full trim, when no other call comes in between. */
  function Reclaim(o: Obj, pos: nat): (Reply, Obj) {
    if o.Above(pos) == map[] then (Code(Success), o.(omap := map[], bytes := []))
    else (Code(EIO), o.(omap := o.Above(pos)))
  }

  /** An admitted read, write, fill or trim. */
  function Admitted(o: Obj, op: Op): (Reply, Obj)
    requires Guarded(op)
  {
    match op
    case Read(_, pos) => (ReadEntry(o, pos), o)
    case Write(_, pos, data) =>
      if o.Covered(pos) || pos in o.omap then (Code(EROFS), o)
      else
        var o1 := SetData(o, pos, data);
        (Code(Success), o1.(header := o1.header.UpdateMax(pos)))
    case Fill(_, pos) => Invalidate(o, pos, false)
    case Trim(_, pos, limit, full) =>
      if !limit then Invalidate(o, pos, true)
      else
        var o1 := o.(header := o.header.UpdateLimit(pos));
        if full then Reclaim(o1, pos) else (Code(Success), o1)
  }

  /** The header is read before the epoch is looked at. */
  function GuardOf(stored: Option<nat>, op: Op): Ret
    requires Guarded(op)
  {
    if op.Trim? && op.full && !op.limit then EINVAL
    else if stored.None? then ENOENT
    else if op.epoch == 0 then EINVAL
    else if op.epoch < stored.value then ESPIPE
    else Success
  }

  function EpochOf(o: Option<Obj>): Option<nat> {
    if o.Some? then Some(o.value.header.epoch) else None
  }

  /** Any call on one object, which may not exist. */
  function Step(o: Option<Obj>, op: Op): (Reply, Option<Obj>) {
    match op
    case MaxPos => (if o.None? then Code(ENOENT) else Reply(Success, [], o.value.header.Max()), o)
    case Seal(epoch, omapMax) =>
      if epoch == 0 then (Code(EINVAL), o)
      else if o.Some? && epoch <= o.value.header.epoch then (Code(ESPIPE), o)
      else
        var o1 := if o.Some? then o.value else FRESH;
        var omax := if omapMax.Some? then omapMax.value else -1;
        (Code(Success), Some(o1.(header := o1.header.(epoch := epoch, omapMax := omax))))
    case _ =>
      var g := GuardOf(EpochOf(o), op);
      if !g.Success? then (Code(g), o)
      else
        var (reply, o') := Admitted(o.value, op);
        (reply, Some(o'))
  }

  /** The two backends check a call in a different order; it shows only for epoch 0. */
  lemma {:induction false} GuardsAgreeIff(stored: Option<nat>, op: Op)
    requires Guarded(op)
    ensures GuardOf(stored, op) == Guard(stored, op)
       <==> !(op.epoch == 0 && stored.None? && !(op.Trim? && op.full && !op.limit))
  {
  }

  // ----- the call keeps the storage contract -----------------------------------------------------

  /**
    What a caller has to observe: positions that fit a signed number, data and objects that fit
    32-bit extents, and a full trim only of an object without entries above the limit.
    */
  predicate Allowed(o: Obj, op: Op)
    requires Guarded(op)
  {
    match op
    case Write(_, pos, data) => o.Spills(data) ==> |o.bytes| < TWO_32 && |data| < TWO_32
    case Trim(_, pos, limit, full) =>
      && (limit ==> pos < TWO_63)
      && (full ==> limit && o.Above(pos) == map[])
    case _ => true
  }

  /** Appending to the bytes leaves every extent as it is. */
  lemma {:induction false} SliceAppend(bytes: Bytes, data: Bytes, offset: nat, length: nat)
    ensures offset + length <= |bytes| ==> Slice(bytes + data, offset, length) == Slice(bytes, offset, length)
    ensures Slice(bytes + data, |bytes|, |data|) == data
  {
    if offset + length <= |bytes| && offset < |bytes| {
      assert (bytes + data)[offset..offset + length] == bytes[offset..offset + length];
    }
    if data != [] { assert (bytes + data)[|bytes|..] == data; }
  }

  /** The new entry of a write in the bytes. */
  lemma {:induction false} SpillAppends(o: Obj, pos: nat, data: Bytes)
    requires o.Spills(data) && |o.bytes| < TWO_32 && |data| < TWO_32
    ensures SetData(o, pos, data)
         == o.(omap := o.omap[pos := Entry(false, true, [], |o.bytes|, |data|)], bytes := o.bytes + data)
  {
    assert data[..|data|] == data;
    assert Overwrite(o.bytes, |o.bytes|, data) == o.bytes + data;
  }

  lemma {:induction false} SetDataValid(o: Obj, pos: nat, data: Bytes)
    requires o.EntriesOk() && o.Apart() && pos !in o.omap && (o.Spills(data) ==> |o.bytes| < TWO_32 && |data| < TWO_32)
    ensures SetData(o, pos, data).EntriesOk() && SetData(o, pos, data).Apart()
  {
    if o.Spills(data) { SpillAppends(o, pos, data); }
    hide Overwrite;
  }

  lemma {:induction false} SetDataCell(o: Obj, pos: nat, data: Bytes, p: nat)
    requires o.EntriesOk() && pos !in o.omap && !o.Covered(pos) && (o.Spills(data) ==> |o.bytes| < TWO_32 && |data| < TWO_32)
    ensures SetData(o, pos, data).Cell(p) == if p == pos then Data(data) else o.Cell(p)
  {
    if o.Spills(data) {
      SpillAppends(o, pos, data);
      hide Overwrite, Slice;
      if p == pos {
        SliceAppend(o.bytes, data, 0, 0);
      } else if o.Live(p) && o.omap[p].bytestream {
        SliceAppend(o.bytes, data, o.omap[p].offset, o.omap[p].length);
      }
    }
  }

  /** What a call should reply and leave behind at `p`. */
  ghost predicate Means(o: Obj, op: Op, p: nat, reply: Reply, o': Obj)
    requires Guarded(op)
  {
    && reply == Answer(o.Cell(op.pos), op)
    && o'.Cell(p) == (if reply.ret.Success? then Next(o.Cell(p), op, p) else o.Cell(p))
    && o'.header.epoch == o.header.epoch
  }

  lemma {:induction false} WriteMeans(o: Obj, op: Op, p: nat)
    requires op.Write? && o.EntriesOk() && Allowed(o, op)
    ensures Means(o, op, p, Admitted(o, op).0, Admitted(o, op).1)
  {
    hide Slice, SetData, Obj.EntriesOk;
    if !o.Covered(op.pos) && op.pos !in o.omap {
      SetDataCell(o, op.pos, op.data, p);
      assert SetData(o, op.pos, op.data).header == o.header by { SetDataHeader(o, op.pos, op.data); }
    }
  }

  lemma {:induction false} SetDataHeader(o: Obj, pos: nat, data: Bytes)
    ensures SetData(o, pos, data).header == o.header
  {
    hide Overwrite;
  }

  lemma {:induction false} ReadMeans(o: Obj, op: Op, p: nat)
    requires op.Read? && o.EntriesOk()
    ensures Means(o, op, p, Admitted(o, op).0, Admitted(o, op).1)
  {
    hide Slice;
  }

  lemma {:induction false} InvalidateMeans(o: Obj, op: Op, p: nat)
    requires op.Fill? || (op.Trim? && !op.limit)
    ensures Means(o, op, p, Admitted(o, op).0, Admitted(o, op).1)
  {
    hide Slice, Reclaim;
  }

  lemma {:induction false} LimitMeans(o: Obj, op: Op, p: nat)
    requires op.Trim? && op.limit && Allowed(o, op)
    ensures Means(o, op, p, Admitted(o, op).0, Admitted(o, op).1)
  {
    hide Slice, Invalidate;
  }

  /** Calls act on the addressed position as the contract says... */
  lemma {:induction false} AdmittedMeans(o: Obj, op: Op, p: nat)
    requires Guarded(op) && o.Valid() && Allowed(o, op)
    ensures var (reply, o') := Admitted(o, op);
            && reply == Answer(o.Cell(op.pos), op)
            && o'.Cell(p) == (if reply.ret.Success? then Next(o.Cell(p), op, p) else o.Cell(p))
            && o'.header.epoch == o.header.epoch
  {
    hide Admitted, Allowed, Obj.EntriesOk, Obj.Apart, Obj.HeaderOk, Obj.Cell, Answer, Next;
    match op {
      case Write(_, _, _) => WriteMeans(o, op, p);
      case Read(_, _) => ReadMeans(o, op, p);
      case Fill(_, _) => InvalidateMeans(o, op, p);
      case Trim(_, _, limit, _) =>
        if limit { LimitMeans(o, op, p); } else { InvalidateMeans(o, op, p); }
    }
  }

  /** Entries may go, become invalid or get covered. */
  lemma {:induction false} FewerLive(o: Obj, o': Obj)
    requires o.EntriesOk() && o.Apart() && o'.bytes == o.bytes
    requires forall p :: p in o'.omap ==> o'.omap[p] == HOLE || (p in o.omap && o'.omap[p].(invalid := o.omap[p].invalid) == o.omap[p])
    requires forall p :: o'.Live(p) ==> o.Live(p) && o'.omap[p] == o.omap[p]
    ensures o'.EntriesOk() && o'.Apart()
  {
    hide Obj.Live;
  }

  lemma {:induction false} AdmittedEntries(o: Obj, op: Op)
    requires Guarded(op) && o.EntriesOk() && o.Apart() && Allowed(o, op)
    ensures Admitted(o, op).1.EntriesOk() && Admitted(o, op).1.Apart()
  {
    hide Overwrite, Obj.EntriesOk, Obj.Apart;
    var o' := Admitted(o, op).1;
    match op {
      case Write(_, pos, data) =>
        if !o.Covered(pos) && pos !in o.omap {
          SetDataValid(o, pos, data);
          hide SetData;
          FewerLive(SetData(o, pos, data), o');
        }
      case Trim(_, pos, true, true) =>
        assert o'.omap == map[];
        assert o'.EntriesOk() && o'.Apart() by { NothingLive(o'); }
      case _ => FewerLive(o, o');
    }
  }

  lemma {:induction false} NothingLive(o: Obj)
    requires o.omap == map[]
    ensures o.EntriesOk() && o.Apart()
  {
  }

  lemma {:induction false} AdmittedHeader(o: Obj, op: Op)
    requires Guarded(op) && o.HeaderOk() && Allowed(o, op)
    ensures var (reply, o') := Admitted(o, op);
            && o'.HeaderOk()
            && o'.header.Max() == (if reply.ret.Success? then NextTop(o.header.Max(), op) else o.header.Max())
  {
    hide Overwrite, Slice, Obj.Payload;
    match op {
      case Write(_, pos, data) =>
        var o1 := SetData(o, pos, data);
        assert o1.omap.Keys == o.omap.Keys + {pos} && o1.header == o.header;
        hide SetData;
      case _ =>
    }
  }

  /** ... keep live extents in bounds and apart, and the highest position a running maximum. */
  lemma {:induction false} AdmittedTop(o: Obj, op: Op)
    requires Guarded(op) && o.Valid() && Allowed(o, op)
    ensures var (reply, o') := Admitted(o, op);
            && o'.Valid()
            && o'.header.Max() == (if reply.ret.Success? then NextTop(o.header.Max(), op) else o.header.Max())
  {
    hide Admitted, Obj.EntriesOk, Obj.Apart, Obj.HeaderOk;
    AdmittedEntries(o, op);
    AdmittedHeader(o, op);
  }

  // ----- the limits of the representation --------------------------------------------------------

  /** A full trim fails exactly if an entry lies above its position; the positions are trimmed either way. */
  lemma {:induction false} FullTrimFailsIff(o: Obj, op: Op)
    requires o.Valid() && op.Trim? && op.limit && op.full && op.pos < TWO_63
    ensures var (reply, o') := Admitted(o, op);
            && (reply == Code(Success) <==> forall q :: q in o.omap ==> q <= op.pos)
            && (reply != Code(Success) ==> reply == Code(EIO))
            && (forall p: nat :: o'.Cell(p) == Next(o.Cell(p), op, p))
            && (forall q :: q in o'.omap <==> q in o.omap && q > op.pos)
  {
    hide Slice;
    assert o.Above(op.pos) == map[] <==> forall q :: q in o.omap ==> q <= op.pos by {
      if q :| q in o.omap && q > op.pos { assert q in o.Above(op.pos); }
    }
    var o1 := o.(header := o.header.UpdateLimit(op.pos));
    assert o1.Above(op.pos) == o.Above(op.pos);
  }
}

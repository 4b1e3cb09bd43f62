/**
  The contract of the storage interface (src/include/zlog/backend.h): every log position is a small
  state machine, an object guards its positions with an epoch, and it remembers the highest position
  it was ever told about. Both backends are shown to behave like this.
  */
module Cells {
  import opened Common

  /** What a log position holds. */
  datatype Cell = Unwritten | Data(bytes: Bytes) | Invalid

  /** Calls on one object. `omapMax` is the Ceph backend's configuration, sent along when sealing. */
  datatype Op =
    | Seal(epoch: nat, omapMax: Option<nat>)
    | Write(epoch: nat, pos: nat, data: Bytes)
    | Read(epoch: nat, pos: nat)
    | Fill(epoch: nat, pos: nat)
    | Trim(epoch: nat, pos: nat, limit: bool, full: bool)
    | MaxPos

  /** `data` is meaningful for a successful read, `max` for a successful `MaxPos`. */
  datatype Reply = Reply(ret: Ret, data: Bytes, max: Option<nat>)

  function Code(ret: Ret): Reply {
    Reply(ret, [], None)
  }

  /** Calls that carry an epoch to be compared with the object's. */
  predicate Guarded(op: Op) {
    op.Write? || op.Read? || op.Fill? || op.Trim?
  }

  /** The checks before the object's content matters; `stored` is its epoch, if it exists. */
  function Guard(stored: Option<nat>, op: Op): Ret
    requires Guarded(op)
  {
    if op.Trim? && op.full && !op.limit then EINVAL
    else if op.epoch == 0 then EINVAL
    else if stored.None? then ENOENT
    else if op.epoch < stored.value then ESPIPE
    else Success
  }

  /** The reply of an admitted call, from the cell it addresses. */
  function Answer(c: Cell, op: Op): Reply
    requires Guarded(op)
  {
    match op
    case Write(_, _, _) => Code(if c.Unwritten? then Success else EROFS)
    case Read(_, _) =>
      (match c
       case Unwritten => Code(ERANGE)
       case Invalid => Code(ENODATA)
       case Data(bytes) => Reply(Success, bytes, None))
    case Fill(_, _) => Code(if c.Data? then EROFS else Success)
    case Trim(_, _, _, _) => Code(Success)
  }

  /** Position `p` after a successful call. */
  function Next(c: Cell, op: Op, p: nat): Cell
    requires Guarded(op)
  {
    match op
    case Write(_, pos, data) => if p == pos && c.Unwritten? then Data(data) else c
    case Read(_, _) => c
    case Fill(_, pos) => if p == pos && c.Unwritten? then Invalid else c
    case Trim(_, pos, limit, _) => if p == pos || (limit && p <= pos) then Invalid else c
  }

  /** The highest position named by a successful write, fill or trim, updated by one more call. */
  function NextTop(top: Option<nat>, op: Op): Option<nat>
    requires Guarded(op)
  {
    if op.Read? then top
    else Some(if top.Some? then Max(top.value, op.pos) else op.pos)
  }

  /** The order in which a position moves: it never goes back. */
  predicate Later(c: Cell, d: Cell) {
    c == d || c.Unwritten? || d.Invalid?
  }
}

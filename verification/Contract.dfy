/**
  The storage contract of one object as a machine over whole runs: an epoch, and the log of the
  successful calls. What a position holds and what `MaxPos` reports are folds over that log.
  */
module Contract {
  import opened Common
  import opened Cells

  /** `epoch` is none until the object is sealed for the first time. */
  datatype Spec = Spec(epoch: Option<nat>, log: seq<Op>)

  const ABSENT := Spec(None, [])

  /** What position `p` holds after the calls of `log`. */
  function Fold(log: seq<Op>, p: nat): Cell {
    if log == [] then Unwritten
    else
      var before, last := Fold(log[..|log| - 1], p), log[|log| - 1];
      if Guarded(last) then Next(before, last, p) else before
  }

  function FoldTop(log: seq<Op>): Option<nat> {
    if log == [] then None
    else
      var before, last := FoldTop(log[..|log| - 1]), log[|log| - 1];
      if Guarded(last) then NextTop(before, last) else before
  }

  function Run(sp: Spec, op: Op): (Reply, Spec) {
    match op
    case MaxPos => (if sp.epoch.None? then Code(ENOENT) else Reply(Success, [], FoldTop(sp.log)), sp)
    case Seal(epoch, _) =>
      if epoch == 0 then (Code(EINVAL), sp)
      else if sp.epoch.Some? && epoch <= sp.epoch.value then (Code(ESPIPE), sp)
      else (Code(Success), sp.(epoch := Some(epoch)))
    case _ =>
      var g := Guard(sp.epoch, op);
      if !g.Success? then (Code(g), sp)
      else
        var reply := Answer(Fold(sp.log, op.pos), op);
        (reply, if reply.ret.Success? && !op.Read? then sp.(log := sp.log + [op]) else sp)
  }

  lemma {:induction false} FoldSnoc(log: seq<Op>, op: Op, p: nat)
    requires Guarded(op)
    ensures Fold(log + [op], p) == Next(Fold(log, p), op, p)
    ensures FoldTop(log + [op]) == NextTop(FoldTop(log), op)
  {
    assert (log + [op])[..|log|] == log;
  }

  /** Calls that leave a trace. */
  predicate Marks(log: seq<Op>) {
    forall k :: 0 <= k < |log| ==> Guarded(log[k]) && !log[k].Read?
  }

  /**
    `MaxPos` is the running maximum: nothing exactly if there was no successful write, fill or trim,
    and otherwise the highest position (or limit) that one of them named.
    */
  lemma {:induction false} TopIsMaximum(log: seq<Op>)
    requires Marks(log)
    ensures FoldTop(log).None? <==> log == []
    ensures FoldTop(log).Some? ==> forall k :: 0 <= k < |log| ==> log[k].pos <= FoldTop(log).value
    ensures FoldTop(log).Some? ==> exists k :: 0 <= k < |log| && log[k].pos == FoldTop(log).value
    decreases |log|
  {
    if log != [] {
      var n := |log| - 1;
      var rest := log[..n];
      TopIsMaximum(rest);
      assert forall k :: 0 <= k < n ==> rest[k] == log[k];
      if FoldTop(rest).Some? && FoldTop(rest).value >= log[n].pos {
        var k :| 0 <= k < n && rest[k].pos == FoldTop(rest).value;
        assert log[k].pos == FoldTop(log).value;
      } else {
        assert log[n].pos == FoldTop(log).value;
      }
    }
  }

  /** A position is invalid for ever once it is, and data stays until it is trimmed. */
  lemma {:induction false} FoldLater(log: seq<Op>, more: seq<Op>, p: nat)
    requires log <= more
    ensures Later(Fold(log, p), Fold(more, p))
    decreases |more|
  {
    if log == more {
      assert log == more;
    } else {
      var n := |more| - 1;
      assert log <= more[..n];
      FoldLater(log, more[..n], p);
    }
  }
}

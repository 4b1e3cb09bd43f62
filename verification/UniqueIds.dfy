/**
  Unique numbers for clients (CephBackend::uniqueId in src/storage/ceph/ceph.cc over unique_id_write in
  src/storage/ceph/cls_zlog.cc): read the stored number, then write its successor if nobody else did.
  */
module UniqueIds {
  import opened Common

  /** One call of uniqueId: it has yet to read, it has read, or it has returned. */
  datatype Caller = Reading | Writing(next: nat) | Returned(id: nat)

  /** The stored number is none until the first write. */
  datatype State = State(stored: Option<nat>, callers: seq<Caller>)

  datatype Step = Join | Run(i: nat)

  /** unique_id_write: the successor of the stored number is accepted, anything else is stale. */
  function Write(stored: Option<nat>, id: nat): (bool, Option<nat>) {
    var expected := (if stored.Some? then stored.value else 0) + 1;
    if id == expected then (true, Some(expected)) else (false, stored)
  }

  function Do(s: State, step: Step): State {
    match step
    case Join => s.(callers := s.callers + [Reading])
    case Run(i) =>
      if i >= |s.callers| then s
      else
        match s.callers[i]
        case Reading => s.(callers := s.callers[i := Writing((if s.stored.Some? then s.stored.value else 0) + 1)])
        case Writing(next) =>
          var (ok, stored) := Write(s.stored, next);
          State(stored, s.callers[i := if ok then Returned(next) else Reading])
        case Returned(_) => s
  }

  function Reached(steps: seq<Step>): State {
    if steps == [] then State(None, []) else Do(Reached(steps[..|steps| - 1]), steps[|steps| - 1])
  }

  /** Returned numbers are at most the stored one, and no two are equal. */
  ghost predicate Inv(s: State) {
    && (s.stored.Some? ==> s.stored.value > 0)
    && (forall i :: 0 <= i < |s.callers| && s.callers[i].Returned? ==>
          s.stored.Some? && 0 < s.callers[i].id <= s.stored.value)
    && (forall i, j :: 0 <= i < j < |s.callers| && s.callers[i].Returned? && s.callers[j].Returned? ==>
          s.callers[i].id != s.callers[j].id)
  }

  lemma {:induction false} InvKept(s: State, step: Step)
    requires Inv(s)
    ensures Inv(Do(s, step))
  {
  }

  lemma {:induction false} InvReached(steps: seq<Step>)
    ensures Inv(Reached(steps))
    decreases |steps|
  {
    if steps != [] {
      InvReached(steps[..|steps| - 1]);
      InvKept(Reached(steps[..|steps| - 1]), steps[|steps| - 1]);
    }
  }

  /** In every interleaving two calls return different numbers, none of them 0. */
  lemma {:induction false} IdsDistinct(steps: seq<Step>, i: nat, j: nat)
    requires i < |Reached(steps).callers| && j < |Reached(steps).callers| && i != j
    requires Reached(steps).callers[i].Returned? && Reached(steps).callers[j].Returned?
    ensures Reached(steps).callers[i].id != Reached(steps).callers[j].id
    ensures Reached(steps).callers[i].id > 0
  {
    InvReached(steps);
    hide Reached;
  }
}

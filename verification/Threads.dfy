/** What clients and threads know, and why no step of another thread takes it away. */
module Threads {
  import opened Common
  import opened Stripes
  import opened PlainLists
  import opened ObjectMaps
  import opened MapTo
  import opened Views
  import opened Cells
  import opened Protocol
  import opened History
  import opened Handoff

  /** The view makes the client with this token the sequencer. */
  predicate Ours(v: View, token: nat) {
    v.config.Some? && v.config.value.token == token
  }

  // ----- clients ---------------------------------------------------------------------------------

  /** A sequencer was created for the configuration of the view of its epoch. */
  ghost predicate SequencerOk(views: seq<View>, token: nat, q: Sequencer) {
    && 1 <= q.epoch <= |views| && Ours(views[q.epoch - 1], token)
    && views[q.epoch - 1].config.value.position <= q.position
  }

  /** A client's view has a sequencer exactly if the client may sequence, made for its configuration. */
  ghost predicate HeldOk(views: seq<View>, client: Client, token: nat, v: VersionedView) {
    && Committed(views, v)
    && (v.sequencer.Some? <==> Ours(v.view, token))
    && (v.sequencer.Some? ==>
          && v.sequencer.value < |client.sequencers|
          && var e := client.sequencers[v.sequencer.value].epoch;
             1 <= e <= v.epoch && views[e - 1].config == v.view.config)
  }

  ghost predicate ClientOk(views: seq<View>, client: Client, token: nat) {
    && (client.view.Some? ==> HeldOk(views, client, token, client.view.value))
    && (client.fetched.Some? ==>
          && 1 <= client.fetched.value.0 <= |views| && client.fetched.value.1 == views[client.fetched.value.0 - 1]
          && (client.view.Some? ==> client.view.value.epoch <= client.fetched.value.0))
    && (client.sequencers != [] ==> client.view.Some?)
    && (forall i :: 0 <= i < |client.sequencers| ==>
          SequencerOk(views, token, client.sequencers[i]) && client.sequencers[i].epoch <= client.view.value.epoch)
    && OnePerConfig(views, client.sequencers)
  }

  /** Later sequencers are for later configurations: one sequencer for each configuration. */
  ghost predicate OnePerConfig(views: seq<View>, sequencers: seq<Sequencer>) {
    forall i, j :: 0 <= i < j < |sequencers| ==> ConfigEpoch(views, sequencers[i]) < ConfigEpoch(views, sequencers[j])
  }

  /** The epoch of the configuration a sequencer was created for. */
  function ConfigEpoch(views: seq<View>, q: Sequencer): nat {
    if 1 <= q.epoch <= |views| && views[q.epoch - 1].config.Some? then views[q.epoch - 1].config.value.epoch else 0
  }

  /** A client keeps its sequencers; their positions only move up. */
  ghost predicate ClientGrows(a: Client, b: Client) {
    && |a.sequencers| <= |b.sequencers|
    && forall i :: 0 <= i < |a.sequencers| ==>
         b.sequencers[i].epoch == a.sequencers[i].epoch && a.sequencers[i].position <= b.sequencers[i].position
  }

  // ----- threads ---------------------------------------------------------------------------------

  /** A position held by an append came from a sequencer of this client. */
  ghost predicate PositionOk(views: seq<View>, token: nat, pos: (nat, nat)) {
    && 1 <= pos.0 <= |views| && Ours(views[pos.0 - 1], token)
    && views[pos.0 - 1].config.value.position <= pos.1
  }

  ghost predicate AppendOk(views: seq<View>, client: Client, token: nat, task: Task)
    requires task.Append?
  {
    && (task.pos.Some? ==> PositionOk(views, token, task.pos.value))
    && match task.apc
       case ATail(v) => HeldOk(views, client, token, v) && v.sequencer.Some?
       case ACall(v) => Committed(views, v) && task.pos.Some? && views[task.pos.value.0 - 1].config == v.view.config
       case ASeal(v) => Committed(views, v) && task.pos.Some? && views[task.pos.value.0 - 1].config == v.view.config
       case _ => true
  }

  /** The positions up to `limit` in the stripes below `k`, and in the first `i` targets of `k`, are invalid. */
  ghost predicate TrimmedTo(hist: seq<Event>, l: seq<Stripe>, limit: nat, k: nat, i: nat)
    requires WellFormed(l) && k <= |l|
  {
    && (forall p: nat :: p <= limit && p < Top(l, k) ==> Replay(hist, p) == Invalid)
    && (i > 0 ==> k < |l| && i <= |Targets(l[k], limit)|)
    && (forall j, p: nat :: 0 <= j < i && p <= limit && Holds(l, Targets(l[k], limit)[j].0, p) ==>
          Replay(hist, p) == Invalid)
  }

  ghost predicate TrimToOk(core: Core, limit: nat, pc: TrimToPc) {
    match pc
    case TScan(v, k, i) =>
      var l := v.view.Stripes();
      Committed(core.views, v) && limit < Top(l, |l|) && k <= |l| && TrimmedTo(core.hist, l, limit, k, i)
    case TSeal(v, oid) => Committed(core.views, v) && Owns(v.view.Stripes(), oid)
    case TDone(ret) => ret.Success? ==> forall p: nat :: p <= limit ==> Replay(core.hist, p) == Invalid
    case TStart => true
  }

  ghost predicate TaskOk(core: Core, client: Client, token: nat, task: Task) {
    match task
    case Append(_, _, _) => AppendOk(core.views, client, token, task)
    case Point(_, _, pc) =>
      (match pc case PCall(v) => Committed(core.views, v) case PSeal(v) => Committed(core.views, v) case _ => true)
    case TrimTo(limit, pc) => TrimToOk(core, limit, pc)
    case Propose(pc) => ProposeOk(core, pc)
    case Update(change, pc) =>
      && (change.Expanding? ==> change.options.Valid())
      && (match pc
          case UCas(v, next) => Committed(core.views, v) && Changed(v.view, change) == Some(next)
          case _ => true)
    case Init(_, pc) => (match pc case ISeal(v, _, _) => Committed(core.views, v) case _ => true)
    case Tail(_, pc) =>
      (match pc case LTake(v) => HeldOk(core.views, client, token, v) && v.sequencer.Some? case _ => true)
  }

  // ----- stability -------------------------------------------------------------------------------

  /** Invalid positions stay invalid. */
  lemma {:induction false} InvalidLasts(a: Core, b: Core, p: nat)
    requires Grows(a, b) && Replay(a.hist, p) == Invalid
    ensures Replay(b.hist, p) == Invalid
  {
    if b.hist != a.hist {
      assert b.hist == a.hist + [b.hist[|a.hist|]];
      ReplaySnoc(a.hist, b.hist[|a.hist|], p);
    }
  }

  lemma {:induction false} TrimToLasts(a: Core, b: Core, limit: nat, pc: TrimToPc)
    requires Grows(a, b) && TrimToOk(a, limit, pc)
    ensures TrimToOk(b, limit, pc)
  {
    forall p: nat | Replay(a.hist, p) == Invalid ensures Replay(b.hist, p) == Invalid {
      InvalidLasts(a, b, p);
    }
    hide Replay, View.Stripes, ObjectMap.Good, Fits, WellFormed, Holds, Targets;
  }

  lemma {:induction false} AppendLasts(a: seq<View>, b: seq<View>, client: Client, client': Client, token: nat, task: Task)
    requires task.Append? && a <= b && ClientGrows(client, client') && AppendOk(a, client, token, task)
    ensures AppendOk(b, client', token, task)
  {
    hide ObjectMap.Good;
  }

  lemma {:induction false} TaskLasts(a: Core, b: Core, client: Client, client': Client, token: nat, task: Task)
    requires ViewsOk(a.views) && Grows(a, b) && ClientGrows(client, client') && TaskOk(a, client, token, task)
    ensures TaskOk(b, client', token, task)
  {
    hide ViewsOk, ProposeOk, TrimToOk, AppendOk, Changed, Fits, ObjectMap.Good;
    match task {
      case Append(_, _, _) => AppendLasts(a.views, b.views, client, client', token, task);
      case TrimTo(limit, pc) => TrimToLasts(a, b, limit, pc);
      case Propose(pc) => ProposeLasts(a, b, pc);
      case _ =>
    }
  }

  lemma {:induction false} ClientLasts(a: seq<View>, b: seq<View>, client: Client, token: nat)
    requires a <= b && ClientOk(a, client, token)
    ensures ClientOk(b, client, token)
  {
    hide ObjectMap.Good;
    forall i, j | 0 <= i < j < |client.sequencers|
      ensures ConfigEpoch(b, client.sequencers[i]) < ConfigEpoch(b, client.sequencers[j])
    {
      assert SequencerOk(a, token, client.sequencers[i]) && SequencerOk(a, token, client.sequencers[j]);
      assert ConfigEpoch(a, client.sequencers[i]) < ConfigEpoch(a, client.sequencers[j]);
    }
  }
}

/**
  Clients of a log as a state machine (src/libzlog/log_impl.cc, view_manager.cc, view_reader.cc).

  Shared state is the head object's list of views and the store of log objects. A client holds its
  installed view, the sequencers it created, and any number of threads that run operations. Every
  backend call is one atomic step, as is every access to state that a client's threads share. Steps
  of all threads interleave freely; a thread that is never scheduled again has crashed.

  Two simplifications add behaviours and remove none: waiting for a newer view may end at any time,
  and an operation that calls `try_expand_view` or `advance_min_valid_position` leaves that to an
  `Update` thread, which may be started at any time.
  */
module Protocol {
  import opened Common
  import opened Stripes
  import opened PlainLists
  import opened ObjectMaps
  import opened MapTo
  import opened Views
  import opened Cells
  import opened Ram

  /** `VersionedView`: `seq` is the index of the client's sequencer, if it may sequence. */
  datatype VersionedView = VersionedView(epoch: nat, view: View, sequencer: Option<nat>)

  datatype Sequencer = Sequencer(epoch: nat, position: nat)

  /** `fetched` is what `refresh_view` has read and not yet installed. A client's token is its index. */
  datatype Client = Client(
    view: Option<VersionedView>, fetched: Option<(nat, View)>, sequencers: seq<Sequencer>)

  /** AppendOp: `pos` is the pair of `position_epoch_` and `position_`. */
  datatype AppendPc = AStart | ATail(v: VersionedView) | ACall(v: VersionedView) | ASeal(v: VersionedView) | ADone(ret: Ret)

  datatype PointKind = PFill | PTrim | PRead

  /** FillOp, TrimOp and ReadOp. */
  datatype PointPc = PStart | PCall(v: VersionedView) | PSeal(v: VersionedView) | PDone(reply: Reply)

  /** TrimToOp: `k` is the stripe and `i` the next of its targets. */
  datatype TrimToPc = TStart | TScan(v: VersionedView, k: nat, i: nat) | TSeal(v: VersionedView, oid: Oid) | TDone(ret: Ret)

  /**
    propose_sequencer: seal the objects of stripe `k`, then ask them for their highest position. `won` is
    the epoch of the view that the operation has committed when it returns 0.
    */
  datatype ProposePc =
    | QStart
    | QSeal(v: VersionedView, k: nat, i: nat)
    | QMax(v: VersionedView, k: nat, i: nat, max: Option<nat>)
    | QCas(v: VersionedView, seed: nat)
    | QDone(won: Option<nat>)

  /** try_expand_view and advance_min_valid_position. */
  datatype Change = Expanding(p: nat, options: Options) | Advancing(p: nat)
  datatype UpdatePc = UStart | UCas(v: VersionedView, next: View) | UDone

  /** stripe_init_entry_. `stripe` is the one whose objects were initialised. */
  datatype InitPc = IStart | ISeal(v: VersionedView, k: nat, i: nat) | IDone(stripe: Option<nat>)

  /** TailOp: look at the sequencer's position, and take it if asked to. */
  datatype LookPc = LStart | LTake(v: VersionedView) | LDone(ret: Ret, tail: Option<nat>)

  datatype Task =
    | Append(data: Bytes, pos: Option<(nat, nat)>, apc: AppendPc)
    | Point(kind: PointKind, at: nat, ppc: PointPc)
    | TrimTo(upTo: nat, tpc: TrimToPc)
    | Propose(qpc: ProposePc)
    | Update(change: Change, upc: UpdatePc)
    | Init(target: nat, ipc: InitPc)
    | Tail(increment: bool, lpc: LookPc)

  datatype Thread = Thread(client: nat, task: Task)

  /** A successful write, fill or trim: the call, the object, and the positions it was about. */
  datatype Event = Event(op: Op, oid: Oid, where: set<nat>, thread: nat)

  /** A position handed out by sequencer `index` of a client. */
  datatype Issue = Issue(client: nat, index: nat, pos: nat)

  /** What the clients share, with the history of what was done to the log. */
  datatype Core = Core(views: seq<View>, store: Store, hist: seq<Event>)

  datatype State = State(core: Core, clients: seq<Client>, threads: seq<Thread>, issued: seq<Issue>)

  // ----- effects ---------------------------------------------------------------------------------

  /** The positions of an object that a call is about. */
  function Touched(l: seq<Stripe>, oid: Oid, op: Op): set<nat>
    requires WellFormed(l) && Guarded(op)
  {
    set p: nat | 0 <= p <= op.pos && Holds(l, oid, p) && (p == op.pos || (op.Trim? && op.limit))
  }

  /** A backend call on a log object by a thread that works in view `v`. */
  function CallObject(core: Core, v: View, oid: Oid, op: Op, t: nat): (Reply, Core) {
    var (reply, store) := Apply(core.store, oid, op);
    var hist := if (op.Write? || op.Fill? || op.Trim?) && reply.ret.Success?
                then core.hist + [Event(op, oid, Touched(v.Stripes(), oid, op), t)]
                else core.hist;
    (reply, core.(store := store, hist := hist))
  }

  /** `ProposeView`: compare and swap on the epoch. */
  function CallPropose(core: Core, epoch: nat, next: View): (Ret, Core) {
    if epoch == |core.views| + 1 then (Success, core.(views := core.views + [next]))
    else (if 0 < epoch <= |core.views| then ESPIPE else EINVAL, core)
  }

  // ----- one step of each operation --------------------------------------------------------------

  /** AppendOp::run. `fail` chooses whether a failing `try_expand_view` ends the operation. */
  function StepAppend(core: Core, client: Client, task: Task, t: nat, fail: bool): (Core, Task)
    requires task.Append?
  {
    match task.apc
    case AStart =>
      if client.view.None? then (core, task)
      else if client.view.value.sequencer.None? then (core, task.(apc := ADone(EIO)))
      else (core, task.(apc := ATail(client.view.value)))
    case ACall(v) =>
      if task.pos.None? then (core, task)
      else
        var p := task.pos.value.1;
        (match Map(v.view.om, p).0
         case None => (core, task.(apc := if fail then ADone(EIO) else AStart))
         case Some(oid) =>
           var (reply, core') := CallObject(core, v.view, oid, Op.Write(v.epoch, p, task.data), t);
           (match reply.ret
            case ENOENT => (core', task.(apc := ASeal(v)))
            case ESPIPE => (core', task.(apc := AStart))
            case EROFS => (core', task.(apc := AStart, pos := None))
            case ret => (core', task.(apc := ADone(ret)))))
    case ASeal(v) =>
      if task.pos.None? then (core, task)
      else
        (match Map(v.view.om, task.pos.value.1).0
         case None => (core, task)
         case Some(oid) =>
           var (reply, core') := CallObject(core, v.view, oid, Op.Seal(v.epoch, None), t);
           (match reply.ret
            case Success => (core', task.(apc := ACall(v)))
            case ESPIPE => (core', task.(apc := AStart))
            case ret => (core', task.(apc := ADone(ret)))))
    case _ => (core, task)
  }

  /** The `check_tail` part of AppendOp: take a position unless the one at hand is of this sequencer. */
  function TakePosition(s: State, t: nat): State
    requires t < |s.threads| && s.threads[t].client < |s.clients| && s.threads[t].task.Append?
  {
    var c, task := s.threads[t].client, s.threads[t].task;
    if !task.apc.ATail? || task.apc.v.sequencer.None? || task.apc.v.sequencer.value >= |s.clients[c].sequencers| then s
    else
      var v, index := task.apc.v, task.apc.v.sequencer.value;
      var sequencer := s.clients[c].sequencers[index];
      if task.pos.Some? && task.pos.value.0 == sequencer.epoch then
        s.(threads := s.threads[t := Thread(c, task.(apc := ACall(v)))])
      else
        var p := sequencer.position;
        s.(clients := s.clients[c := Bumped(s.clients[c], index)],
           threads := s.threads[t := Thread(c, task.(pos := Some((sequencer.epoch, p)), apc := ACall(v)))],
           issued := s.issued + [Issue(c, index, p)])
  }

  /** TailOp::run up to `check_tail`. */
  function StepTail(core: Core, client: Client, task: Task): (Core, Task)
    requires task.Tail?
  {
    if !task.lpc.LStart? || client.view.None? then (core, task)
    else if client.view.value.sequencer.None? then (core, task.(lpc := LDone(EIO, None)))
    else (core, task.(lpc := LTake(client.view.value)))
  }

  /** The `check_tail` part of TailOp. */
  function LookAtTail(s: State, t: nat): State
    requires t < |s.threads| && s.threads[t].client < |s.clients| && s.threads[t].task.Tail?
  {
    var c, task := s.threads[t].client, s.threads[t].task;
    if !task.lpc.LTake? || task.lpc.v.sequencer.None? || task.lpc.v.sequencer.value >= |s.clients[c].sequencers| then s
    else
      var index := task.lpc.v.sequencer.value;
      var p := s.clients[c].sequencers[index].position;
      var seen := s.(threads := s.threads[t := Thread(c, task.(lpc := LDone(Success, Some(p))))]);
      if task.increment then
        seen.(clients := s.clients[c := Bumped(s.clients[c], index)], issued := s.issued + [Issue(c, index, p)])
      else seen
  }

  /** The client after `fetch_add` on one of its sequencers. */
  function Bumped(client: Client, index: nat): Client
    requires index < |client.sequencers|
  {
    var q := client.sequencers[index];
    client.(sequencers := client.sequencers[index := q.(position := q.position + 1)])
  }

  function PointOp(kind: PointKind, epoch: nat, p: nat): Op {
    match kind
    case PFill => Op.Fill(epoch, p)
    case PTrim => Op.Trim(epoch, p, false, false)
    case PRead => Op.Read(epoch, p)
  }

  /** FillOp::run, TrimOp::run and ReadOp::run. */
  function StepPoint(core: Core, client: Client, task: Task, t: nat, fail: bool): (Core, Task)
    requires task.Point?
  {
    match task.ppc
    case PStart =>
      if client.view.None? then (core, task) else (core, task.(ppc := PCall(client.view.value)))
    case PCall(v) =>
      (match Map(v.view.om, task.at).0
       case None => (core, task.(ppc := if fail then PDone(Code(EIO)) else PStart))
       case Some(oid) =>
         var (reply, core') := CallObject(core, v.view, oid, PointOp(task.kind, v.epoch, task.at), t);
         (match reply.ret
          case ESPIPE => (core', task.(ppc := PStart))
          case ENOENT => (core', task.(ppc := PSeal(v)))
          case ERANGE => (core', task.(ppc := PDone(Code(if task.kind.PRead? then ENOENT else ERANGE))))
          case _ => (core', task.(ppc := PDone(reply)))))
    case PSeal(v) =>
      (match Map(v.view.om, task.at).0
       case None => (core, task)
       case Some(oid) =>
         var (reply, core') := CallObject(core, v.view, oid, Op.Seal(v.epoch, None), t);
         (core', task.(ppc := if reply.ret.Success? || reply.ret.ESPIPE? then PStart else PDone(reply))))
    case PDone(_) => (core, task)
  }

  /** The targets of stripe `k`, as `map_to` reports them. */
  function TargetsAt(v: View, k: nat, limit: nat): seq<Target>
    requires k < v.om.nextStripeId
  {
    StripeIs(v, k);
    Targets(StripeById(v.om, k), limit)
  }

  /** TrimToOp::run. */
  function StepTrimTo(core: Core, client: Client, task: Task, t: nat, fail: bool): (Core, Task)
    requires task.TrimTo?
  {
    match task.tpc
    case TStart =>
      if client.view.None? then (core, task)
      else
        var v := client.view.value;
        if task.upTo >= v.view.om.minValid || Map(v.view.om, task.upTo).0.None? then
          (core, task.(tpc := if fail then TDone(EIO) else TStart))
        else (core, task.(tpc := TScan(v, 0, 0)))
    case TScan(v, k, i) =>
      if k >= v.view.om.nextStripeId then (core, task.(tpc := TDone(Success)))
      else
        var targets := TargetsAt(v.view, k, task.upTo);
        if i >= |targets| then (core, task.(tpc := TScan(v, k + 1, 0)))
        else
          var (oid, full) := targets[i];
          var (reply, core') := CallObject(core, v.view, oid, Op.Trim(v.epoch, task.upTo, true, full), t);
          (match reply.ret
           case Success => (core', task.(tpc := TScan(v, k, i + 1)))
           case ESPIPE => (core', task.(tpc := TStart))
           case ENOENT => (core', task.(tpc := TSeal(v, oid)))
           case ret => (core', task.(tpc := TDone(ret))))
    case TSeal(v, oid) =>
      var (reply, core') := CallObject(core, v.view, oid, Op.Seal(v.epoch, None), t);
      (core', task.(tpc := if reply.ret.Success? || reply.ret.ESPIPE? then TStart else TDone(reply.ret)))
    case TDone(_) => (core, task)
  }

  /** propose_sequencer with seal_stripe, for the client with token `c`. */
  function StepPropose(core: Core, client: Client, c: nat, task: Task, t: nat, fail: bool): (Core, Task)
    requires task.Propose?
  {
    match task.qpc
    case QStart =>
      if client.view.None? then (core, task)
      else
        var v := client.view.value;
        var n := v.view.om.nextStripeId;
        (core, Propose(if n == 0 then QCas(v, 0) else QSeal(v, n - 1, 0)))
    case QSeal(v, k, i) =>
      if k >= v.view.om.nextStripeId then (core, task)
      else if i >= StripeById(v.view.om, k).width then (core, Propose(QMax(v, k, 0, None)))
      else
        var (reply, core') := CallObject(core, v.view, Oid(k, i), Op.Seal(v.epoch + 1, None), t);
        (core', Propose(if reply.ret.Success? || reply.ret.ESPIPE? then QSeal(v, k, i + 1) else QDone(None)))
    case QMax(v, k, i, max) =>
      if k >= v.view.om.nextStripeId then (core, task)
      else if i >= StripeById(v.view.om, k).width then
        (core, Propose(if max.Some? then QCas(v, max.value + 1)
                       else if k == 0 then QCas(v, 0) else QSeal(v, k - 1, 0)))
      else
        var (reply, core') := CallObject(core, v.view, Oid(k, i), Op.MaxPos, t);
        (core', Propose(if !reply.ret.Success? then QDone(None) else QMax(v, k, i + 1, Highest(max, reply.max))))
    case QCas(v, seed) =>
      var config := SequencerConfig(v.epoch + 1, c, seed);
      var (ret, core') := CallPropose(core, v.epoch + 1, v.view.WithSequencer(config));
      (core', Propose(if ret.Success? then QDone(Some(v.epoch + 1))
                      else if ret.ESPIPE? && !fail then QStart else QDone(None)))
    case QDone(_) => (core, task)
  }

  function Highest(a: Option<nat>, b: Option<nat>): Option<nat> {
    if a.None? then b else if b.None? then a else Some(Max(a.value, b.value))
  }

  function Changed(v: View, change: Change): Option<View>
    requires change.Expanding? ==> change.options.Valid()
  {
    match change
    case Expanding(p, options) => v.ExpandMapping(p, options)
    case Advancing(p) => v.AdvanceMinValid(p)
  }

  function StepUpdate(core: Core, client: Client, task: Task, fail: bool): (Core, Task)
    requires task.Update? && (task.change.Expanding? ==> task.change.options.Valid())
  {
    match task.upc
    case UStart =>
      if client.view.None? then (core, task)
      else
        var next := Changed(client.view.value.view, task.change);
        (core, task.(upc := if next.None? then UDone else UCas(client.view.value, next.value)))
    case UCas(v, next) =>
      var (ret, core') := CallPropose(core, v.epoch + 1, next);
      (core', task.(upc := if ret.ESPIPE? && !fail then UStart else UDone))
    case UDone => (core, task)
  }

  function StepInit(core: Core, client: Client, task: Task, t: nat): (Core, Task)
    requires task.Init?
  {
    match task.ipc
    case IStart =>
      if client.view.None? then (core, task)
      else
        (match MapStripe(client.view.value.view.om, task.target)
         case None => (core, task.(ipc := IDone(None)))
         case Some(stripe) => (core, task.(ipc := ISeal(client.view.value, stripe.id, 0))))
    case ISeal(v, k, i) =>
      if k >= v.view.om.nextStripeId then (core, task)
      else if i >= StripeById(v.view.om, k).width then (core, task.(ipc := IDone(Some(k))))
      else (CallObject(core, v.view, Oid(k, i), Op.Seal(v.epoch, None), t).1, task.(ipc := ISeal(v, k, i + 1)))
    case IDone(_) => (core, task)
  }

  // ----- refresh_view ----------------------------------------------------------------------------

  /** The read half of `refresh_view`: `ReadViews(0, 1)`. One refresh is in flight at a time. */
  function Fetch(views: seq<View>, client: Client): Client {
    if client.fetched.Some? || |views| == 0 then client
    else client.(fetched := Some((|views|, views[|views| - 1])))
  }

  /** The other half, under the lock: install the view, reusing or creating the sequencer. */
  function Install(client: Client, token: nat): Client {
    if client.fetched.None? then client
    else
      var (epoch, view) := client.fetched.value;
      var idle := client.(fetched := None);
      if client.view.Some? && epoch == client.view.value.epoch then idle
      else if view.config.None? || view.config.value.token != token then
        idle.(view := Some(VersionedView(epoch, view, None)))
      else if client.view.Some? && client.view.value.view.config.Some?
              && client.view.value.view.config.value.token == token
              && client.view.value.view.config.value.epoch == view.config.value.epoch then
        idle.(view := Some(VersionedView(epoch, view, client.view.value.sequencer)))
      else
        idle.(view := Some(VersionedView(epoch, view, Some(|client.sequencers|))),
              sequencers := client.sequencers + [Sequencer(epoch, view.config.value.position)])
  }

  // ----- runs ------------------------------------------------------------------------------------

  datatype Step =
    | Join
    | Refresh(client: nat)
    | Installs(client: nat)
    | Start(client: nat, task: Task)
    | Run(thread: nat, fail: bool)

  /** A task that has not begun. */
  predicate Fresh(task: Task) {
    match task
    case Append(_, pos, pc) => pos.None? && pc.AStart?
    case Point(_, _, pc) => pc.PStart?
    case TrimTo(_, pc) => pc.TStart?
    case Propose(pc) => pc.QStart?
    case Update(change, pc) => pc.UStart? && (change.Expanding? ==> change.options.Valid())
    case Init(_, pc) => pc.IStart?
    case Tail(_, pc) => pc.LStart?
  }

  /** The step of a thread that does not touch its client's state. */
  function StepTask(core: Core, client: Client, c: nat, task: Task, t: nat, fail: bool): (Core, Task)
    requires task.Update? && task.change.Expanding? ==> task.change.options.Valid()
  {
    match task
    case Append(_, _, _) => StepAppend(core, client, task, t, fail)
    case Point(_, _, _) => StepPoint(core, client, task, t, fail)
    case TrimTo(_, _) => StepTrimTo(core, client, task, t, fail)
    case Propose(_) => StepPropose(core, client, c, task, t, fail)
    case Update(_, _) => StepUpdate(core, client, task, fail)
    case Init(_, _) => StepInit(core, client, task, t)
    case Tail(_, _) => StepTail(core, client, task)
  }

  /** Every thread belongs to a client, and no thread expands with an invalid configuration. */
  predicate Formed(s: State) {
    forall t :: 0 <= t < |s.threads| ==> ThreadFormed(s.threads[t], |s.clients|)
  }

  predicate ThreadFormed(th: Thread, clients: nat) {
    && th.client < clients
    && (th.task.Update? && th.task.change.Expanding? ==> th.task.change.options.Valid())
  }

  /** One step; a step that is not possible changes nothing. */
  function Do(s: State, step: Step): State {
    match step
    case Join => s.(clients := s.clients + [Client(None, None, [])])
    case Refresh(c) =>
      if c >= |s.clients| then s
      else s.(clients := s.clients[c := Fetch(s.core.views, s.clients[c])])
    case Installs(c) =>
      if c >= |s.clients| then s
      else s.(clients := s.clients[c := Install(s.clients[c], c)])
    case Start(c, task) =>
      if c >= |s.clients| || !Fresh(task) then s
      else s.(threads := s.threads + [Thread(c, task)])
    case Run(t, fail) =>
      if t >= |s.threads| || !ThreadFormed(s.threads[t], |s.clients|) then s
      else
        var c, task := s.threads[t].client, s.threads[t].task;
        if task.Append? && task.apc.ATail? then TakePosition(s, t)
        else if task.Tail? && task.lpc.LTake? then LookAtTail(s, t)
        else
          var (core, task') := StepTask(s.core, s.clients[c], c, task, t, fail);
          s.(core := core, threads := s.threads[t := Thread(c, task')])
  }

  function Begin(options: Options, withStripes: bool): State
    requires options.Valid()
  {
    State(Core([Initial(options, withStripes)], map[], []), [], [], [])
  }

  /** The state after a sequence of steps. */
  function Reached(options: Options, withStripes: bool, steps: seq<Step>): State
    requires options.Valid()
  {
    if steps == [] then Begin(options, withStripes)
    else Do(Reached(options, withStripes, steps[..|steps| - 1]), steps[|steps| - 1])
  }
}

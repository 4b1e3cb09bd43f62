/** The invariant of whole states, and that every run keeps it. */
module Runs {
  import opened Common
  import opened PlainLists
  import opened ObjectMaps
  import opened Views
  import opened Protocol
  import opened History
  import opened Handoff
  import opened Threads
  import opened TaskSteps

  /** Successful appends and recorded writes correspond one to one. */
  ghost predicate OnceOk(hist: seq<Event>, threads: seq<Thread>) {
    && (forall j :: 0 <= j < |hist| && hist[j].op.Write? ==> hist[j].thread < |threads| && WriteOf(hist[j], threads[hist[j].thread].task))
    && (forall i, j :: 0 <= i < j < |hist| && hist[i].op.Write? && hist[j].op.Write? ==> hist[i].thread != hist[j].thread)
    && (forall t: nat :: t < |threads| && Wrote(threads[t].task) ==> HasWrite(hist, t))
  }

  predicate WriteOf(ev: Event, task: Task) {
    ev.op.Write? && Wrote(task) && task.data == ev.op.data && task.pos.Some? && task.pos.value.1 == ev.op.pos
  }

  ghost predicate HasWrite(hist: seq<Event>, t: nat) {
    exists j :: 0 <= j < |hist| && hist[j].op.Write? && hist[j].thread == t
  }

  ghost predicate IssuedOk(clients: seq<Client>, issued: seq<Issue>) {
    && (forall i :: 0 <= i < |issued| ==>
          && issued[i].client < |clients|
          && issued[i].index < |clients[issued[i].client].sequencers|
          && issued[i].pos < clients[issued[i].client].sequencers[issued[i].index].position)
    && (forall i, j :: 0 <= i < j < |issued| ==> issued[i] != issued[j])
  }

  ghost predicate ThreadOk(core: Core, clients: seq<Client>, th: Thread) {
    th.client < |clients| && TaskOk(core, clients[th.client], th.client, th.task)
  }

  ghost predicate ThreadsOk(core: Core, clients: seq<Client>, threads: seq<Thread>) {
    forall t :: 0 <= t < |threads| ==> ThreadOk(core, clients, threads[t])
  }

  ghost predicate ClientsOk(views: seq<View>, clients: seq<Client>) {
    forall c: nat :: c < |clients| ==> ClientOk(views, clients[c], c)
  }

  ghost predicate Inv(s: State) {
    && CoreOk(s.core)
    && ClientsOk(s.core.views, s.clients)
    && ThreadsOk(s.core, s.clients, s.threads)
    && OnceOk(s.core.hist, s.threads)
    && IssuedOk(s.clients, s.issued)
  }

  lemma {:induction false} InvFormed(s: State)
    requires Inv(s)
    ensures Formed(s)
  {
    hide CoreOk, ClientsOk, OnceOk, IssuedOk, ProposeOk, TrimToOk, AppendOk, ObjectMap.Good;
    forall t | 0 <= t < |s.threads| ensures ThreadFormed(s.threads[t], |s.clients|) {
      assert ThreadOk(s.core, s.clients, s.threads[t]);
    }
  }

  lemma {:induction false} ThreadTask(s: State, t: nat)
    requires Inv(s) && t < |s.threads|
    ensures s.threads[t].client < |s.clients| && TaskOk(s.core, s.clients[s.threads[t].client], s.threads[t].client, s.threads[t].task)
  {
    hide CoreOk, ClientsOk, OnceOk, IssuedOk, TaskOk;
    assert ThreadOk(s.core, s.clients, s.threads[t]);
  }

  lemma {:induction false} ClientOf(s: State, c: nat)
    requires Inv(s) && c < |s.clients|
    ensures ClientOk(s.core.views, s.clients[c], c)
  {
    hide CoreOk, ThreadsOk, OnceOk, IssuedOk, ClientOk;
  }

  lemma {:induction false} ViewsGrow(a: Core, b: Core)
    requires Grows(a, b)
    ensures a.views <= b.views
  {
    hide Fits;
  }

  // ----- refresh_view ----------------------------------------------------------------------------

  lemma {:induction false} FetchOk(views: seq<View>, client: Client, token: nat)
    requires ClientOk(views, client, token)
    ensures ClientOk(views, Fetch(views, client), token) && ClientGrows(client, Fetch(views, client))
  {
    hide ObjectMap.Good, OnePerConfig, SequencerOk;
  }

  /** A sequencer is created only for a configuration that the client has no sequencer for. */
  lemma {:induction false} NewSequencer(views: seq<View>, client: Client, token: nat, i: nat, e: nat)
    requires ViewsOk(views) && ClientOk(views, client, token) && i < |client.sequencers| && 1 <= e <= |views|
    requires client.view.value.epoch < e && Ours(views[e - 1], token)
    requires !(Ours(client.view.value.view, token)
               && client.view.value.view.config.value.epoch == views[e - 1].config.value.epoch)
    ensures ConfigEpoch(views, client.sequencers[i]) < views[e - 1].config.value.epoch
  {
    hide ObjectMap.Good, OnePerConfig, Follows, ConfigOk, View.Stripes;
    var q := client.sequencers[i];
    assert SequencerOk(views, token, q) && Extends(views[q.epoch - 1], views[e - 1]);
    if ConfigEpoch(views, q) == views[e - 1].config.value.epoch {
      SameConfig(views, q.epoch - 1, e - 1, client.view.value.epoch - 1);
    }
  }

  lemma {:induction false} InstallCreates(views: seq<View>, client: Client, token: nat)
    requires ViewsOk(views) && ClientOk(views, client, token)
    requires client.fetched.Some? && Ours(client.fetched.value.1, token)
    requires client.view.Some? ==> client.view.value.epoch < client.fetched.value.0
    requires client.view.Some? && Ours(client.view.value.view, token) ==>
               client.view.value.view.config.value.epoch != client.fetched.value.1.config.value.epoch
    ensures ClientOk(views, Install(client, token), token) && ClientGrows(client, Install(client, token))
  {
    hide ObjectMap.Good, ViewsOk, View.Stripes;
    var (e, view) := client.fetched.value;
    forall i: nat | i < |client.sequencers| ensures ConfigEpoch(views, client.sequencers[i]) < view.config.value.epoch {
      NewSequencer(views, client, token, i, e);
    }
  }

  /** `refresh_view` installs a newer view and reuses the sequencer of the installed one. */
  predicate Reuses(client: Client, token: nat) {
    && client.fetched.Some? && client.view.Some? && client.fetched.value.0 != client.view.value.epoch
    && Ours(client.fetched.value.1, token) && Ours(client.view.value.view, token)
    && client.view.value.view.config.value.epoch == client.fetched.value.1.config.value.epoch
  }

  lemma {:induction false} InstallReuses(views: seq<View>, client: Client, token: nat)
    requires ViewsOk(views) && ClientOk(views, client, token)
    requires client.fetched.Some? && Ours(client.fetched.value.1, token)
    requires client.view.Some? && client.view.value.epoch < client.fetched.value.0 && Ours(client.view.value.view, token)
    requires client.view.value.view.config.value.epoch == client.fetched.value.1.config.value.epoch
    ensures ClientOk(views, Install(client, token), token) && ClientGrows(client, Install(client, token))
    ensures client.view.value.sequencer.Some?
  {
    hide ObjectMap.Good, ViewsOk, OnePerConfig, SequencerOk, View.Stripes;
    SameConfig(views, client.view.value.epoch - 1, client.fetched.value.0 - 1, client.fetched.value.0 - 1);
  }

  /** Installing a view keeps a client in order; the assertions of `refresh_view` hold. */
  lemma {:induction false} InstallOk(views: seq<View>, client: Client, token: nat)
    requires ViewsOk(views) && ClientOk(views, client, token)
    ensures ClientOk(views, Install(client, token), token) && ClientGrows(client, Install(client, token))
    ensures client.view.Some? && client.fetched.Some? ==> client.view.value.epoch <= client.fetched.value.0
    ensures Reuses(client, token) ==> client.view.value.sequencer.Some?
  {
    hide ObjectMap.Good, ViewsOk, OnePerConfig, SequencerOk, View.Stripes;
    if client.fetched.None? || (client.view.Some? && client.fetched.value.0 == client.view.value.epoch) {
    } else if !Ours(client.fetched.value.1, token) {
    } else if client.view.Some? && Ours(client.view.value.view, token)
              && client.view.value.view.config.value.epoch == client.fetched.value.1.config.value.epoch {
      InstallReuses(views, client, token);
    } else {
      InstallCreates(views, client, token);
    }
  }

  // ----- one step of a state ---------------------------------------------------------------------

  /** A client changes on its own: it fetches or installs a view. */
  lemma {:induction false} ClientChanges(s: State, c: nat, client: Client)
    requires Inv(s) && c < |s.clients| && ClientOk(s.core.views, client, c) && ClientGrows(s.clients[c], client)
    ensures Inv(s.(clients := s.clients[c := client]))
  {
    hide CoreOk, OnceOk, TaskOk, ClientOk;
    var s' := s.(clients := s.clients[c := client]);
    GrowsRefl(s.core);
    CoreViews(s.core);
    forall t | 0 <= t < |s'.threads| ensures ThreadOk(s'.core, s'.clients, s'.threads[t]) {
      var th := s.threads[t];
      assert ThreadOk(s.core, s.clients, th);
      if th.client == c {
        TaskLasts(s.core, s.core, s.clients[c], client, c, th.task);
      }
    }
  }

  lemma {:induction false} OthersKeep(s: State, t: nat, core: Core, task: Task)
    requires Inv(s) && t < |s.threads| && Grows(s.core, core)
    requires var c := s.threads[t].client; c < |s.clients| && TaskOk(core, s.clients[c], c, task)
    ensures ThreadsOk(core, s.clients, s.threads[t := Thread(s.threads[t].client, task)])
  {
    CoreViews(s.core);
    hide CoreOk, OnceOk, TaskOk, ClientOk, Grows, IssuedOk;
    var threads := s.threads[t := Thread(s.threads[t].client, task)];
    forall u | 0 <= u < |threads| ensures ThreadOk(core, s.clients, threads[u]) {
      if u != t {
        var th := s.threads[u];
        assert ThreadOk(s.core, s.clients, th);
        TaskLasts(s.core, core, s.clients[th.client], s.clients[th.client], th.client, th.task);
      }
    }
  }

  /** Appends stay in step with the recorded writes. */
  lemma {:induction false} OnceKept(a: Core, b: Core, threads: seq<Thread>, t: nat, task: Task)
    requires OnceOk(a.hist, threads) && t < |threads| && Grows(a, b) && Honest(a, b, threads[t].task, task, t)
    ensures OnceOk(b.hist, threads[t := Thread(threads[t].client, task)])
  {
    hide Fits;
    var threads' := threads[t := Thread(threads[t].client, task)];
    var n := |a.hist|;
    assert forall j :: 0 <= j < n ==> b.hist[j] == a.hist[j];
    forall j | 0 <= j < |b.hist| && b.hist[j].op.Write?
      ensures b.hist[j].thread < |threads'| && WriteOf(b.hist[j], threads'[b.hist[j].thread].task)
    {
      if j < n { assert WriteOf(a.hist[j], threads[a.hist[j].thread].task); }
    }
    forall i, j | 0 <= i < j < |b.hist| && b.hist[i].op.Write? && b.hist[j].op.Write?
      ensures b.hist[i].thread != b.hist[j].thread
    {
      assert WriteOf(a.hist[i], threads[a.hist[i].thread].task);
    }
    forall u: nat | u < |threads'| && Wrote(threads'[u].task) ensures HasWrite(b.hist, u) {
      if Wrote(threads[u].task) {
        var j :| 0 <= j < n && a.hist[j].op.Write? && a.hist[j].thread == u;
        assert b.hist[j].op.Write? && b.hist[j].thread == u;
      } else {
        assert b.hist[n].op.Write? && b.hist[n].thread == u;
      }
    }
  }

  /** A thread steps without touching its client. */
  lemma {:induction false} ThreadSteps(s: State, t: nat, core: Core, task: Task)
    requires Inv(s) && t < |s.threads| && s.threads[t].client < |s.clients|
    requires var c := s.threads[t].client; Good(s.core, s.clients[c], c, s.threads[t].task, t, core, task)
    ensures Inv(s.(core := core, threads := s.threads[t := Thread(s.threads[t].client, task)]))
  {
    hide CoreOk, OnceOk, TaskOk, ClientOk, IssuedOk, Honest, ThreadsOk, Fits;
    OthersKeep(s, t, core, task);
    OnceKept(s.core, core, s.threads, t, task);
    forall c: nat | c < |s.clients| ensures ClientOk(core.views, s.clients[c], c) {
      ClientLasts(s.core.views, core.views, s.clients[c], c);
    }
  }

  /** Every operation's step is one of those. */
  lemma {:induction false} AnyTaskStep(core: Core, client: Client, c: nat, task: Task, t: nat, fail: bool)
    requires CoreOk(core) && ClientOk(core.views, client, c) && TaskOk(core, client, c, task)
    requires !(task.Append? && task.apc.ATail?) && !(task.Tail? && task.lpc.LTake?)
    ensures var (core', task') := StepTask(core, client, c, task, t, fail);
            Good(core, client, c, task, t, core', task')
  {
    hide CoreOk, ClientOk, AppendOk, ProposeOk, TrimToOk, Good, StepAppend, StepPoint, StepTrimTo, StepPropose,
         StepUpdate, StepInit, StepTail, ObjectMap.Good;
    match task {
      case Append(_, _, _) => AppendStep(core, client, c, task, t, fail);
      case Point(_, _, _) => PointStep(core, client, c, task, t, fail);
      case TrimTo(_, _) => TrimToStep(core, client, c, task, t, fail);
      case Propose(_) => ProposeStep(core, client, c, task, t, fail);
      case Update(_, _) => UpdateStep(core, client, c, task, t, fail);
      case Init(_, _) => InitStep(core, client, c, task, t);
      case Tail(_, _) => LookStarts(core, client, c, task, t);
    }
  }

  // ----- check_tail ------------------------------------------------------------------------------

  lemma {:induction false} BumpedOk(views: seq<View>, client: Client, c: nat, index: nat)
    requires ClientOk(views, client, c) && index < |client.sequencers|
    ensures ClientOk(views, Bumped(client, index), c) && ClientGrows(client, Bumped(client, index))
  {
    hide ObjectMap.Good;
    var client' := Bumped(client, index);
    assert forall i :: 0 <= i < |client.sequencers| ==> ConfigEpoch(views, client'.sequencers[i]) == ConfigEpoch(views, client.sequencers[i]);
  }

  lemma {:induction false} TailTask(views: seq<View>, client: Client, c: nat, task: Task)
    requires ClientOk(views, client, c) && task.Append? && task.apc.ATail? && AppendOk(views, client, c, task)
    ensures task.apc.v.sequencer.Some? && task.apc.v.sequencer.value < |client.sequencers|
    ensures var q := client.sequencers[task.apc.v.sequencer.value];
            && AppendOk(views, client, c, task.(pos := Some((q.epoch, q.position)), apc := ACall(task.apc.v)))
            && (task.pos.Some? && task.pos.value.0 == q.epoch ==> AppendOk(views, client, c, task.(apc := ACall(task.apc.v))))
  {
    hide ObjectMap.Good, OnePerConfig;
    assert SequencerOk(views, c, client.sequencers[task.apc.v.sequencer.value]);
  }

  /** A thread moves on by itself, writing nothing. */
  lemma {:induction false} ThreadMoves(s: State, t: nat, task: Task)
    requires Inv(s) && t < |s.threads| && s.threads[t].client < |s.clients|
    requires !Wrote(s.threads[t].task) && !Wrote(task)
    requires var c := s.threads[t].client; TaskOk(s.core, s.clients[c], c, task)
    ensures Inv(s.(threads := s.threads[t := Thread(s.threads[t].client, task)]))
  {
    hide CoreOk, OnceOk, TaskOk, ClientsOk, IssuedOk, ThreadsOk, Grows;
    GrowsRefl(s.core);
    OthersKeep(s, t, s.core, task);
    OnceKept(s.core, s.core, s.threads, t, task);
  }

  lemma {:induction false} IssueOk(clients: seq<Client>, issued: seq<Issue>, c: nat, index: nat)
    requires IssuedOk(clients, issued) && c < |clients| && index < |clients[c].sequencers|
    ensures IssuedOk(clients[c := Bumped(clients[c], index)], issued + [Issue(c, index, clients[c].sequencers[index].position)])
  {
  }

  /** `fetch_add` hands out a position that was not handed out before. */
  lemma {:induction false} Issues(s: State, c: nat, index: nat)
    requires Inv(s) && c < |s.clients| && index < |s.clients[c].sequencers|
    ensures Inv(s.(clients := s.clients[c := Bumped(s.clients[c], index)],
                   issued := s.issued + [Issue(c, index, s.clients[c].sequencers[index].position)]))
  {
    hide CoreOk, OnceOk, ClientOk, ThreadsOk, IssuedOk, ClientGrows, Bumped;
    var client := Bumped(s.clients[c], index);
    BumpedOk(s.core.views, s.clients[c], c, index);
    IssueOk(s.clients, s.issued, c, index);
    ClientChanges(s, c, client);
    IssuedReplaced(s.(clients := s.clients[c := client]),
                   s.issued + [Issue(c, index, s.clients[c].sequencers[index].position)]);
  }

  lemma {:induction false} TailStep(s: State, t: nat)
    requires Inv(s) && t < |s.threads| && s.threads[t].client < |s.clients|
    requires s.threads[t].task.Append? && s.threads[t].task.apc.ATail?
    ensures Inv(TakePosition(s, t))
  {
    hide CoreOk, OnceOk, ClientOk, AppendOk, IssuedOk, Bumped;
    var c, task := s.threads[t].client, s.threads[t].task;
    assert ThreadOk(s.core, s.clients, s.threads[t]);
    TailTask(s.core.views, s.clients[c], c, task);
    var v, index := task.apc.v, task.apc.v.sequencer.value;
    var q := s.clients[c].sequencers[index];
    if task.pos.Some? && task.pos.value.0 == q.epoch {
      ThreadMoves(s, t, task.(apc := ACall(v)));
    } else {
      var moved := task.(pos := Some((q.epoch, q.position)), apc := ACall(v));
      ThreadMoves(s, t, moved);
      Issues(s.(threads := s.threads[t := Thread(c, moved)]), c, index);
    }
  }

  lemma {:induction false} LookStep(s: State, t: nat)
    requires Inv(s) && t < |s.threads| && s.threads[t].client < |s.clients|
    requires s.threads[t].task.Tail? && s.threads[t].task.lpc.LTake?
    ensures Inv(LookAtTail(s, t))
  {
    hide CoreOk, OnceOk, ClientOk, IssuedOk, Bumped, ProposeOk, TrimToOk, AppendOk, ObjectMap.Good;
    var c, task := s.threads[t].client, s.threads[t].task;
    assert ThreadOk(s.core, s.clients, s.threads[t]);
    var index := task.lpc.v.sequencer.value;
    var seen := task.(lpc := LDone(Success, Some(s.clients[c].sequencers[index].position)));
    ThreadMoves(s, t, seen);
    if task.increment {
      Issues(s.(threads := s.threads[t := Thread(c, seen)]), c, index);
    }
  }

  lemma {:induction false} IssuedReplaced(s: State, issued: seq<Issue>)
    requires Inv(s) && IssuedOk(s.clients, issued)
    ensures Inv(s.(issued := issued))
  {
    hide CoreOk, OnceOk, ClientsOk, ThreadsOk, IssuedOk;
  }

  // ----- runs ------------------------------------------------------------------------------------

  lemma {:induction false} FreshOk(core: Core, client: Client, c: nat, task: Task)
    requires Fresh(task)
    ensures TaskOk(core, client, c, task) && !Wrote(task)
  {
    hide ObjectMap.Good;
  }

  lemma {:induction false} StartStep(s: State, c: nat, task: Task)
    requires Inv(s) && c < |s.clients| && Fresh(task)
    ensures Inv(s.(threads := s.threads + [Thread(c, task)]))
  {
    hide CoreOk, ClientsOk, TaskOk, IssuedOk, HasWrite, WriteOf;
    FreshOk(s.core, s.clients[c], c, task);
    var threads := s.threads + [Thread(c, task)];
    forall t | 0 <= t < |threads| ensures ThreadOk(s.core, s.clients, threads[t]) {
      if t < |s.threads| { assert ThreadOk(s.core, s.clients, s.threads[t]); }
    }
    assert OnceOk(s.core.hist, threads);
  }

  lemma {:induction false} JoinStep(s: State)
    requires Inv(s)
    ensures Inv(s.(clients := s.clients + [Client(None, None, [])]))
  {
    hide CoreOk, OnceOk, TaskOk, ObjectMap.Good;
    var clients := s.clients + [Client(None, None, [])];
    forall t | 0 <= t < |s.threads| ensures ThreadOk(s.core, clients, s.threads[t]) {
      assert ThreadOk(s.core, s.clients, s.threads[t]);
    }
    forall c: nat | c < |clients| ensures ClientOk(s.core.views, clients[c], c) {
      if c < |s.clients| { assert ClientOk(s.core.views, s.clients[c], c); }
    }
    hide ClientOk, ThreadOk;
    assert IssuedOk(clients, s.issued);
  }

  lemma {:induction false} RunStep(s: State, t: nat, fail: bool)
    requires Inv(s) && Formed(s) && t < |s.threads|
    ensures Inv(Do(s, Run(t, fail)))
  {
    hide CoreOk, OnceOk, ClientOk, TaskOk, IssuedOk, StepTask, TakePosition, LookAtTail, ObjectMap.Good, Good;
    assert ThreadOk(s.core, s.clients, s.threads[t]);
    var c, task := s.threads[t].client, s.threads[t].task;
    if task.Append? && task.apc.ATail? {
      TailStep(s, t);
    } else if task.Tail? && task.lpc.LTake? {
      LookStep(s, t);
    } else {
      AnyTaskStep(s.core, s.clients[c], c, task, t, fail);
      var (core, task') := StepTask(s.core, s.clients[c], c, task, t, fail);
      ThreadSteps(s, t, core, task');
    }
  }

  lemma {:induction false} DoStep(s: State, step: Step)
    requires Inv(s) && Formed(s)
    ensures Inv(Do(s, step))
  {
    match step {
      case Join => JoinStep(s);
      case Refresh(c) =>
        if c < |s.clients| {
          FetchOk(s.core.views, s.clients[c], c);
          hide Inv, Fetch, ClientOk, ClientGrows;
          ClientChanges(s, c, Fetch(s.core.views, s.clients[c]));
        }
      case Installs(c) =>
        if c < |s.clients| {
          CoreViews(s.core);
          InstallOk(s.core.views, s.clients[c], c);
          hide Inv, Install, ClientOk, ClientGrows;
          ClientChanges(s, c, Install(s.clients[c], c));
        }
      case Start(c, task) =>
        if c < |s.clients| && Fresh(task) { StartStep(s, c, task); }
      case Run(t, fail) =>
        if t < |s.threads| { RunStep(s, t, fail); }
    }
  }

  lemma {:induction false} BeginCore(view: View)
    requires view.config.None?
    ensures CoreOk(Core([view], map[], []))
  {
    hide ObjectMap.Good, View.Stripes, Follows;
    var core := Core([view], map[], []);
    assert forall i: nat :: !NewConfig(core.views, i);
    ExtendsTransitive(view, view, view);
    hide Extends, WellFormed, Holds;
  }

  lemma {:induction false} NobodyYet(core: Core, clients: seq<Client>, threads: seq<Thread>, issued: seq<Issue>)
    requires |core.hist| == |clients| == |threads| == |issued| == 0
    ensures ClientsOk(core.views, clients) && ThreadsOk(core, clients, threads)
    ensures OnceOk(core.hist, threads) && IssuedOk(clients, issued)
  {
    hide ClientOk, ThreadOk, WriteOf, HasWrite, Wrote;
  }

  lemma {:induction false} BeginState(view: View)
    requires view.config.None?
    ensures Inv(State(Core([view], map[], []), [], [], []))
  {
    hide CoreOk, ClientsOk, ThreadsOk, OnceOk, IssuedOk;
    BeginCore(view);
    NobodyYet(Core([view], map[], []), [], [], []);
  }

  lemma {:induction false} BeginOk(options: Options, withStripes: bool)
    requires options.Valid()
    ensures Inv(Begin(options, withStripes))
  {
    hide Inv, ObjectMap.Good, View.Stripes, Options.Valid;
    BeginState(Initial(options, withStripes));
  }

  /** Every state of every run satisfies the invariant. */
  lemma {:induction false} ReachedInv(options: Options, withStripes: bool, steps: seq<Step>)
    requires options.Valid()
    ensures Inv(Reached(options, withStripes, steps)) && Formed(Reached(options, withStripes, steps))
    decreases |steps|
  {
    hide Inv, Formed, Do, Begin;
    if steps == [] {
      BeginOk(options, withStripes);
    } else {
      var before := Reached(options, withStripes, steps[..|steps| - 1]);
      ReachedInv(options, withStripes, steps[..|steps| - 1]);
      DoStep(before, steps[|steps| - 1]);
    }
    InvFormed(Reached(options, withStripes, steps));
  }
}

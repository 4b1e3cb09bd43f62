/** A run in which a client becomes the sequencer and appends: what the theorems are about does happen. */
module Example {
  import opened Common
  import opened Stripes
  import opened PlainLists
  import opened ObjectMaps
  import opened Expansion
  import opened Views
  import opened Ram
  import opened Protocol
  import opened History
  import opened Theorems

  lemma {:induction false} BeginReachable(options: Options, withStripes: bool)
    requires options.Valid()
    ensures Reachable(Begin(options, withStripes))
  {
    hide Begin;
    var steps: seq<Step> := [];
    assert steps <= steps && Begin(options, withStripes) == Reached(options, withStripes, steps);
  }

  lemma {:induction false} ReachedNext(options: Options, withStripes: bool, steps: seq<Step>, step: Step)
    requires options.Valid()
    ensures Reached(options, withStripes, steps + [step]) == Do(Reached(options, withStripes, steps), step)
  {
    hide Do;
    assert (steps + [step])[..|steps|] == steps;
  }

  lemma {:induction false} NextReachable(s: State, step: Step)
    requires Reachable(s)
    ensures Reachable(Do(s, step))
  {
    hide Do, Reached;
    var options: Options, withStripes: bool, steps: seq<Step>, more: seq<Step> :|
      && options.Valid() && steps <= more
      && s == Reached(options, withStripes, steps) && s == Reached(options, withStripes, more);
    ReachedNext(options, withStripes, steps, step);
    assert steps + [step] <= steps + [step];
  }

  /** Objects of one stripe of width 1 with room for position 0. */
  ghost predicate Small(v: View) {
    v.om.nextStripeId == 1 && StripeById(v.om, 0).width == 1 && Map(v.om, 0).0 == Some(Oid(0, 0))
  }

  lemma {:induction false} InitialSmall(options: Options)
    requires options.Valid() && options.width == 1
    ensures Small(Initial(options, true)) && Initial(options, true).config.None?
  {
    hide MultiStripe.List, IndexById, Options.Valid, Flatten;
    var v := Initial(options, true);
    FirstRunAlone(options);
    StripeIs(v, 0);
    MapIs(v, 0);
    hide Map, StripeById;
    assert v.Stripes() == [Stripe(0, 1, 0, FirstRun(options).Size() - 1)];
    assert Holds(v.Stripes(), Oid(0, 0), 0);
  }

  /** One client, with one thread that proposes a sequencer. */
  function Proposing(views: seq<View>, store: Store, v: VersionedView, pc: ProposePc): State {
    State(Core(views, store, []), [Client(Some(v), None, [])], [Thread(0, Propose(pc))], [])
  }

  lemma {:induction false} Joined(view: View)
    requires Reachable(State(Core([view], map[], []), [], [], []))
    requires view.config.None?
    ensures Reachable(Proposing([view], map[], VersionedView(1, view, None), QStart))
  {
    hide Reachable, ObjectMap.Good, View.Stripes;
    var s0 := State(Core([view], map[], []), [], [], []);
    NextReachable(s0, Join);
    var s1 := Do(s0, Join);
    NextReachable(s1, Refresh(0));
    var s2 := Do(s1, Refresh(0));
    NextReachable(s2, Installs(0));
    var s3 := Do(s2, Installs(0));
    assert s1.clients == [Client(None, None, [])];
    assert s2.clients == [Client(None, Some((1, view)), [])];
    assert s3.clients == [Client(Some(VersionedView(1, view, None)), None, [])];
    NextReachable(s3, Start(0, Propose(QStart)));
    assert Do(s3, Start(0, Propose(QStart))) == Proposing([view], map[], VersionedView(1, view, None), QStart);
  }

  lemma {:induction false} Proposes(s: State, task: Task, core: Core)
    requires Reachable(s) && |s.clients| == 1 && |s.threads| == 1 && s.threads[0].client == 0 && s.threads[0].task.Propose?
    requires StepPropose(s.core, s.clients[0], 0, s.threads[0].task, 0, false) == (core, task)
    ensures Reachable(s.(core := core, threads := [Thread(0, task)]))
  {
    hide Reachable, ObjectMap.Good, StepPropose;
    NextReachable(s, Run(0, false));
    assert s.threads[0 := Thread(0, task)] == [Thread(0, task)];
    assert Do(s, Run(0, false)) == s.(core := core, threads := [Thread(0, task)]);
  }

  lemma {:induction false} Sealed(view: View)
    requires Small(view) && view.config.None?
    requires Reachable(Proposing([view], map[], VersionedView(1, view, None), QStart))
    ensures Reachable(Proposing([view], map[Oid(0, 0) := FRESH.(epoch := 2)], VersionedView(1, view, None), QCas(VersionedView(1, view, None), 0)))
  {
    hide Reachable, ObjectMap.Good, View.Stripes, Map, StripeById;
    var v, oid := VersionedView(1, view, None), Oid(0, 0);
    var store: Store := map[oid := FRESH.(epoch := 2)];
    var c0, c1 := Core([view], map[], []), Core([view], store, []);
    Proposes(Proposing([view], map[], v, QStart), Propose(QSeal(v, 0, 0)), c0);
    Proposes(Proposing([view], map[], v, QSeal(v, 0, 0)), Propose(QSeal(v, 0, 1)), c1);
    Proposes(Proposing([view], store, v, QSeal(v, 0, 1)), Propose(QMax(v, 0, 0, None)), c1);
    Proposes(Proposing([view], store, v, QMax(v, 0, 0, None)), Propose(QMax(v, 0, 1, None)), c1);
    Proposes(Proposing([view], store, v, QMax(v, 0, 1, None)), Propose(QCas(v, 0)), c1);
  }

  /** The view that makes client 0 the sequencer, from position 0 on. */
  function Led(view: View): View {
    view.WithSequencer(SequencerConfig(2, 0, 0))
  }

  /** One client with its own sequencer; the proposal is through, and a second thread appends. */
  function Appending(view: View, store: Store, hist: seq<Event>, position: nat, issued: seq<Issue>, task: Task): State {
    State(Core([view, Led(view)], store, hist),
          [Client(Some(VersionedView(2, Led(view), Some(0))), None, [Sequencer(2, position)])],
          [Thread(0, Propose(QDone(Some(2)))), Thread(0, task)], issued)
  }

  lemma {:induction false} BecomesLeader(view: View, store: Store, data: Bytes)
    requires view.config.None?
    requires var v := VersionedView(1, view, None); Reachable(Proposing([view], store, v, QCas(v, 0)))
    ensures Reachable(Appending(view, store, [], 0, [], Append(data, None, AStart)))
  {
    hide Reachable, ObjectMap.Good, View.Stripes;
    var v := VersionedView(1, view, None);
    var s0 := Proposing([view], store, v, QCas(v, 0));
    var core := Core([view, Led(view)], store, []);
    assert [view] + [Led(view)] == [view, Led(view)];
    Proposes(s0, Propose(QDone(Some(2))), core);
    var s1 := s0.(core := core, threads := [Thread(0, Propose(QDone(Some(2))))]);
    NextReachable(s1, Refresh(0));
    var s2 := Do(s1, Refresh(0));
    assert s2.clients == [Client(Some(v), Some((2, Led(view))), [])];
    NextReachable(s2, Installs(0));
    var s3 := Do(s2, Installs(0));
    assert [] + [Sequencer(2, 0)] == [Sequencer(2, 0)];
    assert Install(s2.clients[0], 0) == Client(Some(VersionedView(2, Led(view), Some(0))), None, [Sequencer(2, 0)]);
    assert s3.clients == [Client(Some(VersionedView(2, Led(view), Some(0))), None, [Sequencer(2, 0)])];
    var task := Append(data, None, AStart);
    NextReachable(s3, Start(0, task));
    assert Do(s3, Start(0, task)) == Appending(view, store, [], 0, [], task);
  }

  lemma {:induction false} TakesZero(view: View, store: Store, data: Bytes)
    requires Reachable(Appending(view, store, [], 0, [], Append(data, None, AStart)))
    ensures Reachable(Appending(view, store, [], 1, [Issue(0, 0, 0)],
                                Append(data, Some((2, 0)), ACall(VersionedView(2, Led(view), Some(0))))))
  {
    hide Reachable, ObjectMap.Good, View.Stripes, CallObject, Map;
    var v := VersionedView(2, Led(view), Some(0));
    var s0 := Appending(view, store, [], 0, [], Append(data, None, AStart));
    NextReachable(s0, Run(1, false));
    var s1 := Do(s0, Run(1, false));
    assert s1 == Appending(view, store, [], 0, [], Append(data, None, ATail(v)));
    NextReachable(s1, Run(1, false));
    var s2 := Do(s1, Run(1, false));
    assert [Sequencer(2, 0)][0 := Sequencer(2, 1)] == [Sequencer(2, 1)];
    assert s2.clients == [Client(Some(v), None, [Sequencer(2, 1)])];
    assert s2 == Appending(view, store, [], 1, [Issue(0, 0, 0)], Append(data, Some((2, 0)), ACall(v)));
  }

  lemma {:induction false} WritesZero(view: View, data: Bytes)
    requires Small(view)
    ensures var store: Store := map[Oid(0, 0) := FRESH.(epoch := 2)];
            var v := VersionedView(2, Led(view), Some(0));
            var (core, task) := StepAppend(Core([view, Led(view)], store, []), Client(Some(v), None, [Sequencer(2, 1)]),
                                           Append(data, Some((2, 0)), ACall(v)), 1, false);
            task == Append(data, Some((2, 0)), ADone(Success)) && |core.hist| == 1
  {
    hide ObjectMap.Good, View.Stripes, StripeById, Map;
  }

  /** A run reaches a state in which a sequencer was handed over and an append under it has succeeded. */
  lemma {:induction false} AppendsHappen(options: Options, data: Bytes)
    requires options.Valid() && options.width == 1
    ensures exists s: State :: Reachable(s) && NewConfig(s.core.views, 1) && |s.threads| == 2
              && s.threads[1].task == Append(data, Some((2, 0)), ADone(Success))
  {
    hide Reachable, ObjectMap.Good, View.Stripes, Small, Map, StepAppend, Initial;
    var view := Initial(options, true);
    InitialSmall(options);
    BeginReachable(options, true);
    Joined(view);
    Sealed(view);
    var store: Store := map[Oid(0, 0) := FRESH.(epoch := 2)];
    BecomesLeader(view, store, data);
    TakesZero(view, store, data);
    WritesZero(view, data);
    var v := VersionedView(2, Led(view), Some(0));
    var s := Appending(view, store, [], 1, [Issue(0, 0, 0)], Append(data, Some((2, 0)), ACall(v)));
    NextReachable(s, Run(1, false));
    var s' := Do(s, Run(1, false));
    assert s'.threads[1].task == Append(data, Some((2, 0)), ADone(Success));
    assert s'.core.views == [view, Led(view)] by { AppendKeepsViews(s.core, s.clients[0], s.threads[1].task, 1, false); }
  }

  lemma {:induction false} AppendKeepsViews(core: Core, client: Client, task: Task, t: nat, fail: bool)
    requires task.Append?
    ensures StepAppend(core, client, task, t, fail).0.views == core.views
  {
    hide Apply, Map, ObjectMap.Good, View.Stripes, Touched;
  }
}

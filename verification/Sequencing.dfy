/**
  What sequencers hand out (src/libzlog/sequencer.h, and `check_tail` in log_impl.cc), and which view a
  refresh installs (src/libzlog/view_manager.cc).
  */
module Sequencing {
  import opened Common
  import opened ObjectMaps
  import opened Views
  import opened Protocol
  import opened History
  import opened Threads
  import opened TaskSteps
  import opened Runs
  import opened Theorems
  import opened Outcomes

  // ----- no gaps ---------------------------------------------------------------------------------

  /** The first position of the configuration that a sequencer was made for. */
  function FirstOf(views: seq<View>, q: Sequencer): nat {
    if 1 <= q.epoch <= |views| && views[q.epoch - 1].config.Some? then views[q.epoch - 1].config.value.position else 0
  }

  /** The sequencer has handed out its configuration's positions one after another, up to its own. */
  ghost predicate Gapless(s: State, c: nat, index: nat)
    requires c < |s.clients| && index < |s.clients[c].sequencers|
  {
    var q := s.clients[c].sequencers[index];
    forall p: nat :: Issue(c, index, p) in s.issued <==> FirstOf(s.core.views, q) <= p < q.position
  }

  ghost predicate AllGapless(s: State) {
    forall c: nat, index: nat :: c < |s.clients| && index < |s.clients[c].sequencers| ==> Gapless(s, c, index)
  }

  /** What a step does to the sequencers: nothing, or one hands out its position, or one is created. */
  ghost predicate HandsOut(s: State, s': State, c: nat, index: nat) {
    && c < |s.clients| && index < |s.clients[c].sequencers|
    && s'.clients == s.clients[c := Bumped(s.clients[c], index)]
    && s'.issued == s.issued + [Issue(c, index, s.clients[c].sequencers[index].position)]
  }

  ghost predicate Creates(s: State, s': State, c: nat) {
    && c < |s.clients| && s'.issued == s.issued && |s'.clients| == |s.clients|
    && (forall d :: 0 <= d < |s.clients| && d != c ==> s'.clients[d] == s.clients[d])
    && |s'.clients[c].sequencers| == |s.clients[c].sequencers| + 1
    && s'.clients[c].sequencers[..|s.clients[c].sequencers|] == s.clients[c].sequencers
    && var q := s'.clients[c].sequencers[|s.clients[c].sequencers|];
       1 <= q.epoch <= |s.core.views| && q.position == FirstOf(s.core.views, q)
  }

  ghost predicate SameSequencers(s: State, s': State) {
    && s'.issued == s.issued && |s.clients| <= |s'.clients|
    && (forall c :: 0 <= c < |s.clients| ==> s'.clients[c].sequencers == s.clients[c].sequencers)
    && (forall c :: |s.clients| <= c < |s'.clients| ==> s'.clients[c].sequencers == [])
  }

  lemma {:induction false} SequencersMove(s: State, step: Step)
    requires Inv(s)
    ensures var s' := Do(s, step);
            || SameSequencers(s, s')
            || (step.Installs? && Creates(s, s', step.client))
            || (step.Run? && exists c: nat, index: nat :: HandsOut(s, s', c, index))
  {
    hide Inv, StepTask, Fetch, ObjectMap.Good, Bumped, Install, Options.Valid, TakePosition, LookAtTail, ThreadFormed;
    match step {
      case Refresh(c) => if c < |s.clients| { FetchKeeps(s.core.views, s.clients[c]); }
      case Installs(c) => if c < |s.clients| { InstallsOne(s, c); }
      case Run(t, _) =>
        if t < |s.threads| {
          ThreadTask(s, t);
          Takes(s, t);
        }
      case _ =>
    }
  }

  lemma {:induction false} FetchKeeps(views: seq<View>, client: Client)
    ensures Fetch(views, client).sequencers == client.sequencers
  {
  }

  lemma {:induction false} InstallsOne(s: State, c: nat)
    requires Inv(s) && c < |s.clients|
    ensures var s' := s.(clients := s.clients[c := Install(s.clients[c], c)]);
            SameSequencers(s, s') || Creates(s, s', c)
  {
    hide Inv, OnePerConfig, SequencerOk, HeldOk, ObjectMap.Good;
    ClientOf(s, c);
  }

  lemma {:induction false} Takes(s: State, t: nat)
    requires Inv(s) && t < |s.threads| && s.threads[t].client < |s.clients|
    ensures s.threads[t].task.Append? ==>
              SameSequencers(s, TakePosition(s, t)) || exists c: nat, index: nat :: HandsOut(s, TakePosition(s, t), c, index)
    ensures s.threads[t].task.Tail? ==>
              SameSequencers(s, LookAtTail(s, t)) || exists c: nat, index: nat :: HandsOut(s, LookAtTail(s, t), c, index)
  {
    hide Inv, Bumped;
    var c, task := s.threads[t].client, s.threads[t].task;
    if task.Append? && task.apc.ATail? && task.apc.v.sequencer.Some? {
      var index := task.apc.v.sequencer.value;
      if !SameSequencers(s, TakePosition(s, t)) { assert HandsOut(s, TakePosition(s, t), c, index); }
    }
    if task.Tail? && task.lpc.LTake? && task.lpc.v.sequencer.Some? {
      var index := task.lpc.v.sequencer.value;
      if !SameSequencers(s, LookAtTail(s, t)) { assert HandsOut(s, LookAtTail(s, t), c, index); }
    }
  }

  /** Views are only added, so that a sequencer's first position stays what it is. */
  lemma {:induction false} FirstStays(s: State, s': State, c: nat, index: nat)
    requires Inv(s) && s.core.views <= s'.core.views && c < |s.clients| && index < |s.clients[c].sequencers|
    ensures var q := s.clients[c].sequencers[index];
            1 <= q.epoch <= |s.core.views| && FirstOf(s'.core.views, q) == FirstOf(s.core.views, q) <= q.position
  {
    hide Inv, ViewsOk, OnePerConfig, ObjectMap.Good;
    SequencersOf(s, c, index);
  }

  lemma {:induction false} OneMoreGone(s: State, s': State, c: nat, index: nat, d: nat, i: nat)
    requires Inv(s) && s.core.views <= s'.core.views && HandsOut(s, s', c, index)
    requires d < |s.clients| && i < |s.clients[d].sequencers| && Gapless(s, d, i)
    ensures i < |s'.clients[d].sequencers| && Gapless(s', d, i)
  {
    hide Inv, FirstOf, ObjectMap.Good;
    FirstStays(s, s', d, i);
    var q, q' := s.clients[d].sequencers[i], s'.clients[d].sequencers[i];
    assert q'.epoch == q.epoch && q'.position == q.position + (if d == c && i == index then 1 else 0);
    FirstByEpoch(s'.core.views, q, q');
    forall p: nat ensures Issue(d, i, p) in s'.issued <==> FirstOf(s'.core.views, q') <= p < q'.position {
      assert Issue(d, i, p) in s'.issued <==>
             Issue(d, i, p) in s.issued || Issue(d, i, p) == Issue(c, index, s.clients[c].sequencers[index].position);
    }
  }

  lemma {:induction false} FirstByEpoch(views: seq<View>, x: Sequencer, y: Sequencer)
    requires x.epoch == y.epoch
    ensures FirstOf(views, x) == FirstOf(views, y)
  {
  }

  lemma {:induction false} NewIsUnused(s: State, s': State, c: nat)
    requires Inv(s) && s'.core == s.core && Creates(s, s', c)
    ensures Gapless(s', c, |s.clients[c].sequencers|)
  {
    hide CoreOk, ClientsOk, ThreadsOk, OnceOk, FirstOf, ObjectMap.Good;
  }

  lemma {:induction false} GaplessKept(s: State, s': State, c: nat, index: nat)
    requires Inv(s) && s.core.views <= s'.core.views && s'.issued == s.issued
    requires c < |s.clients| && index < |s.clients[c].sequencers| && Gapless(s, c, index)
    requires c < |s'.clients| && index < |s'.clients[c].sequencers| && s'.clients[c].sequencers[index] == s.clients[c].sequencers[index]
    ensures Gapless(s', c, index)
  {
    hide Inv, FirstOf, ObjectMap.Good;
    FirstStays(s, s', c, index);
  }

  lemma {:induction false} GaplessStep(s: State, step: Step)
    requires Inv(s) && AllGapless(s)
    ensures AllGapless(Do(s, step))
  {
    hide Inv, Do, Gapless, Bumped, HandsOut, Creates;
    var s' := Do(s, step);
    InvFormed(s);
    DoGrows(s, step);
    ViewsGrow(s.core, s'.core);
    SequencersMove(s, step);
    if SameSequencers(s, s') {
      forall c: nat, index: nat | c < |s'.clients| && index < |s'.clients[c].sequencers| ensures Gapless(s', c, index) {
        GaplessKept(s, s', c, index);
      }
    } else if step.Installs? && Creates(s, s', step.client) {
      InstallsLeavesCore(s, step.client);
      CreatedGapless(s, s', step.client);
    } else {
      var c: nat, index: nat :| HandsOut(s, s', c, index);
      TakenGapless(s, s', c, index);
    }
  }

  lemma {:induction false} InstallsLeavesCore(s: State, c: nat)
    ensures Do(s, Installs(c)).core == s.core
  {
  }

  lemma {:induction false} CreatedGapless(s: State, s': State, c: nat)
    requires Inv(s) && AllGapless(s) && s'.core == s.core && Creates(s, s', c)
    ensures AllGapless(s')
  {
    hide Inv, Gapless, FirstOf, ObjectMap.Good;
    NewIsUnused(s, s', c);
    forall d: nat, i: nat | d < |s'.clients| && i < |s'.clients[d].sequencers| ensures Gapless(s', d, i) {
      if d < |s.clients| && i < |s.clients[d].sequencers| {
        assert s'.clients[d].sequencers[i] == s.clients[d].sequencers[i];
        GaplessKept(s, s', d, i);
      }
    }
  }

  lemma {:induction false} TakenGapless(s: State, s': State, c: nat, index: nat)
    requires Inv(s) && AllGapless(s) && s.core.views <= s'.core.views && HandsOut(s, s', c, index)
    ensures AllGapless(s')
  {
    hide Inv, Gapless, ObjectMap.Good;
    forall d: nat, i: nat | d < |s'.clients| && i < |s'.clients[d].sequencers| ensures Gapless(s', d, i) {
      OneMoreGone(s, s', c, index, d, i);
    }
  }

  lemma {:induction false} GaplessReached(options: Options, withStripes: bool, steps: seq<Step>)
    requires options.Valid()
    ensures AllGapless(Reached(options, withStripes, steps))
    decreases |steps|
  {
    hide Inv, Do, Options.Valid, Initial;
    if steps != [] {
      var rest := steps[..|steps| - 1];
      GaplessReached(options, withStripes, rest);
      ReachedInv(options, withStripes, rest);
      GaplessStep(Reached(options, withStripes, rest), steps[|steps| - 1]);
    }
  }

  /**
    A sequencer hands out positions without gaps: what it has issued are exactly the positions from the
    first one of its configuration up to, and without, its own.
    */
  lemma {:induction false} IssuedExactly(s: State, c: nat, index: nat, p: nat)
    requires Reachable(s) && c < |s.clients| && index < |s.clients[c].sequencers|
    ensures var q := s.clients[c].sequencers[index];
            && 1 <= q.epoch <= |s.core.views| && s.core.views[q.epoch - 1].config.Some?
            && (Issue(c, index, p) in s.issued <==> s.core.views[q.epoch - 1].config.value.position <= p < q.position)
  {
    hide Reached, Inv, Options.Valid, OnePerConfig;
    ReachableInv(s);
    SequencersOf(s, c, index);
    var options: Options, withStripes: bool, steps: seq<Step>, more: seq<Step> :|
      && options.Valid() && steps <= more
      && s == Reached(options, withStripes, steps) && s == Reached(options, withStripes, more);
    GaplessReached(options, withStripes, steps);
    assert Gapless(s, c, index);
  }

  // ----- using a sequencer -----------------------------------------------------------------------

  /**
    TailOp reports the position that its view's sequencer will hand out next, and takes it exactly if it
    was asked to; else it changes nothing but its own result.
    */
  lemma {:induction false} TailReports(s: State, t: nat, fail: bool)
    requires Reachable(s) && t < |s.threads| && s.threads[t].task.Tail? && s.threads[t].task.lpc.LTake?
    ensures var th, s' := s.threads[t], Do(s, Run(t, fail));
            var c, v := th.client, th.task.lpc.v;
            && c < |s.clients| && v.sequencer.Some? && v.sequencer.value < |s.clients[c].sequencers|
            && var p := s.clients[c].sequencers[v.sequencer.value].position;
               && s'.threads == s.threads[t := Thread(c, Tail(th.task.increment, LDone(Success, Some(p))))]
               && s'.core == s.core
               && if th.task.increment then HandsOut(s, s', c, v.sequencer.value)
                  else s'.clients == s.clients && s'.issued == s.issued
  {
    hide Reachable, Precedes, Inv, StepTask, Bumped, OnePerConfig, SequencerOk;
    ReachableInv(s);
    ThreadTask(s, t);
  }

  /** An append takes the next position of its view's sequencer, unless it holds one of that sequencer. */
  lemma {:induction false} AppendTakes(s: State, t: nat, fail: bool)
    requires Reachable(s) && t < |s.threads| && s.threads[t].task.Append? && s.threads[t].task.apc.ATail?
    ensures var th, s' := s.threads[t], Do(s, Run(t, fail));
            var c, v := th.client, th.task.apc.v;
            && c < |s.clients| && v.sequencer.Some? && v.sequencer.value < |s.clients[c].sequencers|
            && s'.core == s.core
            && var q := s.clients[c].sequencers[v.sequencer.value];
               if th.task.pos.Some? && th.task.pos.value.0 == q.epoch then
                 && s'.threads == s.threads[t := Thread(c, th.task.(apc := ACall(v)))]
                 && s'.clients == s.clients && s'.issued == s.issued
               else
                 && s'.threads == s.threads[t := Thread(c, th.task.(apc := ACall(v), pos := Some((q.epoch, q.position))))]
                 && HandsOut(s, s', c, v.sequencer.value)
  {
    hide Reachable, Precedes, Inv, StepTask, Bumped, OnePerConfig, SequencerOk, PositionOk;
    ReachableInv(s);
    ThreadTask(s, t);
  }

  // ----- the positions of an append --------------------------------------------------------------

  /** Sequencer `x.index` of client `c`, which was made with the view of epoch `pos.0`, issued `pos.1`. */
  predicate IssueOf(s: State, x: Issue, c: nat, pos: (nat, nat)) {
    && x.client == c && c < |s.clients| && x.index < |s.clients[c].sequencers|
    && s.clients[c].sequencers[x.index].epoch == pos.0 && x.pos == pos.1
  }

  /** Thread `t` is an append, and a position that it has was issued to it as number `n` or later. */
  ghost predicate HeldSince(s: State, t: nat, n: nat) {
    && t < |s.threads| && s.threads[t].task.Append? && n <= |s.issued|
    && (s.threads[t].task.pos.Some? ==>
          exists k :: n <= k < |s.issued| && IssueOf(s, s.issued[k], s.threads[t].client, s.threads[t].task.pos.value))
  }

  ghost predicate ClientsGrow(a: seq<Client>, b: seq<Client>) {
    |a| <= |b| && forall c: nat :: c < |a| ==> ClientGrows(a[c], b[c])
  }

  lemma {:induction false} StillHeld(s: State, s': State, t: nat, n: nat)
    requires HeldSince(s, t, n) && s.issued <= s'.issued && t < |s'.threads| && s'.threads[t].client == s.threads[t].client
    requires s'.threads[t].task.Append? && (s'.threads[t].task.pos == s.threads[t].task.pos || s'.threads[t].task.pos.None?)
    requires ClientsGrow(s.clients, s'.clients)
    ensures HeldSince(s', t, n)
  {
    if s'.threads[t].task.pos.Some? {
      var k :| n <= k < |s.issued| && IssueOf(s, s.issued[k], s.threads[t].client, s.threads[t].task.pos.value);
      assert s'.issued[k] == s.issued[k];
      assert IssueOf(s', s'.issued[k], s'.threads[t].client, s'.threads[t].task.pos.value);
    }
  }

  lemma {:induction false} NowHeld(s: State, s': State, t: nat, n: nat, c: nat, index: nat)
    requires HeldSince(s, t, n) && HandsOut(s, s', c, index)
    requires t < |s'.threads| && s'.threads[t].client == c && s'.threads[t].task.Append?
    requires s'.threads[t].task.pos == Some((s.clients[c].sequencers[index].epoch, s.clients[c].sequencers[index].position))
    ensures HeldSince(s', t, n)
  {
    var k := |s.issued|;
    assert IssueOf(s', s'.issued[k], c, s'.threads[t].task.pos.value);
  }

  /** An append keeps its position or gives it up, except where it uses a sequencer. */
  lemma {:induction false} PositionKept(core: Core, client: Client, task: Task, t: nat, fail: bool)
    requires task.Append?
    ensures var task' := StepAppend(core, client, task, t, fail).1;
            task'.Append? && (task'.pos == task.pos || task'.pos.None?)
  {
    hide Map, CallObject, ObjectMap.Good, View.Stripes;
  }

  lemma {:induction false} HeldByRun(s: State, t: nat, n: nat, fail: bool)
    requires Reachable(s) && HeldSince(s, t, n)
    requires ClientsGrow(s.clients, Do(s, Run(t, fail)).clients)
    ensures HeldSince(Do(s, Run(t, fail)), t, n)
  {
    hide Reachable, Precedes, Inv, HeldSince, HandsOut, ClientsGrow, StepAppend, TaskOk, Do;
    ReachableInv(s);
    ThreadTask(s, t) by { HeldIs(s, t, n); }
    HeldIs(s, t, n);
    var c, task, s' := s.threads[t].client, s.threads[t].task, Do(s, Run(t, fail));
    if task.apc.ATail? {
      AppendTakes(s, t, fail);
      var index := task.apc.v.sequencer.value;
      var q := s.clients[c].sequencers[index];
      if task.pos.Some? && task.pos.value.0 == q.epoch { StillHeld(s, s', t, n); } else { NowHeld(s, s', t, n, c, index); }
    } else {
      RunIs(s, t, fail);
      PositionKept(s.core, s.clients[c], task, t, fail);
      StillHeld(s, s', t, n);
    }
  }

  lemma {:induction false} HeldIs(s: State, t: nat, n: nat)
    requires HeldSince(s, t, n)
    ensures t < |s.threads| && s.threads[t].task.Append?
  {
  }

  /** Other threads and clients only add to what was issued. */
  lemma {:induction false} OthersIssue(s: State, step: Step, t: nat)
    requires Inv(s) && t < |s.threads| && !(step.Run? && step.thread == t)
    ensures var s' := Do(s, step); t < |s'.threads| && s'.threads[t] == s.threads[t] && s.issued <= s'.issued
  {
    hide Inv, StepTask, Fetch, Install, Bumped, ThreadFormed;
  }

  lemma {:induction false} AllGrow(s: State, step: Step)
    requires Inv(s) && Formed(s)
    ensures ClientsGrow(s.clients, Do(s, step).clients)
  {
    hide Inv, Formed, Do, ClientGrows;
    var clients := Do(s, step).clients;
    forall c: nat | c < |s.clients| ensures c < |clients| && ClientGrows(s.clients[c], clients[c]) {
      DoForward(s, step, c);
    }
    if |s.clients| > 0 { DoForward(s, step, |s.clients| - 1); }
  }

  lemma {:induction false} HeldStep(s: State, step: Step, t: nat, n: nat)
    requires Reachable(s) && HeldSince(s, t, n)
    ensures HeldSince(Do(s, step), t, n)
  {
    hide Reachable, Precedes, Inv, Do, HeldSince, ClientsGrow;
    ReachableInv(s);
    HeldIs(s, t, n);
    AllGrow(s, step);
    if step.Run? && step.thread == t {
      HeldByRun(s, t, n, step.fail);
    } else {
      OthersIssue(s, step, t);
      StillHeld(s, Do(s, step), t, n);
    }
  }

  lemma {:induction false} HeldRun(options: Options, withStripes: bool, steps: seq<Step>, more: seq<Step>, t: nat, n: nat)
    requires options.Valid() && steps <= more && HeldSince(Reached(options, withStripes, steps), t, n)
    ensures HeldSince(Reached(options, withStripes, more), t, n)
    decreases |more|
  {
    hide Do, HeldSince, Options.Valid;
    if steps != more {
      var rest := more[..|more| - 1];
      assert steps <= rest;
      HeldRun(options, withStripes, steps, rest, t, n);
      assert rest <= rest;
      HeldStep(Reached(options, withStripes, rest), more[|more| - 1], t, n);
    } else {
      assert steps == more;
    }
  }

  /**
    An append that holds no position, because it has just begun or was refused, and has one later: that one
    was issued to its client in between, by a sequencer of its client. With `AppendTries`: an append that
    was refused and ends with 0 all the same reports a position that was issued after the refusal.
    */
  lemma {:induction false} NextPositionIsNew(s: State, s': State, t: nat)
    requires Precedes(s, s') && t < |s.threads| && s.threads[t].task.Append? && s.threads[t].task.pos.None?
    ensures HeldSince(s', t, |s.issued|)
  {
    hide Reached, HeldSince, Options.Valid;
    var options: Options, withStripes: bool, steps: seq<Step>, more: seq<Step> :|
      && options.Valid() && steps <= more
      && s == Reached(options, withStripes, steps) && s' == Reached(options, withStripes, more);
    NoneHeld(s, t);
    HeldRun(options, withStripes, steps, more, t, |s.issued|);
  }

  lemma {:induction false} NoneHeld(s: State, t: nat)
    requires t < |s.threads| && s.threads[t].task.Append? && s.threads[t].task.pos.None?
    ensures HeldSince(s, t, |s.issued|)
  {
  }

  /** So a refused append that returns 0 in the end has written its data at a position issued after the refusal. */
  lemma {:induction false} RefusedThenNew(s: State, s': State, t: nat)
    requires Precedes(s, s') && t < |s.threads| && s.threads[t].task.Append? && s.threads[t].task.pos.None?
    requires t < |s'.threads| && s'.threads[t].task.Append? && s'.threads[t].task.apc == ADone(Success)
    ensures var task := s'.threads[t].task;
            && task.pos.Some?
            && (exists j: nat :: WroteAt(s', t, task.pos.value.1, task.data, j))
            && exists k :: |s.issued| <= k < |s'.issued| && IssueOf(s', s'.issued[k], s'.threads[t].client, task.pos.value)
  {
    hide Precedes, Reachable, Inv, Since, WroteAt, IssueOf;
    PrecedesSince(s, s');
    NextPositionIsNew(s, s', t);
    AppendAllOrOnce(s', t);
  }

  // ----- refresh_view ----------------------------------------------------------------------------

  /** A refresh that runs undisturbed installs the latest view, with a sequencer if it names the client. */
  lemma {:induction false} RefreshInstallsLatest(s: State, c: nat)
    requires Reachable(s) && c < |s.clients| && s.clients[c].fetched.None?
    ensures |s.core.views| > 0
    ensures var s' := Do(Do(s, Refresh(c)), Installs(c));
            && c < |s'.clients| && s'.clients[c].view.Some? && s'.clients[c].fetched.None?
            && var v := s'.clients[c].view.value;
               && v.epoch == |s.core.views| && v.view == Latest(s.core)
               && (v.sequencer.Some? <==> Ours(v.view, c))
               && (v.sequencer.Some? ==>
                     && v.sequencer.value < |s'.clients[c].sequencers|
                     && ConfigEpoch(s.core.views, s'.clients[c].sequencers[v.sequencer.value]) == v.view.config.value.epoch)
  {
    hide Reachable, Precedes, Inv, CoreOk, ViewsOk, OnePerConfig, SequencerOk, ObjectMap.Good, View.Stripes;
    ReachableInv(s);
    ClientOf(s, c);
    InvCore(s);
    SomeView(s.core);
    CoreViews(s.core);
    var fetched := Fetch(s.core.views, s.clients[c]);
    FetchOk(s.core.views, s.clients[c], c);
    InstallOk(s.core.views, fetched, c);
  }
}

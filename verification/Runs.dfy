/** What holds after every run of the server, whatever its scenes, sessions and clients did. */
module Runs {
  import opened Wrappers
  import opened JsonValues
  import opened Frames
  import opened Stores
  import opened Replays
  import opened Registries
  import opened SceneModel
  import opened Clients
  import opened Histories
  import opened Standings
  import opened Subscribers
  import opened Protocol

  /** The steps, each enabled in the world it starts from, lead from w to w'. */
  ghost predicate Leads(w: World, steps: seq<Step>, w': World)
    decreases |steps|
  {
    if steps == [] then w == w'
    else Shaped(w) && Enabled(w, steps[0]) && Leads(Next(w, steps[0]), steps[1..], w')
  }

  /** The world is one a server can reach from nothing. */
  ghost predicate Reachable(w: World) {
    Shaped(w) && exists steps :: Leads(EMPTY_WORLD, steps, w)
  }

  lemma {:induction false} LeadsToGood(w: World, steps: seq<Step>, w': World)
    requires Good(w) && Leads(w, steps, w')
    ensures Good(w')
    decreases |steps|
  {
    if steps != [] {
      StepGood(w, steps[0]);
      LeadsToGood(Next(w, steps[0]), steps[1..], w');
    }
  }

  /** The invariant holds after every run. */
  lemma {:induction false} ReachableIsGood(w: World)
    requires Reachable(w)
    ensures Good(w)
  {
    var steps :| Leads(EMPTY_WORLD, steps, w);
    LeadsToGood(EMPTY_WORLD, steps, w);
  }

  lemma {:induction false} EmptyIsReachable()
    ensures Reachable(EMPTY_WORLD)
  {
    assert Leads(EMPTY_WORLD, [], EMPTY_WORLD);
  }

  lemma {:induction false} LeadsSnoc(w: World, steps: seq<Step>, w': World, step: Step)
    requires Leads(w, steps, w') && Shaped(w') && Enabled(w', step)
    ensures Leads(w, steps + [step], Next(w', step))
    decreases |steps|
  {
    if steps == [] {
      assert [] + [step] == [step];
      assert [step][1..] == [];
      assert Leads(Next(w', step), [], Next(w', step));
    } else {
      assert (steps + [step])[1..] == steps[1..] + [step];
      LeadsSnoc(Next(w, steps[0]), steps[1..], w', step);
    }
  }

  lemma {:induction false} ReachableStep(w: World, step: Step)
    requires Reachable(w) && Enabled(w, step)
    ensures Reachable(Next(w, step))
  {
    var steps :| Leads(EMPTY_WORLD, steps, w);
    LeadsSnoc(EMPTY_WORLD, steps, w, step);
    ReachableIsGood(w);
    StepGood(w, step);
  }

  lemma {:induction false} ReachableTrans(w: World, steps: seq<Step>, w': World)
    requires Reachable(w) && Leads(w, steps, w')
    ensures Reachable(w')
    decreases |steps|
  {
    if steps != [] {
      ReachableStep(w, steps[0]);
      ReachableTrans(Next(w, steps[0]), steps[1..], w');
    }
  }

  /** s is served by scene r over a connection that is open on the server's side. */
  predicate Serving(w: World, r: nat, s: nat)
    requires Shaped(w)
  {
    r < |w.scenes| && s in w.scenes[r].members && !w.pipes[s].closed
  }

  // ---------------------------------------------------------------------- history

  predicate Extends(h: History, h': History) {
    h <= h' && |h'| <= |h| + 1
  }

  /** A step adds at most one event to the history of a scene that exists, and a scene is
      created with none. */
  lemma {:induction false} StepHistory(w: World, step: Step, r: nat)
    requires Shaped(w) && Enabled(w, step)
    ensures var w' := Next(w, step);
      && |w.scenes| <= |w'.scenes| <= |w'.histories|
      && (r < |w.scenes| ==> Extends(w.histories[r], w'.histories[r]))
      && (|w.scenes| <= r < |w'.scenes| ==> w'.histories[r] == [])
  {
    if step.SetActive? && r < |w.scenes| {
      SwitchHistory(w, step.id, r);
    }
  }

  lemma {:induction false} SwitchHistory(w: World, id: string, r: nat)
    requires Shaped(w) && r < |w.scenes|
    ensures var w' := SetActiveTo(w, id);
      && |w'.scenes| == |w.scenes| == |w'.histories|
      && Extends(w.histories[r], w'.histories[r])
  {
    if id in w.registry && w.active != id && ActiveScene(w).Some? && ActiveScene(w).value != w.registry[id] {
      MigrateAt(w.(active := id), ActiveScene(w).value, w.registry[id], r);
    }
  }

  /** A run only adds to what happened to a scene. */
  lemma {:induction false} HistoryGrows(w: World, steps: seq<Step>, w': World, r: nat)
    requires Good(w) && Leads(w, steps, w') && r < |w.scenes|
    ensures Good(w') && r < |w'.scenes| && w.histories[r] <= w'.histories[r]
    decreases |steps|
  {
    if steps != [] {
      StepGood(w, steps[0]);
      StepHistory(w, steps[0], r);
      HistoryGrows(Next(w, steps[0]), steps[1..], w', r);
    }
  }

  lemma {:induction false} LastStep(w: World, steps: seq<Step>, w': World) returns (u: World)
    requires Leads(w, steps, w') && steps != []
    ensures Leads(w, steps[..|steps|-1], u) && Shaped(u)
    ensures Enabled(u, steps[|steps|-1]) && w' == Next(u, steps[|steps|-1])
    decreases |steps|
  {
    var first, rest := steps[0], steps[1..];
    if rest == [] {
      u := w;
    } else {
      u := LastStep(Next(w, first), rest, w');
      var init := rest[..|rest|-1];
      assert steps[..|steps|-1] == [first] + init;
      assert ([first] + init)[1..] == init;
    }
  }

  /** The world u is the one after the first k steps of a run from nothing. */
  ghost predicate Passed(steps: seq<Step>, k: nat, u: World) {
    k <= |steps| && Leads(EMPTY_WORLD, steps[..k], u)
  }

  predicate HadHistory(u: World, r: nat, h: History) {
    r < |u.scenes| && r < |u.histories| && u.histories[r] == h
  }

  /** Every earlier stage of a scene's history is where the run once was. */
  lemma {:induction false} EveryStagePassed(steps: seq<Step>, w: World, r: nat, i: nat) returns (k: nat, u: World)
    requires Leads(EMPTY_WORLD, steps, w) && r < |w.scenes| && r < |w.histories| && i <= |w.histories[r]|
    ensures Passed(steps, k, u) && Good(u) && HadHistory(u, r, w.histories[r][..i])
    decreases |steps|
  {
    var h := w.histories[r];
    if i == |h| {
      LeadsToGood(EMPTY_WORLD, steps, w);
      assert h[..i] == h && steps[..|steps|] == steps;
      k, u := |steps|, w;
    } else {
      var init := steps[..|steps|-1];
      var v := LastStep(EMPTY_WORLD, steps, w);
      StepHistory(v, steps[|steps|-1], r);
      assert v.histories[r][..i] == h[..i];
      k, u := EveryStagePassed(init, v, r, i);
      assert init[..k] == steps[..k];
    }
  }

  /** Scene q of u is at seq v.0 with state v.1. */
  predicate Stood(u: World, q: nat, v: (nat, State)) {
    q < |u.scenes| && u.scenes[q].seqno == v.0 && u.scenes[q].store == v.1
  }

  /** At some point of the run some scene was at this seq with this state. */
  ghost predicate WasServed(steps: seq<Step>, v: (nat, State)) {
    exists k, u, q :: Passed(steps, k, u) && Stood(u, q, v)
  }

  /** Noted before, or the pair some scene is in now. */
  ghost predicate Explained(w: World, w': World, s: nat, v: (nat, State)) {
    (s in w.clients && v in w.clients[s].seen) || exists q :: Stood(w', q, v)
  }

  lemma {:induction false} SwitchSeen(w: World, r: nat, t: nat, s: nat, v: (nat, State))
    requires Shaped(w) && r < |w.scenes| && t < |w.scenes| && r != t && s in w.clients
    requires s in Migrate(w, r, t).clients && v in Migrate(w, r, t).clients[s].seen
    ensures Explained(w, Migrate(w, r, t), s, v)
  {
    MigrateClient(w, r, t, s);
    MigrateAt(w, r, t, r);
    MigrateAt(w, r, t, t);
    assert v in w.clients[s].seen || Stood(Migrate(w, r, t), r, v) || Stood(Migrate(w, r, t), t, v);
  }

  lemma {:induction false} EmitSeen(w: World, r: nat, entries: seq<Entry>, cause: Option<Cause>, s: nat,
                                    v: (nat, State))
    requires Shaped(w) && r < |w.scenes| && s in w.clients
    requires s in EmitIn(w, r, entries, cause).clients && v in EmitIn(w, r, entries, cause).clients[s].seen
    ensures Explained(w, EmitIn(w, r, entries, cause), s, v)
  {
    assert v in w.clients[s].seen || Stood(EmitIn(w, r, entries, cause), r, v);
  }

  lemma {:induction false} SetSeen(w: World, r: nat, entries: seq<Entry>, s: nat, v: (nat, State))
    requires Shaped(w) && r < |w.scenes| && s in w.clients
    requires s in SetIn(w, r, entries).clients && v in SetIn(w, r, entries).clients[s].seen
    ensures Explained(w, SetIn(w, r, entries), s, v)
  {
    assert v in w.clients[s].seen || Stood(SetIn(w, r, entries), r, v);
  }

  lemma {:induction false} StepSeen(w: World, step: Step, s: nat, v: (nat, State))
    requires Shaped(w) && Enabled(w, step) && !step.Attach?
    requires s in Next(w, step).clients && v in Next(w, step).clients[s].seen
    ensures Explained(w, Next(w, step), s, v)
  {
    match step
    case SetActive(id) =>
      if SetActiveTo(w, id).clients != w.clients {
        var r, t := ActiveScene(w).value, w.registry[id];
        SwitchSeen(w.(active := id), r, t, s, v);
      }
    case SetLeaves(r, entries) => SetSeen(w, r, entries, s, v);
    case EmitLeaves(r, entries, cause) => EmitSeen(w, r, entries, cause, s, v);
    case ApplyInput(r, identity, patches, cause) =>
      if Gate(w.scenes[r].inputs, identity, patches).None? { EmitSeen(w, r, Collapse(patches), cause, s, v); }
    case _ =>
  }

  /** What a new subscription starts from: the scene's present, or stages of its history. */
  lemma {:induction false} StartSeen(sc: SceneState<nat>, h: History, since: Option<int>, held: State, v: (nat, State))
    requires v in Started(sc, h, since, held).seen && Consistent(sc, h)
    ensures Covers(h, v.0) && v.1 == StateAt(h, v.0)
  {
    StateAtNow(h);
  }

  lemma {:induction false} LaterServed(steps: seq<Step>, step: Step, v: (nat, State))
    requires WasServed(steps, v)
    ensures WasServed(steps + [step], v)
  {
    var k: nat, u, q: nat :| Passed(steps, k, u) && Stood(u, q, v);
    assert (steps + [step])[..k] == steps[..k];
    assert Passed(steps + [step], k, u);
  }

  lemma {:induction false} StageWasServed(steps: seq<Step>, w: World, r: nat, i: nat)
    requires Leads(EMPTY_WORLD, steps, w) && r < |w.scenes| && r < |w.histories| && i <= |w.histories[r]|
    ensures WasServed(steps, (SeqAfter(w.histories[r][..i]), StateAfter(w.histories[r][..i])))
  {
    var k, u := EveryStagePassed(steps, w, r, i);
    assert Consistent(u.scenes[r], u.histories[r]);
    assert Stood(u, r, (SeqAfter(w.histories[r][..i]), StateAfter(w.histories[r][..i])));
  }

  lemma {:induction false} StartWasServed(steps: seq<Step>, w: World, step: Step, v: (nat, State))
    requires Leads(EMPTY_WORLD, steps, w) && Good(w) && step.Attach? && step.r < |w.scenes|
    requires v in Started(w.scenes[step.r], w.histories[step.r], step.since, step.held).seen
    ensures WasServed(steps, v)
  {
    var sc, h := w.scenes[step.r], w.histories[step.r];
    assert Consistent(sc, h);
    StartSeen(sc, h, step.since, step.held, v);
    StageWasServed(steps, w, step.r, IndexAt(h, v.0));
  }

  lemma {:induction false} NowServed(steps: seq<Step>, w: World, v: (nat, State))
    requires Leads(EMPTY_WORLD, steps, w) && exists q: nat :: Stood(w, q, v)
    ensures WasServed(steps, v)
  {
    assert steps[..|steps|] == steps;
    assert Passed(steps, |steps|, w);
  }

  /** Every pair a client is said to have been served was the pair of some scene at some
      point of the run. */
  lemma {:induction false} SeenWasServed(steps: seq<Step>, w: World, s: nat, v: (nat, State))
    requires Leads(EMPTY_WORLD, steps, w) && s in w.clients && v in w.clients[s].seen
    ensures WasServed(steps, v)
    decreases |steps|
  {
    var init, step := steps[..|steps|-1], steps[|steps|-1];
    var w0 := LastStep(EMPTY_WORLD, steps, w);
    assert steps == init + [step];
    if s in w0.clients && v in w0.clients[s].seen {
      SeenWasServed(init, w0, s, v);
      LaterServed(init, step, v);
    } else if step.Attach? {
      LeadsToGood(EMPTY_WORLD, init, w0);
      StartWasServed(init, w0, step, v);
      LaterServed(init, step, v);
    } else {
      StepSeen(w0, step, s, v);
      NowServed(steps, w, v);
    }
  }

  // ------------------------------------------------------------------ agreement

  /** Replicas agree with the store: for a subscriber that was never dropped on, folding the
      frames still on their way into the client's shadow gives exactly the store of the scene
      that owns it now, through sets, emissions, inputs, late joins, resumes and migrations. */
  lemma {:induction false} ReplicasAgree(w: World, r: nat, s: nat)
    requires Reachable(w) && Serving(w, r, s) && !w.pipes[s].stale && w.clients[s].honest
    ensures Folded(w.clients[s].rx.shadow, Pending(w.pipes[s], w.clients[s])) == w.scenes[r].store
  {
    ReachableIsGood(w);
    var p, c := w.pipes[s], w.clients[s];
    assert Served(w.scenes[r], w.histories[r], p, c);
    WalkFolds(c.rx, Pending(p, c));
  }

  /** A client with nothing left to receive is a replica. */
  lemma {:induction false} DrainedReplica(w: World, r: nat, s: nat)
    requires Reachable(w) && Serving(w, r, s) && !w.pipes[s].stale && w.clients[s].honest
    requires Pending(w.pipes[s], w.clients[s]) == []
    ensures w.clients[s].rx.shadow == w.scenes[r].store
  {
    ReplicasAgree(w, r, s);
  }

  /** A live subscriber that started from a snapshot and was never dropped on never sees a
      gap and never discards a frame, and its tracker ends at its scene's counter. */
  lemma {:induction false} NoFalseAlarms(w: World, r: nat, s: nat)
    requires Reachable(w) && Serving(w, r, s) && !w.pipes[s].stale
    requires w.pipes[s].live && !w.clients[s].resumed
    ensures !w.clients[s].rx.gap && !w.clients[s].rx.dropped
    ensures var e := End(w.pipes[s], w.clients[s]);
      !e.gap && !e.dropped && e.tracker == w.scenes[r].seqno && e.state == w.scenes[r].store
  {
    ReachableIsGood(w);
    var p, c := w.pipes[s], w.clients[s];
    assert Served(w.scenes[r], w.histories[r], p, c);
    WalkKeepsFlags(c.rx, Pending(p, c));
  }

  /** Whatever dropped frames and lies about its state went before: once the last snapshot meant
      for it was queued, a checking client that ends level with its scene ends with its state. */
  lemma {:induction false} LastSnapshotHeals(w: World, r: nat, s: nat)
    requires Reachable(w) && Serving(w, r, s) && !w.clients[s].astray
    ensures var e := End(w.pipes[s], w.clients[s]);
      e.gap || e.tracker < w.scenes[r].seqno || (e.tracker == w.scenes[r].seqno && e.state == w.scenes[r].store)
  {
    ReachableIsGood(w);
    assert Served(w.scenes[r], w.histories[r], w.pipes[s], w.clients[s]);
  }

  /** However many frames full queues swallowed: as long as its scene's state was not replaced
      and it was not moved since it joined, a client that heeds the gap check has stopped, has
      not started, or holds exactly the state its scene had at the client's seq. */
  lemma {:induction false} NeverSilentlyWrong(w: World, r: nat, s: nat)
    requires Reachable(w) && Serving(w, r, s) && !w.clients[s].disturbed && w.clients[s].honest
    ensures var rx := w.clients[s].rx;
      rx.gap || rx.tracker == 0 || Holds(w.histories[r], rx.tracker, rx.state)
  {
    ReachableIsGood(w);
    assert Served(w.scenes[r], w.histories[r], w.pipes[s], w.clients[s]);
    var c := w.clients[s];
    assert AllRight(c.rx, Pending(w.pipes[s], c), c.seen);
  }

  /** With sets and moves allowed: unless a snapshot meant for it was dropped, the client has
      stopped, has not started, or holds the seq and the state that some scene really had at
      one and the same point of the run; and so it will be after each frame still to come. */
  lemma {:induction false} OnlyServedStates(steps: seq<Step>, w: World, r: nat, s: nat)
    requires Leads(EMPTY_WORLD, steps, w) && Shaped(w)
    requires Serving(w, r, s) && w.clients[s].honest && !w.clients[s].lostSnapshot
    ensures AllRight(w.clients[s].rx, Pending(w.pipes[s], w.clients[s]), w.clients[s].seen)
    ensures forall v :: v in w.clients[s].seen ==> WasServed(steps, v)
    ensures var rx := w.clients[s].rx;
      rx.gap || rx.tracker == 0 || WasServed(steps, (rx.tracker, rx.state))
  {
    forall v | v in w.clients[s].seen ensures WasServed(steps, v) { SeenWasServed(steps, w, s, v); }
    ReachableIsGood(w);
    assert Served(w.scenes[r], w.histories[r], w.pipes[s], w.clients[s]);
  }

  // ------------------------------------------------------ where a tracker stands, over runs

  /** What the first frames of a subscription make of its tracker. */
  function StartOf(sc: SceneState<nat>, h: History, since: Option<int>): Standing {
    if Open(sc, since).Fresh? then Even else ReplayFate(h, since.value)
  }

  /** A test-mode subscriber keeps the standing and the event it joined with; a live one that
      joined level is level whenever it is moved. */
  predicate KeepsStart(w: World, w': World, s: nat)
    requires s in w.clients && s in w.pipes
  {
    && s in w'.clients && s in w'.pipes && w'.pipes[s].live == w.pipes[s].live
    && (!w.pipes[s].live ==>
          w'.clients[s].start == w.clients[s].start && w'.clients[s].joined == w.clients[s].joined)
    && (w.pipes[s].live && w.clients[s].start.Even? ==> w'.clients[s].start.Even?)
  }

  lemma {:induction false} SwitchKeepsStart(w: World, r: nat, t: nat, s: nat)
    requires Shaped(w) && AllServed(w) && r < |w.scenes| && t < |w.scenes| && r != t && s in w.clients
    ensures KeepsStart(w, Migrate(w, r, t), s)
  {
    MigratePipe(w, r, t, s);
    MigrateClient(w, r, t, s);
    if s in w.scenes[r].members {
      assert Served(w.scenes[r], w.histories[r], w.pipes[s], w.clients[s]);
    }
  }

  lemma {:induction false} StepKeepsStart(w: World, step: Step, s: nat)
    requires Good(w) && Enabled(w, step) && s in w.clients
    ensures KeepsStart(w, Next(w, step), s)
  {
    match step
    case SetActive(id) => SetActiveKeepsStart(w, id, s);
    case ApplyInput(r, identity, patches, cause) =>
      if Gate(w.scenes[r].inputs, identity, patches).None? { EmitKeepsStart(w, r, Collapse(patches), cause, s); }
    case EmitLeaves(r, entries, cause) => EmitKeepsStart(w, r, entries, cause, s);
    case SetLeaves(r, entries) => SetKeepsStart(w, r, entries, s);
    case Deliver(u) => DeliverKeepsStart(w, u, s);
    case ResetScene(r) => ResetKeepsStart(w, r, s);
    case Detach(u) => CloseKeepsStart(w, w.registry.Values, u, s);
    case Unsubscribe(r, u) => CloseKeepsStart(w, {r}, u, s);
    case _ =>
  }

  lemma {:induction false} SetKeepsStart(w: World, r: nat, entries: seq<Entry>, s: nat)
    requires Shaped(w) && r < |w.scenes| && s in w.clients
    ensures KeepsStart(w, SetIn(w, r, entries), s)
  {
  }

  lemma {:induction false} SetActiveKeepsStart(w: World, id: string, s: nat)
    requires Shaped(w) && AllServed(w) && s in w.clients
    ensures KeepsStart(w, SetActiveTo(w, id), s)
  {
    if SwitchedFrom(RegistryOf(w), id).Some? {
      SwitchKeepsStart(w.(active := id), ActiveScene(w).value, w.registry[id], s);
    }
  }

  lemma {:induction false} ResetKeepsStart(w: World, r: nat, s: nat)
    requires Shaped(w) && r < |w.scenes| && s in w.clients
    ensures KeepsStart(w, ResetIn(w, r), s)
  {
  }

  lemma {:induction false} CloseKeepsStart(w: World, which: set<nat>, u: nat, s: nat)
    requires Shaped(w) && u in w.pipes && s in w.clients
    ensures KeepsStart(w, CloseIn(w, which, u), s)
  {
  }

  lemma {:induction false} DeliverKeepsStart(w: World, u: nat, s: nat)
    requires Shaped(w) && Enabled(w, Deliver(u)) && s in w.clients
    ensures KeepsStart(w, DeliverTo(w, u), s)
  {
  }

  lemma {:induction false} EmitKeepsStart(w: World, r: nat, entries: seq<Entry>, cause: Option<Cause>, s: nat)
    requires Shaped(w) && r < |w.scenes| && s in w.clients
    ensures KeepsStart(w, EmitIn(w, r, entries, cause), s)
  {
  }

  lemma {:induction false} RunKeepsStart(w: World, steps: seq<Step>, w': World, s: nat)
    requires Good(w) && Leads(w, steps, w') && s in w.clients
    ensures KeepsStart(w, w', s)
    decreases |steps|
  {
    if steps != [] {
      StepKeepsStart(w, steps[0], s);
      StepGood(w, steps[0]);
      RunKeepsStart(Next(w, steps[0]), steps[1..], w', s);
    }
  }

  lemma {:induction false} Joins(w: World, r: nat, s: nat, live: bool, since: Option<int>, held: State)
    returns (w1: World)
    requires Reachable(w) && Enabled(w, Attach(r, s, live, since, held))
    ensures w1 == Next(w, Attach(r, s, live, since, held)) && Reachable(w1) && Good(w1)
    ensures s in w1.clients && s in w1.pipes && w1.pipes[s].live == live
    ensures w1.clients[s].start == StartOf(w.scenes[r], w.histories[r], since)
    ensures w1.clients[s].joined == |w.histories[r]|
  {
    ReachableStep(w, Attach(r, s, live, since, held));
    w1 := AttachTo(w, r, s, live, since, held);
    ReachableIsGood(w1);
  }

  /** A test-mode subscriber, snapshot-started or resumed with whatever it claimed, that was
      never dropped on: after any run it stands as what happened to its scene since says. */
  lemma {:induction false} TestClientStands(w: World, r: nat, s: nat, since: Option<int>, held: State,
                                            steps: seq<Step>, w': World)
    requires Reachable(w) && Enabled(w, Attach(r, s, false, since, held))
    requires Leads(Next(w, Attach(r, s, false, since, held)), steps, w')
    requires Shaped(w') && Serving(w', r, s) && !w'.pipes[s].stale
    ensures Stands(Fate(StartOf(w.scenes[r], w.histories[r], since), w'.histories[r], |w.histories[r]|),
                   w'.scenes[r].seqno, End(w'.pipes[s], w'.clients[s]))
  {
    var w1 := Joins(w, r, s, false, since, held);
    RunKeepsStart(w1, steps, w', s);
    LeadsToGood(w1, steps, w');
    assert Served(w'.scenes[r], w'.histories[r], w'.pipes[s], w'.clients[s]);
  }

  /** For one that started from a snapshot: it is told of a gap exactly when, since it joined,
      an emission followed a seq spent on a switch with no set between them; otherwise it is
      behind its scene exactly when a switch was followed by no set, and level if not. */
  lemma {:induction false} TestClientExact(w: World, r: nat, s: nat, since: Option<int>, held: State,
                                           steps: seq<Step>, w': World)
    requires Reachable(w) && Enabled(w, Attach(r, s, false, since, held)) && Open(w.scenes[r], since).Fresh?
    requires Leads(Next(w, Attach(r, s, false, since, held)), steps, w')
    requires Shaped(w') && Serving(w', r, s) && !w'.pipes[s].stale
    ensures var h, n, e := w'.histories[r], |w.histories[r]|, End(w'.pipes[s], w'.clients[s]);
      && w.histories[r] <= h
      && (e.gap <==> HoleHit(h, n))
      && (!e.gap ==> !e.dropped && e.tracker <= w'.scenes[r].seqno)
      && (!e.gap ==> (e.tracker < w'.scenes[r].seqno <==> HoleOpen(h, n, |h|)))
  {
    var w1 := Joins(w, r, s, false, since, held);
    HistoryGrows(w1, steps, w', r);
    TestClientStands(w, r, s, since, held, steps, w');
    FateExact(w'.histories[r], |w.histories[r]|);
  }

  /** A live subscriber that started level, from a snapshot or from a replay without a hole, and
      was never dropped on: after any run, wherever it was moved, it ends level and unalarmed. */
  lemma {:induction false} LiveClientStaysLevel(w: World, r: nat, s: nat, since: Option<int>, held: State,
                                                steps: seq<Step>, w': World, q: nat)
    requires Reachable(w) && Enabled(w, Attach(r, s, true, since, held))
    requires StartOf(w.scenes[r], w.histories[r], since).Even?
    requires Leads(Next(w, Attach(r, s, true, since, held)), steps, w')
    requires Shaped(w') && Serving(w', q, s) && !w'.pipes[s].stale
    ensures InStep(w'.scenes[q], w'.pipes[s], w'.clients[s])
  {
    var w1 := Joins(w, r, s, true, since, held);
    RunKeepsStart(w1, steps, w', s);
    LeadsToGood(w1, steps, w');
    assert Served(w'.scenes[q], w'.histories[q], w'.pipes[s], w'.clients[s]);
  }

  // --------------------------------------------------------------------- resuming

  /** A client that holds the state of this scene at `since` is brought to the current store,
      by the replayed emissions when they are covered and by the snapshot otherwise. */
  lemma {:induction false} ResumeIsExact(w: World, r: nat, since: int, held: State)
    requires Reachable(w) && r < |w.scenes| && Holds(w.histories[r], since, held)
    ensures Folded(held, InitialItems(Open(w.scenes[r], Some(since)))) == w.scenes[r].store
  {
    ReachableIsGood(w);
    var sc, h := w.scenes[r], w.histories[r];
    assert Consistent(sc, h);
    StartServes(sc, h, true, Some(since), held);
    var p, c := NewPipe(true), Started(sc, h, Some(since), held);
    assert Pending(p, c) == c.initial;
    WalkFolds(c.rx, c.initial);
    if Open(sc, Some(since)).Fresh? {
      assert [Frame(SnapshotOf(sc))][1..] == [];
    }
  }

  /** Hence a client that heeds the gap check can always come back with its tracker as
      `since`, even after a gap: what it holds is what a resume needs. */
  lemma {:induction false} ReconnectIsExact(w: World, r: nat, s: nat)
    requires Reachable(w) && Serving(w, r, s) && !w.clients[s].disturbed && w.clients[s].honest
    requires !w.clients[s].rx.gap && w.clients[s].rx.tracker != 0
    ensures var rx := w.clients[s].rx;
      Folded(rx.state, InitialItems(Open(w.scenes[r], Some(rx.tracker)))) == w.scenes[r].store
  {
    NeverSilentlyWrong(w, r, s);
    ResumeIsExact(w, r, w.clients[s].rx.tracker, w.clients[s].rx.state);
  }

  lemma {:induction false} AfterContiguous(log: seq<ReplayRecord>, k: nat, since: int)
    requires k <= |log| && since <= |log| + 1 && since >= k + 1
    requires forall i :: 0 <= i < |log| ==> log[i].seqno == i + 2
    ensures After(log[k..], since) == log[since-1..]
  {
    var a, b := log[k..since-1], log[since-1..];
    assert log[k..] == a + b;
    AfterSplit(a, b, since);
    AfterNone(a, since);
    AfterAll(b, since);
  }

  lemma {:induction false} ContiguousWindow(log: seq<ReplayRecord>, since: int)
    requires forall i :: 0 <= i < |log| ==> log[i].seqno == i + 2
    requires 1 <= since <= |log| + 1
    ensures var slice := Since(LastOf(log, DEFAULT_REPLAY_BUFFER_SIZE), since);
      && (slice.covered <==> |log| + 1 - since <= DEFAULT_REPLAY_BUFFER_SIZE)
      && (slice.covered ==> slice.records == log[since-1..])
  {
    var k := |log| - |LastOf(log, DEFAULT_REPLAY_BUFFER_SIZE)|;
    if log != [] && since >= k + 1 { AfterContiguous(log, k, since); }
  }

  /** In a scene never migrated away from, a resume replays exactly when `since` is a seq of
      the scene and at most 256 seqs were missed, and then exactly one record for each of them, in order. */
  lemma {:induction false} ExactResumeWindow(w: World, r: nat, since: int)
    requires Reachable(w) && r < |w.scenes| && Skipped !in w.histories[r]
    ensures var opening := Open(w.scenes[r], Some(since));
      var missed := w.scenes[r].seqno - since;
      && (opening.Resumed? <==> 1 <= since && 0 <= missed <= 256)
      && (opening.Resumed? ==>
            |opening.records| == missed
            && forall i :: 0 <= i < missed ==> opening.records[i].seqno == since + 1 + i)
  {
    ReachableIsGood(w);
    assert Consistent(w.scenes[r], w.histories[r]);
    ContiguousRecords(w.histories[r]);
    if 1 <= since <= w.scenes[r].seqno { ContiguousWindow(Records(w.histories[r]), since); }
  }

  // -------------------------------------------------------------------- ownership

  /** No subscription is in two scenes, live ones in registered scenes are in the active one,
      and the active id is registered, or empty when nothing is. */
  lemma {:induction false} Ownership(w: World, q: nat, r: nat, s: nat)
    requires Reachable(w)
    ensures w.active == "" <==> w.registry == map[]
    ensures w.active != "" ==> w.active in w.registry
    ensures q < |w.scenes| && r < |w.scenes| && s in w.scenes[q].members && s in w.scenes[r].members ==> q == r
    ensures q < |w.scenes| && s in w.scenes[q].members && w.pipes[s].live && Registered(w, q) ==>
      ActiveScene(w) == Some(q)
  {
    ReachableIsGood(w);
    assert Owned(w);
  }

  predicate ServedLive(w: World, s: nat)
    requires Shaped(w)
  {
    s in w.pipes && w.pipes[s].live
    && exists id :: id in w.registry && s in w.scenes[w.registry[id]].members
  }

  lemma {:induction false} ServedLiveIsActive(w: World, s: nat)
    requires Shaped(w) && Owned(w) && w.active in w.registry
    ensures ServedLive(w, s) <==>
      s in w.scenes[w.registry[w.active]].members && w.pipes[s].live
  {
    if ServedLive(w, s) {
      var k :| k in w.registry && s in w.scenes[w.registry[k]].members;
      assert Registered(w, w.registry[k]);
    }
  }

  lemma {:induction false} SetActiveOwned(w: World, id: string)
    requires Shaped(w) && Owned(w) && id in w.registry && w.active != id
    ensures var w' := SetActiveTo(w, id);
      && Shaped(w') && Owned(w') && w'.active == id && w'.registry == w.registry
      && w.active in w.registry && w.registry[w.active] != w.registry[id]
      && w' == Migrate(w.(active := id), w.registry[w.active], w.registry[id])
  {
    SetActiveMigrates(w, id);
    MigrateOwned(w, w.registry[w.active], id);
    MigrateIds(w.(active := id), w.registry[w.active], w.registry[id]);
  }

  lemma {:induction false} LiveFollow(w: World, id: string, s: nat)
    requires Shaped(w) && Owned(w) && id in w.registry && w.active != id
    ensures var w' := SetActiveTo(w, id);
      && Shaped(w') && w.registry[id] < |w'.scenes|
      && (s in w'.scenes[w.registry[id]].members && w'.pipes[s].live <==>
            s in w.scenes[w.registry[w.active]].members && w.pipes[s].live)
  {
    SetActiveOwned(w, id);
    var w1, r, t := w.(active := id), w.registry[w.active], w.registry[id];
    MigrateMember(w1, r, t, t, s);
    if s in w.pipes { MigrateLive(w1, r, t, s); }
    if s in w.scenes[t].members && w.pipes[s].live { assert Registered(w, t); }
  }

  /** s is served live before exactly when it is afterwards, and then by the scene of id. */
  predicate KeepsLive(w: World, w': World, id: string, s: nat)
    requires Shaped(w) && id in w.registry
  {
    && Shaped(w') && w'.registry == w.registry
    && (ServedLive(w', s) <==> ServedLive(w, s))
    && (ServedLive(w, s) ==> s in w'.scenes[w'.registry[id]].members)
  }

  /** Switching the active scene moves the live subscribers and loses none of them. */
  lemma {:induction false} SetActiveConserves(w: World, id: string, s: nat)
    requires Reachable(w) && id in w.registry
    ensures KeepsLive(w, Next(w, SetActive(id)), id, s)
  {
    ReachableIsGood(w);
    OwnedConserves(w, id, s);
  }

  lemma {:induction false} OwnedConserves(w: World, id: string, s: nat)
    requires Shaped(w) && Owned(w) && id in w.registry
    ensures KeepsLive(w, SetActiveTo(w, id), id, s)
  {
    ServedLiveIsActive(w, s);
    if w.active != id {
      SetActiveOwned(w, id);
      LiveFollow(w, id, s);
      ServedLiveIsActive(SetActiveTo(w, id), s);
    }
  }
}

/** Runs from the empty server to worlds in which something a reader might expect fails. */
module Witnesses {
  import opened Wrappers
  import opened JsonValues
  import opened Stores
  import opened Replays
  import opened SceneModel
  import opened Clients
  import opened Histories
  import opened Subscribers
  import opened Protocol
  import opened Runs
  import opened Limits

  lemma {:induction false} OneScene() returns (w: World)
    ensures Reachable(w) && w == WithScene(EMPTY_WORLD, "a", "", map[])
  {
    EmptyIsReachable();
    ReachableStep(EMPTY_WORLD, NewScene("a", "", map[]));
    w := Next(EMPTY_WORLD, NewScene("a", "", map[]));
  }

  lemma {:induction false} DeliverEffect(w: World, r: nat, s: nat)
    requires Shaped(w) && Serving(w, r, s) && Pending(w.pipes[s], w.clients[s]) != []
    ensures var w' := DeliverTo(w, s);
      && Shaped(w') && Serving(w', r, s) && w'.scenes == w.scenes
      && Pending(w'.pipes[s], w'.clients[s]) == Pending(w.pipes[s], w.clients[s])[1..]
      && w'.clients[s].rx == Receive(w.clients[s].rx, Pending(w.pipes[s], w.clients[s])[0])
      && w'.pipes[s].(queue := []) == w.pipes[s].(queue := [])
      && w'.clients[s].resumed == w.clients[s].resumed
  {
    DeliverShaped(w, s);
    var p, c := w.pipes[s], w.clients[s];
    assert Pending(Popped(p, c), Received(p, c)) == Pending(p, c)[1..];
  }

  lemma {:induction false} Drain(w: World, r: nat, s: nat) returns (w': World)
    requires Reachable(w) && Serving(w, r, s)
    ensures Reachable(w') && Serving(w', r, s) && Pending(w'.pipes[s], w'.clients[s]) == []
    ensures w'.scenes == w.scenes && w'.clients[s].rx == End(w.pipes[s], w.clients[s])
    ensures w'.pipes[s].(queue := []) == w.pipes[s].(queue := [])
    ensures w'.clients[s].resumed == w.clients[s].resumed
    decreases |Pending(w.pipes[s], w.clients[s])|
  {
    if Pending(w.pipes[s], w.clients[s]) == [] { return w; }
    ReachableStep(w, Deliver(s));
    DeliverEffect(w, r, s);
    w' := Drain(DeliverTo(w, s), r, s);
  }

  // ------------------------------------------------------------------- a lost set

  /** Nothing to receive, no alarm raised, level with the scene's counter, and yet holding
      another state than the scene's. */
  ghost predicate SilentlyWrong(w: World, r: nat, s: nat) {
    && Reachable(w) && Serving(w, r, s)
    && Pending(w.pipes[s], w.clients[s]) == []
    && var rx := w.clients[s].rx;
       !rx.gap && !rx.dropped && rx.tracker == w.scenes[r].seqno && rx.state != w.scenes[r].store
  }

  lemma {:induction false} Flood(w: World, r: nat, s: nat) returns (w': World)
    requires Reachable(w) && Followed(w, r, s)
    ensures Reachable(w') && Followed(w', r, s) && Full(w'.pipes[s])
    decreases QUEUE_SIZE - |w.pipes[s].queue|
  {
    if Full(w.pipes[s]) { return w; }
    var step := EmitLeaves(r, [Entry("x", JNull)], None);
    EmitEffect(w, r, s, [Entry("x", JNull)], None);
    ReachableStep(w, step);
    w' := Flood(Next(w, step), r, s);
  }

  lemma {:induction false} FollowedAgrees(w: World, r: nat, s: nat)
    requires Reachable(w) && Followed(w, r, s)
    ensures Agrees(w, r, s)
  {
    ReachableIsGood(w);
    assert Served(w.scenes[r], w.histories[r], w.pipes[s], w.clients[s]);
    ReplicasAgree(w, r, s);
  }

  lemma {:induction false} OneViewer() returns (w: World)
    ensures Reachable(w) && Followed(w, 0, 0) && |w.scenes| == 1 && w.registry == map["a" := 0]
  {
    var w1 := OneScene();
    assert w1.registry == map["a" := 0];
    assert Registered(w1, 0) by { assert w1.registry["a"] == 0; }
    ReachableStep(w1, Attach(0, 0, true, None, map[]));
    w := Next(w1, Attach(0, 0, true, None, map[]));
  }

  /** Some set changes the store. */
  function Change(store: State): seq<Entry> {
    [Entry("y", if "y" in store && store["y"] == JNull then JBool(true) else JNull)]
  }

  lemma {:induction false} ChangeChanges(store: State)
    ensures Apply(store, Change(store)) != store
  {
    var e := Change(store)[0];
    assert Change(store)[1..] == [];
    assert Apply(store, Change(store)) == store["y" := e.value];
  }

  lemma {:induction false} LostSet(w: World, r: nat, s: nat) returns (w': World)
    requires Reachable(w) && Followed(w, r, s) && Full(w.pipes[s])
    ensures Reachable(w') && Serving(w', r, s)
    ensures var e := End(w'.pipes[s], w'.clients[s]);
      !e.gap && !e.dropped && e.tracker == w'.scenes[r].seqno && e.state != w'.scenes[r].store
  {
    var entries := Change(w.scenes[r].store);
    CheckedSetExact(w, r, s, entries);
    w' := Next(w, SetLeaves(r, entries));
    ChangeChanges(w.scenes[r].store);
  }

  /** The gap check does not see a lost `set`: its snapshot spends no seq, so a client whose
      full queue dropped it is level with the server and wrong. */
  lemma {:induction false} LostSetIsSilent()
    ensures exists w, r, s :: SilentlyWrong(w, r, s)
  {
    var w0 := OneViewer();
    var w1 := Flood(w0, 0, 0);
    var w2 := LostSet(w1, 0, 0);
    var w3 := Drain(w2, 0, 0);
    assert SilentlyWrong(w3, 0, 0);
  }

  /** A lost emission: the snapshot it falls back to is lost with it, and an agreeing replica
      agrees no more. */
  lemma {:induction false} LostEmissionDiverges() returns (w: World, w': World)
    ensures Reachable(w) && Serving(w, 0, 0) && Agrees(w, 0, 0)
    ensures w' == Next(w, EmitLeaves(0, Change(w.scenes[0].store), None))
    ensures Reachable(w') && Serving(w', 0, 0) && !Agrees(w', 0, 0)
  {
    var w0 := OneViewer();
    w := Flood(w0, 0, 0);
    FollowedAgrees(w, 0, 0);
    var entries := Change(w.scenes[0].store);
    ChangeChanges(w.scenes[0].store);
    EmitAgreementExact(w, 0, 0, entries, None);
    EmitEffect(w, 0, 0, entries, None);
    ReachableStep(w, EmitLeaves(0, entries, None));
    w' := Next(w, EmitLeaves(0, entries, None));
  }

  // -------------------------------------------------------------- resume after a set

  /** A resume that leaves a client wrong: the scene is at seq 1, is set, and replays nothing. */
  lemma {:induction false} ResumeAfterSetIsStale() returns (w: World, held: State, w': World)
    ensures Reachable(w) && |w.scenes| == 1 && Holds(w.histories[0], 1, held)
    ensures w' == Next(w, SetLeaves(0, [Entry("x", JNull)])) && Reachable(w')
    ensures Open(w'.scenes[0], Some(1)) == Resumed([]) && held != w'.scenes[0].store
  {
    w := OneScene();
    held := map[];
    ReachableStep(w, SetLeaves(0, [Entry("x", JNull)]));
    w' := Next(w, SetLeaves(0, [Entry("x", JNull)]));
    assert "x" in w'.scenes[0].store;
  }

  // ------------------------------------------------------------- runs with a switch

  /** Scene 0 is active and serves a live subscriber 0 and a test-mode subscriber 1; scene 1
      is registered and serves nobody. */
  predicate TwoScenes(w: World) {
    && Shaped(w) && |w.scenes| == 2
    && w.registry == map["a" := 0, "b" := 1] && w.active == "a"
    && w.scenes[0].members == {0, 1} && w.scenes[1].members == {}
    && w.pipes[0].live && !w.pipes[0].closed
    && !w.pipes[1].live && !w.pipes[1].closed && !w.pipes[1].stale
    && !w.clients[1].resumed
  }

  lemma {:induction false} AttachFirst(w: World, s: nat, live: bool) returns (w': World)
    requires Reachable(w) && |w.scenes| == 2 && s !in w.pipes
    requires w.registry == map["a" := 0, "b" := 1] && w.active == "a"
    ensures Reachable(w')
    ensures w' == w.(scenes := w.scenes[0 := Joined(w.scenes[0], s)], pipes := w.pipes[s := NewPipe(live)],
                     clients := w.clients[s := Started(w.scenes[0], w.histories[0], None, map[])])
  {
    assert Registered(w, 0) by { assert w.registry["a"] == 0; }
    ReachableStep(w, Attach(0, s, live, None, map[]));
    w' := Next(w, Attach(0, s, live, None, map[]));
  }

  lemma {:induction false} NewcomerEnds(sc: SceneState<nat>, h: History, live: bool)
    requires sc.seqno >= 1
    ensures End(NewPipe(live), Started(sc, h, None, map[])) == Receiver(sc.store, sc.seqno, sc.store, false, false)
  {
    SnapshotArrives(sc, FRESH, {(sc.seqno, sc.store)});
    assert [Frame(SnapshotOf(sc))] + [] == [Frame(SnapshotOf(sc))];
  }

  lemma {:induction false} TwoViewers() returns (w: World)
    ensures Reachable(w) && TwoScenes(w) && w.pipes[1].queue == []
    ensures w.scenes[0].seqno == 1 && w.scenes[0].replay == []
    ensures End(w.pipes[1], w.clients[1]) == Receiver(map[], 1, map[], false, false)
  {
    var w1 := OneScene();
    ReachableStep(w1, NewScene("b", "", map[]));
    var w2 := Next(w1, NewScene("b", "", map[]));
    assert w2.registry == map["a" := 0, "b" := 1];
    var w3 := AttachFirst(w2, 0, true);
    w := AttachFirst(w3, 1, false);
    NewcomerEnds(w3.scenes[0], w3.histories[0], false);
  }

  lemma {:induction false} SwitchToBMoves(w: World)
    requires TwoScenes(w)
    ensures SetActiveTo(w, "b") == Migrate(w.(active := "b"), 0, 1) && LiveMembers(w.scenes[0], w.pipes) == {0}
  {
  }

  lemma {:induction false} SwitchToBScene(w: World)
    requires TwoScenes(w)
    ensures var w' := SetActiveTo(w, "b");
      && Shaped(w') && |w'.scenes| == 2
      && w'.scenes[0] == w.scenes[0].(members := {1}, seqno := w.scenes[0].seqno + 1)
      && w'.histories[0] == w.histories[0] + [Skipped]
  {
    SwitchToBMoves(w);
    MigrateAt(w.(active := "b"), 0, 1, 0);
    assert {0, 1} - {0} == {1};
  }

  lemma {:induction false} SwitchToBServes(w: World)
    requires TwoScenes(w)
    ensures var w' := SetActiveTo(w, "b");
      Shaped(w') && Serving(w', 1, 0) && w'.pipes[0].live && w'.clients[1].resumed == w.clients[1].resumed
  {
    SwitchToBMoves(w);
    MigrateAt(w.(active := "b"), 0, 1, 1);
    MigratePipe(w.(active := "b"), 0, 1, 0);
    MigrateClient(w.(active := "b"), 0, 1, 1);
  }

  /** The live subscriber is moved to scene 1 and the test-mode one is left behind. */
  lemma {:induction false} SwitchToB(w: World) returns (w': World)
    requires Reachable(w) && TwoScenes(w)
    ensures w' == Next(w, SetActive("b")) && Reachable(w') && |w'.scenes| == 2
    ensures Serving(w', 0, 1) && Serving(w', 1, 0) && w'.pipes[0].live
    ensures w'.scenes[0] == w.scenes[0].(members := {1}, seqno := w.scenes[0].seqno + 1)
    ensures w'.histories[0] == w.histories[0] + [Skipped]
    ensures w'.pipes[1] == w.pipes[1] && w'.clients[1].resumed == w.clients[1].resumed
    ensures End(w'.pipes[1], w'.clients[1]) == End(w.pipes[1], w.clients[1])
  {
    ReachableStep(w, SetActive("b"));
    w' := Next(w, SetActive("b"));
    ReachableIsGood(w);
    LeftBehind(w, "b", 1);
    SwitchToBScene(w);
    SwitchToBServes(w);
  }

  const NULL_X: seq<Entry> := [Entry("x", JNull)]

  /** Scene 0 emits to subscriber 1. */
  lemma {:induction false} EmitX(w: World) returns (w': World)
    requires Reachable(w) && |w.scenes| == 2 && Serving(w, 0, 1) && !Full(w.pipes[1])
    ensures w' == Next(w, EmitLeaves(0, NULL_X, None)) && Reachable(w')
    ensures |w'.scenes| == 2 && Serving(w', 0, 1)
    ensures w'.scenes[0] == AfterEmit(w.scenes[0], NULL_X, None)
    ensures w'.histories[0] == w.histories[0] + [Emitted(Emission(w.scenes[0], NULL_X, None))]
    ensures w'.clients[1].resumed == w.clients[1].resumed && w'.pipes[1].live == w.pipes[1].live
    ensures w'.pipes[1].stale == w.pipes[1].stale
  {
    EmitEffect(w, 0, 1, NULL_X, None);
    ReachableStep(w, EmitLeaves(0, NULL_X, None));
    w' := EmitIn(w, 0, NULL_X, None);
  }

  lemma {:induction false} EmitXTwoScenes(w: World)
    requires TwoScenes(w) && !Full(w.pipes[1])
    ensures TwoScenes(EmitIn(w, 0, NULL_X, None))
  {
  }

  /** A client that started from a snapshot and was never dropped on, and yet was told of a gap. */
  ghost predicate FalselyAlarmed(w: World, r: nat, s: nat) {
    && Reachable(w) && Serving(w, r, s)
    && !w.pipes[s].stale && !w.clients[s].resumed && w.clients[s].rx.gap
  }

  /** A switch does that to a test-mode subscriber. */
  lemma {:induction false} StrandedClientIsAlarmed()
    ensures exists w, r, s :: FalselyAlarmed(w, r, s) && !w.pipes[s].live
  {
    var w0 := TwoViewers();
    var w1 := SwitchToB(w0);
    BehindThenGap(w1, 0, 1, NULL_X, None);
    var w2 := EmitX(w1);
    var w3 := Drain(w2, 0, 1);
    assert FalselyAlarmed(w3, 0, 1);
  }

  /** An emission, a seq spent without a frame, and another emission. */
  lemma {:induction false} OpenAcrossHole(sc: SceneState<nat>, members: set<nat>)
    requires sc.seqno == 1 && sc.replay == []
    ensures var hole := AfterEmit(sc, NULL_X, None).(members := members, seqno := 3);
      Open(AfterEmit(hole, NULL_X, None), Some(2)) == Resumed([Emission(hole, NULL_X, None)])
  {
    var hole := AfterEmit(sc, NULL_X, None).(members := members, seqno := 3);
    var early, late := Emission(sc, NULL_X, None), Emission(hole, NULL_X, None);
    assert RingPush([], DEFAULT_REPLAY_BUFFER_SIZE, early) == [early];
    assert RingPush([early], DEFAULT_REPLAY_BUFFER_SIZE, late) == [early, late];
    assert [early, late][1..] == [late];
    assert [late][1..] == [];
    assert After([late], 2) == [late];
    assert After([early, late], 2) == [late];
  }

  lemma {:induction false} GapAt(held: State, late: ReplayRecord)
    requires late.seqno == 4
    ensures Walk(Receiver(held, 2, held, false, false), Deltas([late])).gap
  {
    assert Deltas([late]) == [Frame(DeltaOf(late))];
    assert Deltas([late])[1..] == [];
  }

  /** What the scene is now, a client may still hold after a switch and an emission. */
  lemma {:induction false} StillHeld(sc: SceneState<nat>, h: History, late: ReplayRecord)
    requires Consistent(sc, h)
    ensures Holds(h + [Skipped] + [Emitted(late)], sc.seqno, sc.store)
  {
    StateAtNow(h);
    StateAtExtends(h, Skipped, sc.seqno);
    StateAtExtends(h + [Skipped], Emitted(late), sc.seqno);
  }

  /** And to a client that resumes: it holds the scene's state at its seq, is offered a replay,
      and its tracker reports a gap. */
  lemma {:induction false} ResumeIsAlarmed() returns (w: World, held: State, records: seq<ReplayRecord>)
    ensures Reachable(w) && |w.scenes| == 2 && Holds(w.histories[0], 2, held)
    ensures Open(w.scenes[0], Some(2)) == Resumed(records)
    ensures Walk(Receiver(held, 2, held, false, false), Deltas(records)).gap
  {
    var w0 := TwoViewers();
    var w1 := EmitX(w0);
    EmitXTwoScenes(w0);
    var w2 := SwitchToB(w1);
    w := EmitX(w2);
    OpenAcrossHole(w0.scenes[0], {1});
    var late := Emission(w2.scenes[0], NULL_X, None);
    records := [late];
    held := w1.scenes[0].store;
    ReachableIsGood(w1);
    StillHeld(w1.scenes[0], w1.histories[0], late);
    GapAt(held, late);
    assert w2.scenes[0] == AfterEmit(w0.scenes[0], NULL_X, None).(members := {1}, seqno := 3);
    assert w.histories[0] == w1.histories[0] + [Skipped] + [Emitted(late)];
  }

  /** Such a run: the first subscriber, moved to scene 1, unsubscribes from scene 0. */
  lemma {:induction false} UnsubscribeLeavesMember() returns (w: World, w': World)
    ensures Reachable(w) && Serving(w, 1, 0) && w.pipes[0].live
    ensures Enabled(w, Step.Unsubscribe(0, 0)) && w' == Next(w, Step.Unsubscribe(0, 0))
    ensures Reachable(w') && ClosedMember(w', 1, 0)
  {
    var w0 := TwoViewers();
    w := SwitchToB(w0);
    LeaveAfterSwitch(w0, "b", 0);
    ReachableStep(w, Step.Unsubscribe(0, 0));
    w' := Next(w, Step.Unsubscribe(0, 0));
  }

  /** Detaching after the scene was replaced under its id: closed, and still a member of it. */
  lemma {:induction false} DetachLeavesMember() returns (w: World, w': World)
    ensures Reachable(w) && Serving(w, 0, 0) && w.pipes[0].live
    ensures Enabled(w, Detach(0)) && w' == Next(w, Detach(0))
    ensures Reachable(w') && ClosedMember(w', 0, 0)
  {
    var w0 := OneViewer();
    ReachableStep(w0, NewScene("a", "", map[]));
    w := Next(w0, NewScene("a", "", map[]));
    assert Registered(w, |w0.scenes|) by { assert w.registry["a"] == |w0.scenes|; }
    assert !Registered(w, 0);
    CloseAt(w, w.registry.Values, 0, 0);
    ReachableStep(w, Detach(0));
    w' := Next(w, Detach(0));
  }
}

/** What each step of the server puts on which queue, field by field. */
module Sending {
  import opened Wrappers
  import opened JsonValues
  import opened Frames
  import opened Stores
  import opened Replays
  import opened Inputs
  import opened Roles
  import opened Registries
  import opened SceneModel
  import opened Histories
  import opened Clients
  import opened Subscribers
  import opened Protocol
  import opened Runs
  import opened InputGate

  /** The queue gets these frames at its end, in this order, and nothing else changes. */
  predicate Queued(p: Pipe, p': Pipe, frames: seq<ServerFrame>) {
    && p' == p.(queue := p'.queue)
    && |p'.queue| == |p.queue| + |frames|
    && (forall i :: 0 <= i < |p.queue| ==> p'.queue[i] == p.queue[i])
    && (forall i :: 0 <= i < |frames| ==> p'.queue[|p.queue| + i] == Frame(frames[i]))
  }

  /** The patches say what the entries do, one for one and without transitions. */
  predicate Spell(patches: seq<Patch>, entries: seq<Entry>) {
    && |patches| == |entries|
    && forall i :: 0 <= i < |entries| ==>
         patches[i].path == entries[i].path && patches[i].value == entries[i].value && patches[i].transition == None
  }

  /** One delta: the next seq of the scene, the entries in order, the given cause, no timestamp. */
  predicate IsDelta(frame: ServerFrame, seqno: int, entries: seq<Entry>, cause: Option<Cause>) {
    && frame.Delta? && frame.seqno == seqno && Spell(frame.patches, entries)
    && frame.cause == cause && frame.ts == ""
  }

  /** The whole state of a scene, under its id, its version and its counter. */
  predicate IsSnapshot(frame: ServerFrame, sc: SceneState<nat>) {
    && frame.Snapshot? && frame.sceneId == sc.id && frame.sceneVersion == sc.version
    && frame.state == sc.store && frame.seqno == sc.seqno && frame.ts == ""
  }

  /** The announcement of a scene. */
  predicate IsAnnouncement(frame: ServerFrame, sc: SceneState<nat>, seqno: int) {
    && frame.SceneChanged? && frame.sceneId == sc.id && frame.sceneVersion == sc.version
    && frame.seqno == seqno && frame.ts == "" && frame.fromSceneId == None && frame.show == None
  }

  /** An emission sends its delta to exactly the members of the scene; where 256 frames wait
      already, it marks the subscriber stale and sends nothing. */
  lemma {:induction false} EmitSends(w: World, r: nat, entries: seq<Entry>, cause: Option<Cause>, s: nat)
    requires Shaped(w) && r < |w.scenes| && s in w.pipes && entries != []
    ensures var p, w' := w.pipes[s], EmitIn(w, r, entries, cause);
      && s in w'.pipes
      && (s !in w.scenes[r].members ==> w'.pipes[s] == p)
      && (s in w.scenes[r].members && |p.queue| >= 256 ==> w'.pipes[s] == p.(stale := true))
      && (s in w.scenes[r].members && |p.queue| < 256 ==>
            exists d :: Queued(p, w'.pipes[s], [d]) && IsDelta(d, w.scenes[r].seqno + 1, entries, cause))
  {
    var sc, p := w.scenes[r], w.pipes[s];
    PipeAfterEmitExact(sc, entries, cause, p);
    if s in sc.members && |p.queue| < 256 {
      var patches := seq(|entries|, i requires 0 <= i < |entries| => Patch(entries[i].path, entries[i].value, None));
      var d := Delta(patches, sc.seqno + 1, "", cause);
      assert Queued(p, PipeAfterEmit(sc, entries, cause, p), [d]);
      assert IsDelta(d, sc.seqno + 1, entries, cause);
    }
  }

  /** Besides, an emission updates the scene's store, counts one up, and remembers itself, at the
      cost of the oldest of 256; it changes nothing else of this scene and nothing of another. */
  lemma {:induction false} EmitScene(w: World, r: nat, entries: seq<Entry>, cause: Option<Cause>, q: nat)
    requires Shaped(w) && r < |w.scenes| && q < |w.scenes| && entries != []
    ensures var sc, w' := w.scenes[r], EmitIn(w, r, entries, cause);
      && |w'.scenes| == |w.scenes| && w'.registry == w.registry && w'.active == w.active
      && (q != r ==> w'.scenes[q] == w.scenes[q])
      && var sc' := w'.scenes[r];
         && sc' == sc.(store := Apply(sc.store, entries), seqno := sc.seqno + 1, replay := sc'.replay)
         && sc'.replay != []
         && sc'.replay[..|sc'.replay|-1] == (if |sc.replay| < 256 then sc.replay else sc.replay[1..])
         && var record := sc'.replay[|sc'.replay|-1];
            record.seqno == sc.seqno + 1 && record.cause == cause && Spell(record.patches, entries)
  {
  }

  /** An accepted input sends one delta with the input's cause: each path once, in the order of
      first mention, with the value of its last mention. */
  lemma {:induction false} InputSends(w: World, r: nat, identity: Identity, patches: seq<Patch>, cause: Option<Cause>,
                                      s: nat)
    requires Shaped(w) && r < |w.scenes| && s in w.scenes[r].members
    requires AllAllowed(w.scenes[r].inputs, identity, patches)
    ensures var p, w' := w.pipes[s], Next(w, ApplyInput(r, identity, patches, cause));
      && s in w'.pipes
      && (|p.queue| < 256 ==>
            exists d, entries ::
              && DictOf(patches, entries) && Queued(p, w'.pipes[s], [d])
              && IsDelta(d, w.scenes[r].seqno + 1, entries, cause))
  {
    GateExact(w.scenes[r].inputs, identity, patches);
    CollapseApplies(w.scenes[r].store, patches);
    CollapseExact(patches);
    var entries := Collapse(patches);
    EmitSends(w, r, entries, cause, s);
  }

  /** A set sends the new state to exactly the members of the scene, at the same seq. */
  lemma {:induction false} SetSends(w: World, r: nat, entries: seq<Entry>, s: nat)
    requires Shaped(w) && r < |w.scenes| && s in w.pipes && entries != []
    ensures var p, w' := w.pipes[s], SetIn(w, r, entries);
      && s in w'.pipes && r < |w'.scenes|
      && w'.scenes[r] == w.scenes[r].(store := Apply(w.scenes[r].store, entries))
      && (s !in w.scenes[r].members ==> w'.pipes[s] == p)
      && (s in w.scenes[r].members && |p.queue| >= 256 ==> w'.pipes[s] == p.(stale := true))
      && (s in w.scenes[r].members && |p.queue| < 256 ==>
            exists x :: Queued(p, w'.pipes[s], [x]) && IsSnapshot(x, w'.scenes[r]))
  {
    var sc, p := w.scenes[r], w.pipes[s];
    PipeAfterSetExact(sc, entries, p);
    if s in sc.members && |p.queue| < 256 {
      var x := Snapshot(sc.id, sc.version, Apply(sc.store, entries), sc.seqno, "");
      assert Queued(p, PipeAfterSet(sc, entries, p), [x]);
      assert IsSnapshot(x, SetIn(w, r, entries).scenes[r]);
    }
  }

  /** A switch sends every live member of the scene that stops being active the announcement of
      the next scene, on the counter of the old one, and then the next scene's state, as far as
      there is room; it sends nobody else anything. */
  lemma {:induction false} SwitchSends(w: World, id: string, s: nat)
    requires Reachable(w) && id in w.registry && w.active != id && ActiveScene(w).Some? && s in w.pipes
    ensures var p, w' := w.pipes[s], Next(w, SetActive(id));
      var prev, next := w.scenes[ActiveScene(w).value], w.scenes[w.registry[id]];
      && next.id == id && s in w'.pipes
      && (!(s in prev.members && p.live) ==> w'.pipes[s] == p)
      && (s in prev.members && p.live && |p.queue| < 255 ==>
            exists x, y ::
              && Queued(p, w'.pipes[s], [x, y])
              && IsAnnouncement(x, next, prev.seqno + 1) && IsSnapshot(y, next))
      && (s in prev.members && p.live && |p.queue| == 255 ==>
            exists x :: Queued(p.(stale := true), w'.pipes[s], [x]) && IsAnnouncement(x, next, prev.seqno + 1))
      && (s in prev.members && p.live && |p.queue| > 255 ==> w'.pipes[s] == p.(stale := true))
  {
    ReachableIsGood(w);
    SwitchedOrNot(w, id, s);
    SwitchedQueues(w.scenes[ActiveScene(w).value], w.scenes[w.registry[id]], w.pipes[s]);
  }

  lemma {:induction false} SwitchedOrNot(w: World, id: string, s: nat)
    requires Shaped(w) && Owned(w) && id in w.registry && w.active != id && ActiveScene(w).Some? && s in w.pipes
    ensures var p, w' := w.pipes[s], SetActiveTo(w, id);
      var prev, next := w.scenes[ActiveScene(w).value], w.scenes[w.registry[id]];
      s in w'.pipes && w'.pipes[s] == if s in prev.members && p.live then Switched(prev, next, p) else p
  {
    SetActiveMigrates(w, id);
    var r, t := ActiveScene(w).value, w.registry[id];
    MigratePipe(w.(active := id), r, t, s);
    assert s in LiveMembers(w.scenes[r], w.pipes) <==> s in w.scenes[r].members && w.pipes[s].live;
  }

  lemma {:induction false} SwitchedQueues(prev: SceneState<nat>, next: SceneState<nat>, p: Pipe)
    ensures var p' := Switched(prev, next, p);
      && (|p.queue| < 255 ==>
            exists x, y ::
              Queued(p, p', [x, y]) && IsAnnouncement(x, next, prev.seqno + 1) && IsSnapshot(y, next))
      && (|p.queue| == 255 ==>
            exists x :: Queued(p.(stale := true), p', [x]) && IsAnnouncement(x, next, prev.seqno + 1))
      && (|p.queue| > 255 ==> p' == p.(stale := true))
  {
    SwitchedExact(prev, next, p);
    var x := SceneChanged(next.id, next.version, prev.seqno + 1, "", None, None);
    var y := Snapshot(next.id, next.version, next.store, next.seqno, "");
    assert IsAnnouncement(x, next, prev.seqno + 1) && IsSnapshot(y, next);
    if |p.queue| < 255 {
      assert Queued(p, Switched(prev, next, p), [x, y]);
    } else if |p.queue| == 255 {
      assert Queued(p.(stale := true), Switched(prev, next, p), [x]);
    }
  }

  lemma {:induction false} SwitchAt(w: World, id: string, q: nat)
    requires Shaped(w) && Owned(w) && id in w.registry && w.active != id && q < |w.scenes|
    ensures var w' := SetActiveTo(w, id);
      && w.active in w.registry && ActiveScene(w) == Some(w.registry[w.active])
      && var r, t := w.registry[w.active], w.registry[id];
      && r != t && t < |w'.scenes| == |w.scenes| && w'.active == id && w'.registry == w.registry
      && var moved := LiveMembers(w.scenes[r], w.pipes);
         w'.scenes[q] == if q == r then MovedOut(w.scenes[r], moved)
                         else if q == t then MovedIn(w.scenes[t], moved) else w.scenes[q]
  {
    SetActiveOwned(w, id);
    MigrateAt(w.(active := id), w.registry[w.active], w.registry[id], q);
  }

  lemma {:induction false} SwitchMember(w: World, id: string, q: nat, s: nat)
    requires Shaped(w) && Owned(w) && id in w.registry && w.active != id && q < |w.scenes|
    requires w.active in w.registry
    ensures var w' := SetActiveTo(w, id);
      && q < |w'.scenes|
      && (s in w'.scenes[q].members <==>
            if s in w.scenes[w.registry[w.active]].members && w.pipes[s].live then q == w.registry[id]
            else s in w.scenes[q].members)
  {
    SetActiveOwned(w, id);
    MigrateMember(w.(active := id), w.registry[w.active], w.registry[id], q, s);
  }

  /** A switch makes the scene of id active. If the scene active before has live members, they
      become members of that one, and the old scene counts one up; nothing else changes. */
  lemma {:induction false} SwitchScenes(w: World, id: string, q: nat, s: nat)
    requires Reachable(w) && id in w.registry && w.active != id && q < |w.scenes|
    ensures var w' := SetActiveTo(w, id);
      && w.active in w.registry
      && var r, t := w.registry[w.active], w.registry[id];
      && r != t && t < |w'.scenes| == |w.scenes|
      && w'.active == id && w'.registry == w.registry
      && w'.scenes[q] == w.scenes[q].(members := w'.scenes[q].members, seqno := w'.scenes[q].seqno)
      && (if q == r && LiveMembers(w.scenes[r], w.pipes) != {} then w'.scenes[q].seqno == w.scenes[q].seqno + 1
          else w'.scenes[q].seqno == w.scenes[q].seqno)
      && (s in w'.scenes[q].members <==>
            if s in w.scenes[r].members && w.pipes[s].live then q == t else s in w.scenes[q].members)
  {
    ReachableIsGood(w);
    SwitchAt(w, id, q);
    SwitchMember(w, id, q, s);
  }

  /** Resetting a scene empties it, of state and of members, whose queues are closed; it keeps
      its counter and what it remembers. */
  lemma {:induction false} ResetExact(w: World, r: nat, q: nat, s: nat)
    requires Shaped(w) && r < |w.scenes| && q < |w.scenes| && s in w.pipes
    ensures var w' := ResetIn(w, r);
      && |w'.scenes| == |w.scenes| && s in w'.pipes && w'.registry == w.registry && w'.active == w.active
      && (q != r ==> w'.scenes[q] == w.scenes[q])
      && w'.scenes[r] == w.scenes[r].(store := map[], members := {})
      && (s !in w.scenes[r].members ==> w'.pipes[s] == w.pipes[s])
      && (s in w.scenes[r].members && w.pipes[s].closed ==> w'.pipes[s] == w.pipes[s])
      && (s in w.scenes[r].members && !w.pipes[s].closed ==>
            w'.pipes[s].closed && Sentinel in w'.pipes[s].queue)
  {
    ClosePipeExact(w.pipes[s]);
  }

  /** One delivery takes the first of the initial frames, or else of the queue, to the client. */
  lemma {:induction false} DeliverExact(w: World, s: nat, u: nat)
    requires Shaped(w) && Enabled(w, Deliver(s)) && u in w.pipes
    ensures var p, c, w' := w.pipes[s], w.clients[s], DeliverTo(w, s);
      && s in w'.pipes && s in w'.clients && u in w'.pipes && w'.scenes == w.scenes
      && (u != s ==> w'.pipes[u] == w.pipes[u] && w'.clients[u] == w.clients[u])
      && (c.initial != [] ==>
            && w'.pipes[s] == p && w'.clients[s].initial == c.initial[1..]
            && w'.clients[s].rx == Receive(c.rx, c.initial[0]))
      && (c.initial == [] ==>
            && w'.pipes[s] == p.(queue := p.queue[1..]) && w'.clients[s].initial == []
            && w'.clients[s].rx == Receive(c.rx, p.queue[0]))
  {
  }

  predicate SameNames(sc: SceneState<nat>, sc': SceneState<nat>) {
    sc'.id == sc.id && sc'.version == sc.version && sc'.inputs == sc.inputs
  }

  lemma {:induction false} SwitchKeepsNames(w: World, id: string, r: nat)
    requires Shaped(w) && r < |w.scenes|
    ensures r < |SetActiveTo(w, id).scenes| && SameNames(w.scenes[r], SetActiveTo(w, id).scenes[r])
  {
    if SwitchedFrom(RegistryOf(w), id).Some? {
      MigrateAt(w.(active := id), ActiveScene(w).value, w.registry[id], r);
    }
  }

  lemma {:induction false} CloseKeepsNames(w: World, which: set<nat>, s: nat, r: nat)
    requires Shaped(w) && r < |w.scenes| && s in w.pipes
    ensures r < |CloseIn(w, which, s).scenes| && SameNames(w.scenes[r], CloseIn(w, which, s).scenes[r])
  {
  }

  lemma {:induction false} WriteKeepsNames(w: World, step: Step, r: nat)
    requires Shaped(w) && Enabled(w, step) && r < |w.scenes|
    requires step.SetLeaves? || step.EmitLeaves? || step.ApplyInput? || step.ResetScene?
    ensures r < |Next(w, step).scenes| && SameNames(w.scenes[r], Next(w, step).scenes[r])
  {
  }

  /** No step changes a scene's id, version or declarations. */
  lemma {:induction false} StepKeepsNames(w: World, step: Step, r: nat)
    requires Shaped(w) && Enabled(w, step) && r < |w.scenes|
    ensures r < |Next(w, step).scenes| && SameNames(w.scenes[r], Next(w, step).scenes[r])
  {
    match step
    case SetActive(id) => SwitchKeepsNames(w, id, r);
    case Detach(s) => CloseKeepsNames(w, w.registry.Values, s, r);
    case Unsubscribe(q, s) => CloseKeepsNames(w, {q}, s, r);
    case SetLeaves(_, _) => WriteKeepsNames(w, step, r);
    case EmitLeaves(_, _, _) => WriteKeepsNames(w, step, r);
    case ApplyInput(_, _, _, _) => WriteKeepsNames(w, step, r);
    case ResetScene(_) => WriteKeepsNames(w, step, r);
    case _ =>
  }

  /** So every frame of a scene carries the id and version it was created with. */
  lemma {:induction false} NamesKept(w: World, steps: seq<Step>, w': World, r: nat)
    requires Good(w) && Leads(w, steps, w') && r < |w.scenes|
    ensures r < |w'.scenes| && SameNames(w.scenes[r], w'.scenes[r])
    decreases |steps|
  {
    if steps != [] {
      StepKeepsNames(w, steps[0], r);
      StepGood(w, steps[0]);
      NamesKept(Next(w, steps[0]), steps[1..], w', r);
    }
  }

  /** A new subscriber joins its scene with an empty queue. It is first sent the emissions after
      `since`, numbered and caused as they were, when that is a seq of the scene the ring reaches
      back to; otherwise the whole state. */
  lemma {:induction false} AttachSends(w: World, r: nat, s: nat, live: bool, since: Option<int>, held: State)
    requires Shaped(w) && Enabled(w, Attach(r, s, live, since, held))
    ensures var sc, w' := w.scenes[r], AttachTo(w, r, s, live, since, held);
      var replays := since.Some? && 1 <= since.value <= sc.seqno
                     && (sc.replay == [] || sc.replay[0].seqno <= since.value + 1);
      && s in w'.pipes && s in w'.clients
      && w'.pipes[s] == Pipe(live, false, false, [])
      && (!replays ==>
            |w'.clients[s].initial| == 1
            && exists x :: w'.clients[s].initial[0] == Frame(x) && IsSnapshot(x, sc))
      && (replays ==>
            && |w'.clients[s].initial| == |After(sc.replay, since.value)|
            && (forall x :: x in After(sc.replay, since.value) <==> x in sc.replay && x.seqno > since.value)
            && forall i :: 0 <= i < |w'.clients[s].initial| ==>
                 var x := After(sc.replay, since.value)[i];
                 w'.clients[s].initial[i] == Frame(Delta(x.patches, x.seqno, "", x.cause)))
  {
    var sc := w.scenes[r];
    OpenExact(sc, since);
    assert IsSnapshot(Snapshot(sc.id, sc.version, sc.store, sc.seqno, ""), sc);
  }

  /** What a server never refuses: a live subscriber while a scene is active and a test-mode one
      for any registered scene, whatever they claim as `since` and hold; every write to a scene
      it ever had, every switch, every departure. */
  lemma {:induction false} NothingRefused(w: World, r: nat, s: nat, id: string, since: Option<int>, held: State,
                                          entries: seq<Entry>, cause: Option<Cause>)
    requires Reachable(w)
    ensures s !in w.pipes && w.active != "" ==>
      w.active in w.registry && Enabled(w, Attach(w.registry[w.active], s, true, since, held))
    ensures s !in w.pipes && id in w.registry ==> Enabled(w, Attach(w.registry[id], s, false, since, held))
    ensures r < |w.scenes| ==> Enabled(w, SetLeaves(r, entries)) && Enabled(w, EmitLeaves(r, entries, cause))
    ensures r < |w.scenes| && !Registered(w, r) ==> Enabled(w, ResetScene(r))
    ensures Enabled(w, SetActive(id)) && Enabled(w, ClearRegistry)
    ensures s in w.pipes ==> Enabled(w, Detach(s))
    ensures s in w.pipes && r < |w.scenes| ==> Enabled(w, Step.Unsubscribe(r, s))
    ensures s in w.pipes && Pending(w.pipes[s], w.clients[s]) != [] ==> Enabled(w, Deliver(s))
  {
    ReachableIsGood(w);
    if w.active != "" { assert Registered(w, w.registry[w.active]); }
    if id in w.registry { assert Registered(w, w.registry[id]); }
  }

  /** So is every input, from whoever; the gate decides what becomes of it. */
  lemma {:induction false} InputNeverRefused(w: World, r: nat, identity: Identity, patches: seq<Patch>,
                                             cause: Option<Cause>)
    requires Reachable(w) && r < |w.scenes|
    ensures Enabled(w, ApplyInput(r, identity, patches, cause))
    ensures Reachable(Next(w, ApplyInput(r, identity, patches, cause)))
  {
    ReachableStep(w, ApplyInput(r, identity, patches, cause));
  }

  /** A new scene is empty, at seq 1, remembers nothing and has no members. */
  lemma {:induction false} NewSceneExact(w: World, id: string, version: string, inputs: map<string, InputSpec>)
    requires Shaped(w) && id != ""
    ensures var w' := WithScene(w, id, version, inputs);
      && |w'.scenes| == |w.scenes| + 1
      && (forall q :: 0 <= q < |w.scenes| ==> w'.scenes[q] == w.scenes[q])
      && w'.scenes[|w.scenes|] == SceneState(id, version, map[], 1, [], inputs, {})
      && w'.registry == w.registry[id := |w.scenes|]
      && w'.active == (if w.active == "" then id else w.active)
      && w'.pipes == w.pipes && w'.clients == w.clients
  {
  }

  /** Leaving closes the queue: the sentinel comes last, after all that waited unless that was
      256 items, of which the oldest is then lost. */
  lemma {:induction false} LeaveSends(w: World, r: nat, s: nat)
    requires Shaped(w) && r < |w.scenes| && s in w.pipes
    ensures var p, p' := w.pipes[s], Unsubscribed(w, r, s).pipes[s];
      && p'.closed && p'.live == p.live && p'.stale == p.stale
      && (p.closed ==> p'.queue == p.queue)
      && (!p.closed && |p.queue| < 256 ==> p'.queue == p.queue + [Sentinel])
      && (!p.closed && |p.queue| >= 256 ==> p'.queue == p.queue[1..] + [Sentinel])
    ensures Detached(w, s).pipes == if w.registry == map[] then w.pipes else Unsubscribed(w, r, s).pipes
  {
    ClosePipeExact(w.pipes[s]);
    assert w.registry != map[] <==> w.registry.Values != {} by {
      if w.registry != map[] {
        var id :| id in w.registry;
        assert w.registry[id] in w.registry.Values;
      }
    }
  }
}

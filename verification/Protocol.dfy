/** Whole runs of a server: scenes, the registry, subscriptions and their clients, one atomic
    step at a time (src/lumencast/server/server.py, scene.py and ws_handler.py). */
module Protocol {
  import opened Wrappers
  import opened JsonValues
  import opened Frames
  import opened Stores
  import opened Inputs
  import opened Roles
  import opened Registries
  import opened SceneModel
  import opened Histories
  import opened Subscribers

  /** Scenes and subscriptions are named by numbers; a scene replaced under its id keeps its
      number and lives on unregistered. */
  datatype World = World(
    scenes: seq<SceneState<nat>>,
    histories: seq<History>,
    registry: map<string, nat>,
    active: string,
    pipes: map<nat, Pipe>,
    clients: map<nat, Client>)

  const EMPTY_WORLD: World := World([], [], map[], "", map[], map[])

  datatype Step =
    | NewScene(id: string, version: string, inputs: map<string, InputSpec>)
    | SetActive(id: string)
    | ClearRegistry
    | ResetScene(r: nat)
    | SetLeaves(r: nat, entries: seq<Entry>)
    | EmitLeaves(r: nat, entries: seq<Entry>, cause: Option<Cause>)
    | ApplyInput(r: nat, identity: Identity, patches: seq<Patch>, cause: Option<Cause>)
    | Attach(r: nat, s: nat, live: bool, since: Option<int>, held: State)
    | Detach(s: nat)
    | Unsubscribe(r: nat, s: nat)
    | Deliver(s: nat)

  /** The registry of a world, in the terms the class Server is proved against. */
  function RegistryOf(w: World): Registry<nat> {
    Registry(w.registry, w.active)
  }

  function ActiveScene(w: World): Option<nat> {
    ActiveOf(RegistryOf(w))
  }

  predicate Registered(w: World, r: nat) {
    r in w.registry.Values
  }

  predicate Shaped(w: World) {
    && |w.histories| == |w.scenes|
    && w.pipes.Keys == w.clients.Keys
    && (forall id :: id in w.registry ==> w.registry[id] < |w.scenes|)
    && (forall r :: 0 <= r < |w.scenes| ==> w.scenes[r].members <= w.pipes.Keys)
  }

  /** Live clients are served by the active scene, test clients by any registered one; a
      resuming client may claim any `since` and hold any state. */
  predicate Enabled(w: World, step: Step)
    requires Shaped(w)
  {
    match step
    case NewScene(id, _, _) => id != ""
    case SetActive(_) => true
    case ClearRegistry => true
    case ResetScene(r) => r < |w.scenes| && !Registered(w, r)
    case SetLeaves(r, _) => r < |w.scenes|
    case EmitLeaves(r, _, _) => r < |w.scenes|
    case ApplyInput(r, _, _, _) => r < |w.scenes|
    case Attach(r, s, live, since, held) =>
      && s !in w.pipes
      && r < |w.scenes|
      && Registered(w, r)
      && (live ==> ActiveScene(w) == Some(r))
    case Detach(s) => s in w.pipes
    case Unsubscribe(r, s) => r < |w.scenes| && s in w.pipes
    case Deliver(s) => s in w.pipes && Pending(w.pipes[s], w.clients[s]) != []
  }

  // ------------------------------------------------------------------------ steps

  function NoteMembers(w: World, members: set<nat>, note: (Pipe, Client) -> Client): map<nat, Client>
    requires Shaped(w)
  {
    map s | s in w.clients :: if s in members then note(w.pipes[s], w.clients[s]) else w.clients[s]
  }

  function EmitIn(w: World, r: nat, entries: seq<Entry>, cause: Option<Cause>): World
    requires Shaped(w) && r < |w.scenes|
  {
    var sc := w.scenes[r];
    if entries == [] then w
    else
      var sc' := AfterEmit(sc, entries, cause);
      w.(scenes := w.scenes[r := sc'],
         histories := w.histories[r := w.histories[r] + [Emitted(Emission(sc, entries, cause))]],
         pipes := ToMembers(w.pipes, sc.members, SendEmit(sc, entries, cause)),
         clients := NoteMembers(w, sc.members, (p: Pipe, c: Client) => Noted(c, sc'.seqno, sc'.store)))
  }

  function SetIn(w: World, r: nat, entries: seq<Entry>): World
    requires Shaped(w) && r < |w.scenes|
  {
    var sc := w.scenes[r];
    if entries == [] then w
    else
      var sc' := AfterSet(sc, entries);
      w.(scenes := w.scenes[r := sc'],
         histories := w.histories[r := w.histories[r] + [Replaced(sc'.store)]],
         pipes := ToMembers(w.pipes, sc.members, SendSet(sc, entries)),
         clients := NoteMembers(w, sc.members, (p: Pipe, c: Client) => Snapped(c, sc.seqno, sc'.store, Full(p))))
  }

  function ResetIn(w: World, r: nat): World
    requires Shaped(w) && r < |w.scenes|
  {
    var sc := w.scenes[r];
    w.(scenes := w.scenes[r := AfterReset(sc)],
       histories := w.histories[r := w.histories[r] + [Replaced(map[])]],
       pipes := ToMembers(w.pipes, sc.members, ClosePipe))
  }

  /** A client of the previous scene: moved if live, left behind otherwise. */
  function SwitchClient(prev: SceneState<nat>, h: History, next: SceneState<nat>, hn: History,
                        p: Pipe, c: Client): Client {
    if p.live then Moved(prev, h, next, hn, p, c) else Noted(c, prev.seqno + 1, prev.store)
  }

  function SwitchClients(w: World, r: nat, t: nat): map<nat, Client>
    requires Shaped(w) && r < |w.scenes| && t < |w.scenes|
  {
    map s | s in w.clients ::
      if s in w.scenes[r].members then
        SwitchClient(w.scenes[r], w.histories[r], w.scenes[t], w.histories[t], w.pipes[s], w.clients[s])
      else w.clients[s]
  }

  function Migrate(w: World, r: nat, t: nat): World
    requires Shaped(w) && r < |w.scenes| && t < |w.scenes| && r != t
  {
    var prev, next := w.scenes[r], w.scenes[t];
    var moved := LiveMembers(prev, w.pipes);
    if moved == {} then w
    else
      w.(scenes := w.scenes[r := MovedOut(prev, moved)][t := MovedIn(next, moved)],
         histories := w.histories[r := w.histories[r] + [Skipped]],
         pipes := ToMembers(w.pipes, moved, SendSwitch(prev, next)),
         clients := SwitchClients(w, r, t))
  }

  function SetActiveTo(w: World, id: string): World
    requires Shaped(w)
  {
    var w' := w.(active := Activate(RegistryOf(w), id).active);
    if SwitchedFrom(RegistryOf(w), id).Some? then Migrate(w', ActiveScene(w).value, w.registry[id]) else w'
  }

  function RemoveFrom(scenes: seq<SceneState<nat>>, which: set<nat>, s: nat): seq<SceneState<nat>> {
    seq(|scenes|, r requires 0 <= r < |scenes| => if r in which then Left(scenes[r], s) else scenes[r])
  }

  function CloseIn(w: World, which: set<nat>, s: nat): World
    requires Shaped(w) && s in w.pipes
  {
    if which == {} then w
    else w.(scenes := RemoveFrom(w.scenes, which, s), pipes := w.pipes[s := ClosePipe(w.pipes[s])])
  }

  /** Unsubscribed from every registered scene. */
  function Detached(w: World, s: nat): World
    requires Shaped(w) && s in w.pipes
  {
    CloseIn(w, w.registry.Values, s)
  }

  function Unsubscribed(w: World, r: nat, s: nat): World
    requires Shaped(w) && s in w.pipes
  {
    CloseIn(w, {r}, s)
  }

  /** The id is taken over by a new scene; the first one becomes active. */
  function WithScene(w: World, id: string, version: string, inputs: map<string, InputSpec>): World {
    var reg := TakeOver(RegistryOf(w), id, |w.scenes|);
    w.(scenes := w.scenes + [NewSceneState(id, version, inputs)],
       histories := w.histories + [[]],
       registry := reg.scenes,
       active := reg.active)
  }

  function Cleared(w: World): World {
    var reg := Emptied<nat>();
    w.(registry := reg.scenes, active := reg.active)
  }

  function AttachTo(w: World, r: nat, s: nat, live: bool, since: Option<int>, held: State): World
    requires Shaped(w) && Enabled(w, Attach(r, s, live, since, held))
  {
    var sc := w.scenes[r];
    w.(scenes := w.scenes[r := Joined(sc, s)],
       pipes := w.pipes[s := NewPipe(live)],
       clients := w.clients[s := Started(sc, w.histories[r], since, held)])
  }

  function DeliverTo(w: World, s: nat): World
    requires Shaped(w) && Enabled(w, Deliver(s))
  {
    w.(pipes := w.pipes[s := Popped(w.pipes[s], w.clients[s])],
       clients := w.clients[s := Received(w.pipes[s], w.clients[s])])
  }

  function Next(w: World, step: Step): World
    requires Shaped(w) && Enabled(w, step)
  {
    match step
    case NewScene(id, version, inputs) => WithScene(w, id, version, inputs)
    case SetActive(id) => SetActiveTo(w, id)
    case ClearRegistry => Cleared(w)
    case ResetScene(r) => ResetIn(w, r)
    case SetLeaves(r, entries) => SetIn(w, r, entries)
    case EmitLeaves(r, entries, cause) => EmitIn(w, r, entries, cause)
    case ApplyInput(r, identity, patches, cause) =>
      if Gate(w.scenes[r].inputs, identity, patches).Some? then w
      else EmitIn(w, r, Collapse(patches), cause)
    case Attach(r, s, live, since, held) => AttachTo(w, r, s, live, since, held)
    case Detach(s) => Detached(w, s)
    case Unsubscribe(r, s) => Unsubscribed(w, r, s)
    case Deliver(s) => DeliverTo(w, s)
  }

  // -------------------------------------------------------------------- invariant

  ghost predicate Owned(w: World)
    requires Shaped(w)
  {
    && (forall id :: id in w.registry ==> id != "" && w.scenes[w.registry[id]].id == id)
    && (w.active == "" <==> w.registry == map[])
    && (w.active != "" ==> w.active in w.registry)
    && (forall q, r, s :: 0 <= q < r < |w.scenes| && s in w.scenes[q].members ==> s !in w.scenes[r].members)
    && (forall r, s :: 0 <= r < |w.scenes| && s in w.scenes[r].members && w.pipes[s].live && Registered(w, r) ==>
          ActiveScene(w) == Some(r))
  }

  ghost predicate AllConsistent(w: World)
    requires Shaped(w)
  {
    forall r :: 0 <= r < |w.scenes| ==> Consistent(w.scenes[r], w.histories[r])
  }

  ghost predicate AllServed(w: World)
    requires Shaped(w)
  {
    forall r, s :: 0 <= r < |w.scenes| && s in w.scenes[r].members ==>
      Served(w.scenes[r], w.histories[r], w.pipes[s], w.clients[s])
  }

  ghost predicate Good(w: World) {
    Shaped(w) && Owned(w) && AllConsistent(w) && AllServed(w)
  }

  /** The same pipes and at most the same members. */
  ghost predicate SameOwners(w: World, w': World) {
    && w'.registry == w.registry && w'.active == w.active
    && |w'.scenes| == |w.scenes|
    && (forall r :: 0 <= r < |w.scenes| ==>
          w'.scenes[r].id == w.scenes[r].id && w'.scenes[r].members <= w.scenes[r].members)
    && w'.pipes.Keys == w.pipes.Keys
    && (forall s :: s in w.pipes ==> w'.pipes[s].live == w.pipes[s].live)
  }

  lemma {:induction false} OwnedFrame(w: World, w': World)
    requires Shaped(w) && Owned(w) && Shaped(w') && SameOwners(w, w')
    ensures Owned(w')
  {
    forall q, r, s | 0 <= q < r < |w'.scenes| && s in w'.scenes[q].members
      ensures s !in w'.scenes[r].members
    {
      assert s in w.scenes[q].members;
      assert s !in w.scenes[r].members;
    }
    forall r, s | 0 <= r < |w'.scenes| && s in w'.scenes[r].members && w'.pipes[s].live && Registered(w', r)
      ensures ActiveScene(w') == Some(r)
    {
      assert s in w.scenes[r].members;
      assert Registered(w, r);
    }
  }

  lemma {:induction false} EmitShaped(w: World, r: nat, entries: seq<Entry>, cause: Option<Cause>)
    requires Shaped(w) && r < |w.scenes|
    ensures Shaped(EmitIn(w, r, entries, cause)) && SameOwners(w, EmitIn(w, r, entries, cause))
  {
  }

  lemma {:induction false} EmitOwned(w: World, r: nat, entries: seq<Entry>, cause: Option<Cause>)
    requires Shaped(w) && Owned(w) && r < |w.scenes|
    ensures Shaped(EmitIn(w, r, entries, cause)) && Owned(EmitIn(w, r, entries, cause))
  {
    EmitShaped(w, r, entries, cause);
    OwnedFrame(w, EmitIn(w, r, entries, cause));
  }

  lemma {:induction false} EmitGood(w: World, r: nat, entries: seq<Entry>, cause: Option<Cause>)
    requires Good(w) && r < |w.scenes|
    ensures Good(EmitIn(w, r, entries, cause))
  {
    if entries == [] { return; }
    var w', sc := EmitIn(w, r, entries, cause), w.scenes[r];
    EmitOwned(w, r, entries, cause);
    assert AllConsistent(w') by { EmitConsistent(sc, w.histories[r], entries, cause); }
    forall q, s | 0 <= q < |w'.scenes| && s in w'.scenes[q].members
      ensures Served(w'.scenes[q], w'.histories[q], w'.pipes[s], w'.clients[s])
    {
      assert s in w.scenes[q].members;
      if q == r {
        EmitServes(sc, w.histories[r], w.pipes[s], w.clients[s], entries, cause);
      }
    }
  }

  lemma {:induction false} SetOwned(w: World, r: nat, entries: seq<Entry>)
    requires Shaped(w) && Owned(w) && r < |w.scenes|
    ensures Shaped(SetIn(w, r, entries)) && Owned(SetIn(w, r, entries))
  {
    SetShaped(w, r, entries);
    OwnedFrame(w, SetIn(w, r, entries));
  }

  lemma {:induction false} SetShaped(w: World, r: nat, entries: seq<Entry>)
    requires Shaped(w) && r < |w.scenes|
    ensures Shaped(SetIn(w, r, entries)) && SameOwners(w, SetIn(w, r, entries))
  {
  }

  lemma {:induction false} SetGood(w: World, r: nat, entries: seq<Entry>)
    requires Good(w) && r < |w.scenes|
    ensures Good(SetIn(w, r, entries))
  {
    if entries == [] { return; }
    var w', sc := SetIn(w, r, entries), w.scenes[r];
    SetOwned(w, r, entries);
    assert AllConsistent(w') by { SetConsistent(sc, w.histories[r], Apply(sc.store, entries), sc.members); }
    forall q, s | 0 <= q < |w'.scenes| && s in w'.scenes[q].members
      ensures Served(w'.scenes[q], w'.histories[q], w'.pipes[s], w'.clients[s])
    {
      assert s in w.scenes[q].members;
      if q == r {
        SetServes(sc, w.histories[r], w.pipes[s], w.clients[s], entries);
      }
    }
  }

  lemma {:induction false} ResetOwned(w: World, r: nat)
    requires Shaped(w) && Owned(w) && r < |w.scenes|
    ensures Shaped(ResetIn(w, r)) && Owned(ResetIn(w, r))
  {
    ResetShaped(w, r);
    OwnedFrame(w, ResetIn(w, r));
  }

  lemma {:induction false} ResetShaped(w: World, r: nat)
    requires Shaped(w) && r < |w.scenes|
    ensures Shaped(ResetIn(w, r)) && SameOwners(w, ResetIn(w, r))
  {
  }

  lemma {:induction false} ResetGood(w: World, r: nat)
    requires Good(w) && r < |w.scenes|
    ensures Good(ResetIn(w, r))
  {
    var w', sc := ResetIn(w, r), w.scenes[r];
    ResetOwned(w, r);
    assert AllConsistent(w') by { SetConsistent(sc, w.histories[r], map[], {}); }
    forall q, s | 0 <= q < |w'.scenes| && s in w'.scenes[q].members
      ensures Served(w'.scenes[q], w'.histories[q], w'.pipes[s], w'.clients[s])
    {
      assert s in w.scenes[q].members;
    }
  }

  lemma {:induction false} MigrateShaped(w: World, r: nat, t: nat)
    requires Shaped(w) && r < |w.scenes| && t < |w.scenes| && r != t
    ensures Shaped(Migrate(w, r, t))
  {
  }

  /** Migrate, one scene and one subscription at a time. */
  lemma {:induction false} MigrateAt(w: World, r: nat, t: nat, q: nat)
    requires Shaped(w) && r < |w.scenes| && t < |w.scenes| && r != t && q < |w.scenes|
    ensures var w' := Migrate(w, r, t);
      var moved := LiveMembers(w.scenes[r], w.pipes);
      && Shaped(w') && |w'.scenes| == |w.scenes|
      && w'.scenes[q] == (if q == r then MovedOut(w.scenes[r], moved)
                          else if q == t then MovedIn(w.scenes[t], moved) else w.scenes[q])
      && w'.histories[q] == (if q == r && moved != {} then w.histories[r] + [Skipped] else w.histories[q])
  {
    MigrateShaped(w, r, t);
    var moved := LiveMembers(w.scenes[r], w.pipes);
    if moved == {} { assert w.scenes[t].members + moved == w.scenes[t].members; }
  }

  lemma {:induction false} MigratePipe(w: World, r: nat, t: nat, s: nat)
    requires Shaped(w) && r < |w.scenes| && t < |w.scenes| && r != t && s in w.pipes
    ensures var w' := Migrate(w, r, t);
      var moved := LiveMembers(w.scenes[r], w.pipes);
      && w'.pipes.Keys == w.pipes.Keys == w'.clients.Keys
      && w'.pipes[s] == if s in moved then SendSwitch(w.scenes[r], w.scenes[t])(w.pipes[s]) else w.pipes[s]
  {
    var moved := LiveMembers(w.scenes[r], w.pipes);
    if moved == {} { assert s !in moved; }
  }

  lemma {:induction false} MigrateClient(w: World, r: nat, t: nat, s: nat)
    requires Shaped(w) && r < |w.scenes| && t < |w.scenes| && r != t && s in w.clients
    ensures var w' := Migrate(w, r, t);
      && s in w'.clients
      && w'.clients[s] == if s in w.scenes[r].members && LiveMembers(w.scenes[r], w.pipes) != {}
                          then SwitchClient(w.scenes[r], w.histories[r], w.scenes[t], w.histories[t],
                                            w.pipes[s], w.clients[s])
                          else w.clients[s]
  {
  }

  lemma {:induction false} MigrateConsistent(w: World, r: nat, t: nat, q: nat)
    requires Shaped(w) && r < |w.scenes| && t < |w.scenes| && r != t && q < |w.scenes|
    requires Consistent(w.scenes[q], w.histories[q])
    ensures Shaped(Migrate(w, r, t)) && Consistent(Migrate(w, r, t).scenes[q], Migrate(w, r, t).histories[q])
  {
    MigrateAt(w, r, t, q);
    var moved := LiveMembers(w.scenes[r], w.pipes);
    if q == r && moved != {} {
      BumpConsistent(w.scenes[q], w.histories[q], w.scenes[q].members - moved);
    } else if q == t {
      MembersIrrelevant(w.scenes[q], w.histories[q], w.scenes[q].members + moved);
    }
  }

  /** Where a member of a scene comes from. */
  lemma {:induction false} MigrateMember(w: World, r: nat, t: nat, q: nat, s: nat)
    requires Shaped(w) && r < |w.scenes| && t < |w.scenes| && r != t && q < |w.scenes|
    requires s in w.scenes[r].members && q != r ==> s !in w.scenes[q].members
    ensures Shaped(Migrate(w, r, t)) && q < |Migrate(w, r, t).scenes|
    ensures s in Migrate(w, r, t).scenes[q].members <==>
      if s in LiveMembers(w.scenes[r], w.pipes) then q == t else s in w.scenes[q].members
  {
    MigrateAt(w, r, t, q);
  }

  lemma {:induction false} MigrateLive(w: World, r: nat, t: nat, s: nat)
    requires Shaped(w) && r < |w.scenes| && t < |w.scenes| && r != t && s in w.pipes
    ensures var w' := Migrate(w, r, t); s in w'.pipes && w'.pipes[s].live == w.pipes[s].live
  {
    MigratePipe(w, r, t, s);
  }

  lemma {:induction false} MigrateServedMoved(w: World, r: nat, t: nat, s: nat)
    requires Shaped(w) && r < |w.scenes| && t < |w.scenes| && r != t && s in LiveMembers(w.scenes[r], w.pipes)
    requires s in w.scenes[r].members && Served(w.scenes[r], w.histories[r], w.pipes[s], w.clients[s])
    requires w.scenes[r].seqno >= 1 && w.scenes[t].seqno >= 1
    ensures var w' := Migrate(w, r, t);
      && Shaped(w') && t < |w'.scenes| && s in w'.pipes && s in w'.clients
      && Served(w'.scenes[t], w'.histories[t], w'.pipes[s], w'.clients[s])
  {
    var prev, next := w.scenes[r], w.scenes[t];
    MigrateAt(w, r, t, t);
    MigratePipe(w, r, t, s);
    MigrateClient(w, r, t, s);
    MoveServes(prev, w.histories[r], next, w.histories[t], w.pipes[s], w.clients[s],
               next.members + LiveMembers(prev, w.pipes));
  }

  lemma {:induction false} SwitchBehind(prev: SceneState<nat>, h: History, next: SceneState<nat>, hn: History,
                                        p: Pipe, c: Client, moved: set<nat>)
    requires !p.live && moved != {} && Consistent(prev, h) && Served(prev, h, p, c)
    ensures Served(MovedOut(prev, moved), h + [Skipped], p, SwitchClient(prev, h, next, hn, p, c))
  {
    BumpServes(prev, h, p, c, prev.members - moved);
  }

  /** A test-mode member stays, with its queue as it was, while the counter moves on. */
  lemma {:induction false} MigrateBehind(w: World, r: nat, t: nat, s: nat)
    requires Shaped(w) && r < |w.scenes| && t < |w.scenes| && r != t
    requires s in w.scenes[r].members && !w.pipes[s].live
    ensures var w' := Migrate(w, r, t);
      && Shaped(w') && r < |w'.scenes| && s in w'.pipes && s in w'.clients && w'.pipes[s] == w.pipes[s]
    ensures LiveMembers(w.scenes[r], w.pipes) == {} ==> Migrate(w, r, t) == w
    ensures LiveMembers(w.scenes[r], w.pipes) != {} ==>
      var prev, w' := w.scenes[r], Migrate(w, r, t);
      && w'.scenes[r] == MovedOut(prev, LiveMembers(prev, w.pipes))
      && w'.histories[r] == w.histories[r] + [Skipped]
      && w'.clients[s] == SwitchClient(prev, w.histories[r], w.scenes[t], w.histories[t],
                                       w.pipes[s], w.clients[s])
  {
    MigrateAt(w, r, t, r);
    MigratePipe(w, r, t, s);
    MigrateClient(w, r, t, s);
  }

  lemma {:induction false} MigrateServedBehind(w: World, r: nat, t: nat, s: nat)
    requires Shaped(w) && r < |w.scenes| && t < |w.scenes| && r != t
    requires s in w.scenes[r].members && !w.pipes[s].live
    requires Consistent(w.scenes[r], w.histories[r]) && Served(w.scenes[r], w.histories[r], w.pipes[s], w.clients[s])
    ensures var w' := Migrate(w, r, t);
      && Shaped(w') && r < |w'.scenes| && s in w'.pipes && s in w'.clients
      && Served(w'.scenes[r], w'.histories[r], w'.pipes[s], w'.clients[s])
  {
    var moved := LiveMembers(w.scenes[r], w.pipes);
    MigrateBehind(w, r, t, s);
    if moved != {} {
      SwitchBehind(w.scenes[r], w.histories[r], w.scenes[t], w.histories[t], w.pipes[s], w.clients[s], moved);
    }
  }

  lemma {:induction false} MigrateServedElsewhere(w: World, r: nat, t: nat, q: nat, s: nat)
    requires Shaped(w) && r < |w.scenes| && t < |w.scenes| && r != t && q < |w.scenes| && q != r
    requires s in w.scenes[q].members && s !in w.scenes[r].members
    requires Served(w.scenes[q], w.histories[q], w.pipes[s], w.clients[s])
    ensures var w' := Migrate(w, r, t);
      && Shaped(w') && q < |w'.scenes| && s in w'.pipes && s in w'.clients
      && Served(w'.scenes[q], w'.histories[q], w'.pipes[s], w'.clients[s])
  {
    var moved := LiveMembers(w.scenes[r], w.pipes);
    MigrateAt(w, r, t, q);
    MigratePipe(w, r, t, s);
    MigrateClient(w, r, t, s);
    MembershipServes(w.scenes[q], w.histories[q], w.pipes[s], w.clients[s], w.scenes[q].members + moved);
  }

  lemma {:induction false} MigrateServed(w: World, r: nat, t: nat, q: nat, s: nat)
    requires Good(w) && r < |w.scenes| && t < |w.scenes| && r != t && q < |w.scenes|
    requires s in Migrate(w, r, t).scenes[q].members
    ensures var w' := Migrate(w, r, t);
      && Shaped(w') && s in w'.pipes && s in w'.clients
      && Served(w'.scenes[q], w'.histories[q], w'.pipes[s], w'.clients[s])
  {
    MigrateMember(w, r, t, q, s);
    if s in LiveMembers(w.scenes[r], w.pipes) {
      assert Consistent(w.scenes[r], w.histories[r]) && Consistent(w.scenes[t], w.histories[t]);
      MigrateServedMoved(w, r, t, s);
    } else {
      assert Consistent(w.scenes[q], w.histories[q]);
      if q == r { MigrateServedBehind(w, r, t, s); } else { MigrateServedElsewhere(w, r, t, q, s); }
    }
  }

  lemma {:induction false} MigrateIds(w: World, r: nat, t: nat)
    requires Shaped(w) && r < |w.scenes| && t < |w.scenes| && r != t
    ensures var w' := Migrate(w, r, t);
      && Shaped(w') && |w'.scenes| == |w.scenes| && w'.registry == w.registry && w'.active == w.active
      && forall q :: 0 <= q < |w.scenes| ==> w'.scenes[q].id == w.scenes[q].id
  {
    forall q | 0 <= q < |w.scenes| ensures Migrate(w, r, t).scenes[q].id == w.scenes[q].id { MigrateAt(w, r, t, q); }
    MigrateAt(w, r, t, r);
  }

  lemma {:induction false} MigrateOwned(w: World, r: nat, id: string)
    requires Shaped(w) && Owned(w) && id in w.registry && r != w.registry[id] && ActiveScene(w) == Some(r)
    ensures var w' := Migrate(w.(active := id), r, w.registry[id]); Shaped(w') && Owned(w')
  {
    var t := w.registry[id];
    var w' := Migrate(w.(active := id), r, t);
    assert w' == Migrate(w, r, t).(active := id);
    MigrateIds(w, r, t);
    forall q, u, s | 0 <= q < u < |w'.scenes| && s in w'.scenes[q].members ensures s !in w'.scenes[u].members {
      MigrateMember(w, r, t, q, s);
      MigrateMember(w, r, t, u, s);
    }
    forall q, s | 0 <= q < |w'.scenes| && s in w'.scenes[q].members && w'.pipes[s].live && Registered(w', q)
      ensures ActiveScene(w') == Some(q)
    {
      MigrateMember(w, r, t, q, s);
      MigrateLive(w, r, t, s);
      assert Registered(w, q);
    }
  }

  lemma {:induction false} MigrateAllConsistent(w: World, r: nat, t: nat)
    requires Shaped(w) && AllConsistent(w) && r < |w.scenes| && t < |w.scenes| && r != t
    ensures var w' := Migrate(w, r, t); Shaped(w') && AllConsistent(w')
  {
    var w' := Migrate(w, r, t);
    MigrateShaped(w, r, t);
    MigrateIds(w, r, t);
    forall q | 0 <= q < |w'.scenes| ensures Consistent(w'.scenes[q], w'.histories[q]) {
      MigrateConsistent(w, r, t, q);
    }
  }

  lemma {:induction false} MigrateAllServed(w: World, r: nat, t: nat)
    requires Good(w) && r < |w.scenes| && t < |w.scenes| && r != t
    ensures var w' := Migrate(w, r, t); Shaped(w') && AllServed(w')
  {
    var w' := Migrate(w, r, t);
    MigrateIds(w, r, t);
    forall q, s | 0 <= q < |w'.scenes| && s in w'.scenes[q].members
      ensures Served(w'.scenes[q], w'.histories[q], w'.pipes[s], w'.clients[s])
    {
      MigrateServed(w, r, t, q, s);
    }
  }

  /** The active id bears on nothing but ownership. */
  lemma {:induction false} ActiveIrrelevant(w: World, id: string)
    requires Shaped(w) && AllConsistent(w) && AllServed(w)
    ensures var w' := w.(active := id); Shaped(w') && AllConsistent(w') && AllServed(w')
  {
  }

  lemma {:induction false} SwitchConsistentServed(w: World, r: nat, id: string)
    requires Good(w) && id in w.registry && ActiveScene(w) == Some(r) && r != w.registry[id]
    ensures var w' := Migrate(w.(active := id), r, w.registry[id]);
      Shaped(w') && AllConsistent(w') && AllServed(w')
  {
    var t := w.registry[id];
    MigrateAllConsistent(w, r, t);
    MigrateAllServed(w, r, t);
    ActiveIrrelevant(Migrate(w, r, t), id);
    assert Migrate(w.(active := id), r, t) == Migrate(w, r, t).(active := id);
  }

  /** In an owned world a switch to another registered id always has a scene to switch from. */
  lemma {:induction false} SetActiveMigrates(w: World, id: string)
    requires Shaped(w) && Owned(w) && id in w.registry && w.active != id
    ensures w.active in w.registry && ActiveScene(w) == Some(w.registry[w.active])
    ensures w.registry[w.active] != w.registry[id]
    ensures SetActiveTo(w, id) == Migrate(w.(active := id), w.registry[w.active], w.registry[id])
  {
    assert w.scenes[w.registry[w.active]].id != w.scenes[w.registry[id]].id;
  }

  lemma {:induction false} SetActiveGood(w: World, id: string)
    requires Good(w)
    ensures Good(SetActiveTo(w, id))
  {
    if id in w.registry && w.active != id {
      SetActiveMigrates(w, id);
      MigrateOwned(w, w.registry[w.active], id);
      SwitchConsistentServed(w, w.registry[w.active], id);
    } else {
      assert SetActiveTo(w, id) == w;
    }
  }

  lemma {:induction false} AttachMember(w: World, r: nat, s: nat, live: bool, since: Option<int>, held: State,
                                        q: nat, u: nat)
    requires Shaped(w) && Enabled(w, Attach(r, s, live, since, held)) && q < |w.scenes|
    ensures var w' := AttachTo(w, r, s, live, since, held);
      && (u in w'.scenes[q].members <==> u in w.scenes[q].members || (u == s && q == r))
      && s !in w.scenes[q].members && |w'.scenes| == |w.scenes|
      && w'.registry == w.registry && w'.active == w.active && w'.scenes[q].id == w.scenes[q].id
  {
  }

  lemma {:induction false} AttachShaped(w: World, r: nat, s: nat, live: bool, since: Option<int>, held: State)
    requires Shaped(w) && Enabled(w, Attach(r, s, live, since, held))
    ensures Shaped(AttachTo(w, r, s, live, since, held))
  {
  }

  lemma {:induction false} AttachOwned(w: World, r: nat, s: nat, live: bool, since: Option<int>, held: State)
    requires Shaped(w) && Owned(w) && Enabled(w, Attach(r, s, live, since, held))
    ensures Shaped(AttachTo(w, r, s, live, since, held)) && Owned(AttachTo(w, r, s, live, since, held))
  {
    var w' := AttachTo(w, r, s, live, since, held);
    AttachShaped(w, r, s, live, since, held);
    forall q | 0 <= q < |w.scenes| ensures w'.scenes[q].id == w.scenes[q].id {
      AttachMember(w, r, s, live, since, held, q, s);
    }
    forall q, v, u | 0 <= q < v < |w'.scenes| && u in w'.scenes[q].members ensures u !in w'.scenes[v].members {
      AttachMember(w, r, s, live, since, held, q, u);
      AttachMember(w, r, s, live, since, held, v, u);
    }
    forall q, u | 0 <= q < |w'.scenes| && u in w'.scenes[q].members && w'.pipes[u].live && Registered(w', q)
      ensures ActiveScene(w') == Some(q)
    {
      AttachMember(w, r, s, live, since, held, q, u);
      assert Registered(w, q);
    }
  }

  lemma {:induction false} AttachServed(w: World, r: nat, s: nat, live: bool, since: Option<int>,
                                        held: State, q: nat, u: nat)
    requires Good(w) && Enabled(w, Attach(r, s, live, since, held)) && q < |w.scenes|
    requires u in AttachTo(w, r, s, live, since, held).scenes[q].members
    ensures var w' := AttachTo(w, r, s, live, since, held);
      && u in w'.pipes && u in w'.clients
      && Served(w'.scenes[q], w'.histories[q], w'.pipes[u], w'.clients[u])
  {
    var w', sc := AttachTo(w, r, s, live, since, held), w.scenes[r];
    assert Consistent(sc, w.histories[r]);
    if u == s {
      assert q == r by { assert s !in w.scenes[q].members; }
      StartServes(sc, w.histories[r], live, since, held);
      MembershipServes(sc, w.histories[r], w'.pipes[s], w'.clients[s], sc.members + {s});
    } else {
      assert u in w.scenes[q].members;
      assert Served(w.scenes[q], w.histories[q], w.pipes[u], w.clients[u]);
      if q == r { MembershipServes(sc, w.histories[r], w.pipes[u], w.clients[u], sc.members + {s}); }
    }
  }

  lemma {:induction false} AttachGood(w: World, r: nat, s: nat, live: bool, since: Option<int>, held: State)
    requires Good(w) && Enabled(w, Attach(r, s, live, since, held))
    ensures Good(AttachTo(w, r, s, live, since, held))
  {
    var w', sc := AttachTo(w, r, s, live, since, held), w.scenes[r];
    AttachOwned(w, r, s, live, since, held);
    assert AllConsistent(w') by {
      assert Consistent(sc, w.histories[r]);
      MembersIrrelevant(sc, w.histories[r], sc.members + {s});
    }
    forall q, u | 0 <= q < |w'.scenes| && u in w'.scenes[q].members
      ensures Served(w'.scenes[q], w'.histories[q], w'.pipes[u], w'.clients[u])
    {
      AttachServed(w, r, s, live, since, held, q, u);
    }
  }

  lemma {:induction false} CloseShaped(w: World, which: set<nat>, s: nat)
    requires Shaped(w) && s in w.pipes
    ensures Shaped(CloseIn(w, which, s)) && SameOwners(w, CloseIn(w, which, s))
  {
  }

  lemma {:induction false} CloseConsistent(w: World, which: set<nat>, s: nat)
    requires Shaped(w) && s in w.pipes && AllConsistent(w)
    ensures Shaped(CloseIn(w, which, s)) && AllConsistent(CloseIn(w, which, s))
  {
    CloseShaped(w, which, s);
    var w' := CloseIn(w, which, s);
    forall q | 0 <= q < |w'.scenes| ensures Consistent(w'.scenes[q], w'.histories[q]) {
      MembersIrrelevant(w.scenes[q], w.histories[q], w'.scenes[q].members);
    }
  }

  lemma {:induction false} CloseServed(w: World, which: set<nat>, s: nat)
    requires Shaped(w) && s in w.pipes && AllServed(w)
    ensures Shaped(CloseIn(w, which, s)) && AllServed(CloseIn(w, which, s))
  {
    CloseShaped(w, which, s);
    var w' := CloseIn(w, which, s);
    forall q, u | 0 <= q < |w'.scenes| && u in w'.scenes[q].members
      ensures Served(w'.scenes[q], w'.histories[q], w'.pipes[u], w'.clients[u])
    {
      assert u in w.scenes[q].members;
      MembershipServes(w.scenes[q], w.histories[q], w.pipes[u], w.clients[u], w'.scenes[q].members);
    }
  }

  lemma {:induction false} CloseGood(w: World, which: set<nat>, s: nat)
    requires Good(w) && s in w.pipes
    ensures Good(CloseIn(w, which, s))
  {
    CloseShaped(w, which, s);
    OwnedFrame(w, CloseIn(w, which, s));
    CloseConsistent(w, which, s);
    CloseServed(w, which, s);
  }

  lemma {:induction false} DeliverShaped(w: World, s: nat)
    requires Shaped(w) && Enabled(w, Deliver(s))
    ensures Shaped(DeliverTo(w, s)) && SameOwners(w, DeliverTo(w, s))
  {
  }

  lemma {:induction false} DeliverServed(w: World, s: nat)
    requires Shaped(w) && AllServed(w) && Enabled(w, Deliver(s))
    ensures Shaped(DeliverTo(w, s)) && AllServed(DeliverTo(w, s))
  {
    DeliverShaped(w, s);
    var w' := DeliverTo(w, s);
    forall q, u | 0 <= q < |w'.scenes| && u in w'.scenes[q].members
      ensures Served(w'.scenes[q], w'.histories[q], w'.pipes[u], w'.clients[u])
    {
      assert u in w.scenes[q].members;
      if u == s { DeliverServes(w.scenes[q], w.histories[q], w.pipes[s], w.clients[s]); }
    }
  }

  lemma {:induction false} DeliverGood(w: World, s: nat)
    requires Good(w) && Enabled(w, Deliver(s))
    ensures Good(DeliverTo(w, s))
  {
    DeliverShaped(w, s);
    OwnedFrame(w, DeliverTo(w, s));
    DeliverServed(w, s);
  }

  lemma {:induction false} NewSceneOwned(w: World, id: string, version: string, inputs: map<string, InputSpec>)
    requires Shaped(w) && Owned(w) && id != ""
    ensures var w' := WithScene(w, id, version, inputs); Shaped(w') && Owned(w')
  {
    var w' := WithScene(w, id, version, inputs);
    assert id in w'.registry;
    forall q, s | 0 <= q < |w'.scenes| && s in w'.scenes[q].members && w'.pipes[s].live && Registered(w', q)
      ensures ActiveScene(w') == Some(q)
    {
      var k :| k in w'.registry && w'.registry[k] == q;
      assert k != id && w.registry[k] == q;
      assert Registered(w, q);
    }
  }

  lemma {:induction false} NewSceneConsistent(w: World, id: string, version: string, inputs: map<string, InputSpec>)
    requires Shaped(w) && AllConsistent(w)
    ensures var w' := WithScene(w, id, version, inputs); Shaped(w') && AllConsistent(w')
  {
    var w' := WithScene(w, id, version, inputs);
    forall q | 0 <= q < |w'.scenes| ensures Consistent(w'.scenes[q], w'.histories[q]) {
      if q < |w.scenes| { assert Consistent(w.scenes[q], w.histories[q]); }
    }
  }

  lemma {:induction false} NewSceneServed(w: World, id: string, version: string, inputs: map<string, InputSpec>)
    requires Shaped(w) && AllServed(w)
    ensures var w' := WithScene(w, id, version, inputs); Shaped(w') && AllServed(w')
  {
    var w' := WithScene(w, id, version, inputs);
    forall q, s | 0 <= q < |w'.scenes| && s in w'.scenes[q].members
      ensures Served(w'.scenes[q], w'.histories[q], w'.pipes[s], w'.clients[s])
    {
      assert s in w.scenes[q].members;
    }
  }

  lemma {:induction false} NewSceneGood(w: World, id: string, version: string, inputs: map<string, InputSpec>)
    requires Good(w) && id != ""
    ensures Good(WithScene(w, id, version, inputs))
  {
    NewSceneOwned(w, id, version, inputs);
    NewSceneConsistent(w, id, version, inputs);
    NewSceneServed(w, id, version, inputs);
  }

  lemma {:induction false} ClearGood(w: World)
    requires Good(w)
    ensures Good(Cleared(w))
  {
  }

  /** Every step of the server, its sessions and its clients keeps the invariant. */
  lemma {:induction false} StepGood(w: World, step: Step)
    requires Good(w) && Enabled(w, step)
    ensures Good(Next(w, step))
  {
    match step
    case NewScene(id, version, inputs) => NewSceneGood(w, id, version, inputs);
    case SetActive(id) => SetActiveGood(w, id);
    case ClearRegistry => ClearGood(w);
    case ResetScene(r) => ResetGood(w, r);
    case SetLeaves(r, entries) => SetGood(w, r, entries);
    case EmitLeaves(r, entries, cause) => EmitGood(w, r, entries, cause);
    case ApplyInput(r, identity, patches, cause) => EmitGood(w, r, Collapse(patches), cause);
    case Attach(r, s, live, since, held) => AttachGood(w, r, s, live, since, held);
    case Detach(s) => CloseGood(w, w.registry.Values, s);
    case Unsubscribe(r, s) => CloseGood(w, {r}, s);
    case Deliver(s) => DeliverGood(w, s);
  }
}

/** What each operation of a scene computes, as functions of the state it starts from
    (src/lumencast/server/scene.py). The class Scene is proved against these functions, and
    the protocol theorems are about them. S stands for the identity of a subscription. */
module SceneModel {
  import opened Wrappers
  import opened JsonValues
  import opened Frames
  import opened Stores
  import opened Replays
  import opened Inputs
  import opened Roles
  import LeafPath

  const QUEUE_SIZE: nat := 256

  /** A queue element; the sentinel is the None that wakes a writer up to stop. */
  datatype Item = Frame(frame: ServerFrame) | Sentinel

  datatype Pipe = Pipe(live: bool, closed: bool, stale: bool, queue: seq<Item>)

  datatype SceneState<S(==)> = SceneState(
    id: string,
    version: string,
    store: State,
    seqno: nat,
    replay: seq<ReplayRecord>,
    inputs: map<string, InputSpec>,
    members: set<S>)

  // ------------------------------------------------------------------- one pipe

  function NewPipe(live: bool): Pipe {
    Pipe(live, false, false, [])
  }

  predicate Full(p: Pipe) {
    |p.queue| >= QUEUE_SIZE
  }

  function SendOrDrop(p: Pipe, frame: ServerFrame): Pipe {
    if Full(p) then p.(stale := true) else p.(queue := p.queue + [Frame(frame)])
  }

  /** A delta falls back to a snapshot when the queue is full. */
  function SendDelta(p: Pipe, delta: ServerFrame, fallback: ServerFrame): Pipe {
    if Full(p) then SendOrDrop(p, fallback) else p.(queue := p.queue + [Frame(delta)])
  }

  /** Closing queues the sentinel, dropping the oldest item to make room. */
  function ClosePipe(p: Pipe): Pipe {
    if p.closed then p
    else p.(closed := true, queue := (if Full(p) then p.queue[1..] else p.queue) + [Sentinel])
  }

  function ToMembers<S(==)>(pipes: map<S, Pipe>, members: set<S>, send: Pipe -> Pipe): map<S, Pipe> {
    map s | s in pipes :: if s in members then send(pipes[s]) else pipes[s]
  }

  // -------------------------------------------------------------- scene operations

  function NewSceneState<S(==)>(id: string, version: string, inputs: map<string, InputSpec>): SceneState<S> {
    SceneState(id, version, map[], 1, [], inputs, {})
  }

  function SnapshotOf<S>(sc: SceneState<S>): ServerFrame {
    Snapshot(sc.id, sc.version, sc.store, sc.seqno, "")
  }

  function AfterSet<S>(sc: SceneState<S>, entries: seq<Entry>): SceneState<S> {
    sc.(store := Apply(sc.store, entries))
  }

  function Emission<S>(sc: SceneState<S>, entries: seq<Entry>, cause: Option<Cause>): ReplayRecord {
    ReplayRecord(sc.seqno + 1, Wire(entries), cause)
  }

  function DeltaOf(r: ReplayRecord): ServerFrame {
    Delta(r.patches, r.seqno, "", r.cause)
  }

  function AfterEmit<S>(sc: SceneState<S>, entries: seq<Entry>, cause: Option<Cause>): SceneState<S> {
    sc.(store := Apply(sc.store, entries),
        seqno := sc.seqno + 1,
        replay := RingPush(sc.replay, DEFAULT_REPLAY_BUFFER_SIZE, Emission(sc, entries, cause)))
  }

  function PipeAfterSet<S>(sc: SceneState<S>, entries: seq<Entry>, p: Pipe): Pipe {
    SendOrDrop(p, SnapshotOf(AfterSet(sc, entries)))
  }

  function PipeAfterEmit<S>(sc: SceneState<S>, entries: seq<Entry>, cause: Option<Cause>, p: Pipe): Pipe {
    SendDelta(p, DeltaOf(Emission(sc, entries, cause)), SnapshotOf(AfterEmit(sc, entries, cause)))
  }

  function SendSet<S>(sc: SceneState<S>, entries: seq<Entry>): Pipe -> Pipe {
    p => PipeAfterSet(sc, entries, p)
  }

  function SendEmit<S>(sc: SceneState<S>, entries: seq<Entry>, cause: Option<Cause>): Pipe -> Pipe {
    p => PipeAfterEmit(sc, entries, cause, p)
  }

  function AfterReset<S>(sc: SceneState<S>): SceneState<S> {
    sc.(store := map[], members := {})
  }

  // --------------------------------------------------------------- subscribing

  /** How a subscription starts: with a snapshot, or with replayed emissions. */
  datatype Opening = Fresh(snapshot: ServerFrame) | Resumed(records: seq<ReplayRecord>)

  function Open<S>(sc: SceneState<S>, since: Option<int>): Opening {
    if since.Some? && 0 < since.value <= sc.seqno && Since(sc.replay, since.value).covered then
      Resumed(Since(sc.replay, since.value).records)
    else Fresh(SnapshotOf(sc))
  }

  function Deltas(records: seq<ReplayRecord>): (items: seq<Item>)
    ensures |items| == |records|
  {
    seq(|records|, i requires 0 <= i < |records| => Frame(DeltaOf(records[i])))
  }

  function InitialItems(opening: Opening): seq<Item> {
    match opening
    case Fresh(snapshot) => [Frame(snapshot)]
    case Resumed(records) => Deltas(records)
  }

  function Joined<S>(sc: SceneState<S>, s: S): SceneState<S> {
    sc.(members := sc.members + {s})
  }

  function Left<S>(sc: SceneState<S>, s: S): SceneState<S> {
    sc.(members := sc.members - {s})
  }

  // ---------------------------------------------------------------- migration

  function LiveMembers<S>(sc: SceneState<S>, pipes: map<S, Pipe>): set<S>
    requires sc.members <= pipes.Keys
  {
    set s | s in sc.members && pipes[s].live
  }

  /** The previous scene advances its counter, without a replay record, if anyone moves. */
  function MovedOut<S>(prev: SceneState<S>, moved: set<S>): SceneState<S> {
    if moved == {} then prev
    else prev.(members := prev.members - moved, seqno := prev.seqno + 1)
  }

  function MovedIn<S>(next: SceneState<S>, moved: set<S>): SceneState<S> {
    next.(members := next.members + moved)
  }

  function SceneChangedTo<S>(prev: SceneState<S>, next: SceneState<S>): ServerFrame {
    SceneChanged(next.id, next.version, prev.seqno + 1, "", None, None)
  }

  function Switched<S>(prev: SceneState<S>, next: SceneState<S>, p: Pipe): Pipe {
    SendOrDrop(SendOrDrop(p, SceneChangedTo(prev, next)), SnapshotOf(next))
  }

  function SendSwitch<S>(prev: SceneState<S>, next: SceneState<S>): Pipe -> Pipe {
    p => Switched(prev, next, p)
  }

  // ------------------------------------------------------- the queues, field by field

  /** What a set puts on a queue: the whole state under the scene's id, version and counter. */
  lemma {:induction false} PipeAfterSetExact<S>(sc: SceneState<S>, entries: seq<Entry>, p: Pipe)
    ensures var p' := PipeAfterSet(sc, entries, p);
      && (|p.queue| < 256 ==>
            p' == p.(queue := p.queue + [Frame(Snapshot(sc.id, sc.version, Apply(sc.store, entries), sc.seqno, ""))]))
      && (|p.queue| >= 256 ==> p' == p.(stale := true))
  {
  }

  /** What an emission puts on it: its entries in order, the next seq and the cause. */
  lemma {:induction false} PipeAfterEmitExact<S>(sc: SceneState<S>, entries: seq<Entry>, cause: Option<Cause>, p: Pipe)
    ensures var p' := PipeAfterEmit(sc, entries, cause, p);
      var patches := seq(|entries|, i requires 0 <= i < |entries| => Patch(entries[i].path, entries[i].value, None));
      && (|p.queue| < 256 ==>
            p' == p.(queue := p.queue + [Frame(Delta(patches, sc.seqno + 1, "", cause))]))
      && (|p.queue| >= 256 ==> p' == p.(stale := true))
  {
    var patches := seq(|entries|, i requires 0 <= i < |entries| => Patch(entries[i].path, entries[i].value, None));
    assert Wire(entries) == patches;
  }

  /** What being moved puts on it: the announcement of the next scene on the previous counter,
      then the next scene's state on its own; each only if there is room for it. */
  lemma {:induction false} SwitchedExact<S>(prev: SceneState<S>, next: SceneState<S>, p: Pipe)
    ensures var p' := Switched(prev, next, p);
      var changed := Frame(SceneChanged(next.id, next.version, prev.seqno + 1, "", None, None));
      var snap := Frame(Snapshot(next.id, next.version, next.store, next.seqno, ""));
      && (|p.queue| < 255 ==> p' == p.(queue := p.queue + [changed, snap]))
      && (|p.queue| == 255 ==> p' == p.(queue := p.queue + [changed], stale := true))
      && (|p.queue| > 255 ==> p' == p.(stale := true))
  {
  }

  /** What closing puts on it: the sentinel last, after everything that waited, or all but the
      oldest of it if there was no room. */
  lemma {:induction false} ClosePipeExact(p: Pipe)
    ensures var p' := ClosePipe(p);
      && (p.closed ==> p' == p)
      && (!p.closed ==>
            && p'.closed && p'.live == p.live && p'.stale == p.stale
            && p'.queue != [] && p'.queue[|p'.queue|-1] == Sentinel
            && (|p.queue| < 256 ==> p'.queue[..|p'.queue|-1] == p.queue)
            && (|p.queue| >= 256 ==> p'.queue[..|p'.queue|-1] == p.queue[1..])
            && Sentinel in p'.queue)
  {
  }

  /** How a subscription starts: with the emissions after `since` when that is a seq of the scene
      and the ring reaches back to it, with the whole state otherwise. */
  lemma {:induction false} OpenExact<S>(sc: SceneState<S>, since: Option<int>)
    ensures var replays := since.Some? && 1 <= since.value <= sc.seqno
                           && (sc.replay == [] || sc.replay[0].seqno <= since.value + 1);
      && (!replays ==>
            && Open(sc, since) == Fresh(Snapshot(sc.id, sc.version, sc.store, sc.seqno, ""))
            && InitialItems(Open(sc, since)) == [Frame(Snapshot(sc.id, sc.version, sc.store, sc.seqno, ""))])
      && (replays ==>
            && Open(sc, since) == Resumed(After(sc.replay, since.value))
            && var items, records := InitialItems(Open(sc, since)), After(sc.replay, since.value);
               && |items| == |records|
               && (forall r :: r in records <==> r in sc.replay && r.seqno > since.value)
               && forall i :: 0 <= i < |records| ==>
                    items[i] == Frame(Delta(records[i].patches, records[i].seqno, "", records[i].cause)))
  {
    if since.Some? {
      AfterMembers(sc.replay, since.value);
      forall r | r in sc.replay && r.seqno > since.value ensures r in After(sc.replay, since.value) {
        AfterKeeps(sc.replay, since.value, r);
      }
    }
  }

  // --------------------------------------------------------------- the input gate

  datatype Rejection =
    | EmptyPatches
    | WriteForbidden(path: string)
    | UnknownPath(path: string)
    | InvalidValue(path: string, violation: Violation)

  predicate AcceptsInputPath(inputs: map<string, InputSpec>, role: Option<Role>, path: string) {
    if LeafPath.HasPrefix(path, "__inputs") then inputs == map[] || path in inputs
    else LeafPath.HasPrefix(path, "__test") && role == Some(Test)
  }

  function CheckPatch(inputs: map<string, InputSpec>, identity: Identity, p: Patch): Option<Rejection> {
    if !identity.CanWrite(p.path) then Some(WriteForbidden(p.path))
    else if !AcceptsInputPath(inputs, identity.role, p.path) then Some(UnknownPath(p.path))
    else if p.path in inputs && CheckConstraint(inputs[p.path], p.value).Some? then
      Some(InvalidValue(p.path, CheckConstraint(inputs[p.path], p.value).value))
    else None
  }

  /** The first patch that fails decides; None accepts the whole frame. */
  function CheckPatches(inputs: map<string, InputSpec>, identity: Identity, patches: seq<Patch>): (r: Option<Rejection>)
    ensures r.None? <==> forall p :: p in patches ==> CheckPatch(inputs, identity, p).None?
  {
    if patches == [] then None
    else
      var e := CheckPatch(inputs, identity, patches[0]);
      assert forall p :: p in patches <==> p == patches[0] || p in patches[1..];
      if e.Some? then e else CheckPatches(inputs, identity, patches[1..])
  }

  /** The verdict is that of a failing patch with only passing ones before it. */
  lemma {:induction false} FirstRejection(inputs: map<string, InputSpec>, identity: Identity, patches: seq<Patch>)
    returns (i: nat)
    requires CheckPatches(inputs, identity, patches).Some?
    ensures i < |patches| && CheckPatches(inputs, identity, patches) == CheckPatch(inputs, identity, patches[i])
    ensures forall j :: 0 <= j < i ==> CheckPatch(inputs, identity, patches[j]).None?
    decreases |patches|
  {
    if CheckPatch(inputs, identity, patches[0]).Some? {
      i := 0;
    } else {
      var k := FirstRejection(inputs, identity, patches[1..]);
      i := k + 1;
      assert forall j :: 0 < j < i ==> patches[j] == patches[1..][j-1];
    }
  }

  function Gate(inputs: map<string, InputSpec>, identity: Identity, patches: seq<Patch>): Option<Rejection> {
    if patches == [] then Some(EmptyPatches) else CheckPatches(inputs, identity, patches)
  }
}

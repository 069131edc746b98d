/** Typed frames to and from envelope objects (src/lumencast/protocol/codec.py). */
module Codec {
  import opened Wrappers
  import opened JsonValues
  import opened Frames

  type Object = map<string, Json>

  /** IllTyped: a field has a type the source either passes through unchecked or fails on
      with an error of Python's own; nothing is claimed about such envelopes. */
  datatype DecodeError =
    | VersionMismatch
    | MissingType
    | UnknownType(name: string)
    | Malformed(what: string)
    | IllTyped(what: string)

  // ----------------------------------------------------------------------- encoding

  /** if value is given: out[key] = value */
  function With(out: Object, key: string, value: Option<Json>): Object {
    if value.Some? then out[key := value.value] else out
  }

  function OptStr(s: Option<string>): Option<Json> {
    if s.Some? then Some(JStr(s.value)) else None
  }

  function OptInt(n: Option<int>): Option<Json> {
    if n.Some? then Some(JInt(n.value)) else None
  }

  function OptReal(x: Option<real>): Option<Json> {
    if x.Some? then Some(JNum(x.value)) else None
  }

  /** A string field that is omitted when empty. */
  function NonEmpty(s: string): Option<Json> {
    if s == "" then None else Some(JStr(s))
  }

  function JInt(n: int): Json {
    JNum(n as real)
  }

  function TransitionToObject(t: TransitionSpec): Object {
    var out := map["kind" := JStr(t.kind)];
    var out := With(out, "duration_ms", OptInt(t.durationMs));
    var out := With(out, "easing", OptStr(t.easing));
    var out := With(out, "stiffness", OptReal(t.stiffness));
    With(out, "damping", OptReal(t.damping))
  }

  function OptTransition(t: Option<TransitionSpec>): Option<Json> {
    if t.Some? then Some(JObj(TransitionToObject(t.value))) else None
  }

  function PatchToObject(p: Patch): Object {
    With(map["path" := JStr(p.path), "value" := p.value], "transition", OptTransition(p.transition))
  }

  function PatchesToJson(ps: seq<Patch>): Json {
    JArr(seq(|ps|, i requires 0 <= i < |ps| => JObj(PatchToObject(ps[i]))))
  }

  function CauseToObject(c: Cause): Object {
    With(map["source" := JStr(c.source)], "input_id", OptStr(c.inputId))
  }

  function OptCause(c: Option<Cause>): Option<Json> {
    if c.Some? then Some(JObj(CauseToObject(c.value))) else None
  }

  function SceneTransitionToObject(t: SceneTransition): Object {
    With(map["kind" := JStr(t.kind)], "duration_ms", OptInt(t.durationMs))
  }

  function OptShow(t: Option<SceneTransition>): Option<Json> {
    if t.Some? then Some(JObj(SceneTransitionToObject(t.value))) else None
  }

  /** The keys every frame starts with. */
  function Envelope(kind: string): Object {
    map["v" := JInt(1), "type" := JStr(kind)]
  }

  function EncodeServer(f: ServerFrame): Object {
    match f
    case Snapshot(sceneId, sceneVersion, state, seqno, ts) =>
      var out := Envelope("snapshot")["seq" := JInt(seqno)]["scene_id" := JStr(sceneId)];
      var out := out["scene_version" := JStr(sceneVersion)]["state" := JObj(state)];
      With(out, "ts", NonEmpty(ts))
    case Delta(patches, seqno, ts, cause) =>
      var out := Envelope("delta")["seq" := JInt(seqno)]["patches" := PatchesToJson(patches)];
      var out := With(out, "ts", NonEmpty(ts));
      With(out, "cause", OptCause(cause))
    case SceneChanged(sceneId, sceneVersion, seqno, ts, from, show) =>
      var out := Envelope("scene_changed")["seq" := JInt(seqno)]["scene_id" := JStr(sceneId)];
      var out := With(out["scene_version" := JStr(sceneVersion)], "ts", NonEmpty(ts));
      var out := With(out, "from_scene_id", if from.Some? then NonEmpty(from.value) else None);
      With(out, "transition", OptShow(show))
    case Error(code, message, recoverable, seqno, ts, retryAfterMs, path) =>
      var out := Envelope("error")["seq" := JInt(seqno)]["code" := JStr(code)];
      var out := out["message" := JStr(message)]["recoverable" := JBool(recoverable)];
      var out := With(out, "ts", NonEmpty(ts));
      var out := With(out, "retry_after_ms", if retryAfterMs == 0 then None else Some(JInt(retryAfterMs)));
      With(out, "path", OptStr(path))
    case ServerPong(nonce) => With(Envelope("pong"), "nonce", OptStr(nonce))
    case ServerPing(nonce) => With(Envelope("ping"), "nonce", OptStr(nonce))
  }

  function EncodeClient(f: ClientFrame): Object {
    match f
    case Subscribe(token, scene, session, since) =>
      var out := With(Envelope("subscribe")["token" := JStr(token)], "scene", NonEmpty(scene));
      var out := With(out, "session", NonEmpty(session));
      With(out, "since_sequence", OptInt(since))
    case Input(patches, clientMsgId) =>
      With(Envelope("input")["patches" := PatchesToJson(patches)], "client_msg_id", OptStr(clientMsgId))
    case ClientPing(nonce) => With(Envelope("ping"), "nonce", OptStr(nonce))
    case ClientPong(nonce) => With(Envelope("pong"), "nonce", OptStr(nonce))
    case Unsubscribe => Envelope("unsubscribe")
  }

  // ----------------------------------------------------------------------- decoding

  /** env.get(key): absent and null are the same. */
  function Get(env: Object, key: string): Json {
    if key in env then env[key] else JNull
  }

  predicate Falsy(j: Json) {
    j == JNull || j == JBool(false) || j == JNum(0.0) || j == JStr("") || j == JArr([]) || j == JObj(map[])
  }

  function Truncated(x: real): int {
    if x >= 0.0 then x.Floor else -((-x).Floor)
  }

  /** Python's int(), on numbers and booleans. */
  function AsInt(j: Json, key: string): Result<int, DecodeError> {
    match j
    case JNum(n) => Ok(Truncated(n))
    case JBool(b) => Ok(if b then 1 else 0)
    case _ => Err(IllTyped(key))
  }

  function AsReal(j: Json, key: string): Result<real, DecodeError> {
    match j
    case JNum(n) => Ok(n)
    case JBool(b) => Ok(if b then 1.0 else 0.0)
    case _ => Err(IllTyped(key))
  }

  /** env.get(key, "") */
  function GetStr(env: Object, key: string): Result<string, DecodeError> {
    if key !in env then Ok("") else if env[key].JStr? then Ok(env[key].s) else Err(IllTyped(key))
  }

  /** env.get(key, "") or "" */
  function GetStrOrEmpty(env: Object, key: string): Result<string, DecodeError> {
    var j := Get(env, key);
    if Falsy(j) then Ok("") else if j.JStr? then Ok(j.s) else Err(IllTyped(key))
  }

  /** env.get(key) for an optional string */
  function GetOptStr(env: Object, key: string): Result<Option<string>, DecodeError> {
    var j := Get(env, key);
    if j.JNull? then Ok(None) else if j.JStr? then Ok(Some(j.s)) else Err(IllTyped(key))
  }

  /** int(env.get(key, 0)) */
  function GetInt(env: Object, key: string): Result<int, DecodeError> {
    if key in env then AsInt(env[key], key) else Ok(0)
  }

  /** int(env.get(key, 0) or 0) */
  function GetIntOrZero(env: Object, key: string): Result<int, DecodeError> {
    var j := Get(env, key);
    if Falsy(j) then Ok(0) else AsInt(j, key)
  }

  /** int(x) if x is not None else None */
  function GetOptInt(env: Object, key: string): Result<Option<int>, DecodeError> {
    var j := Get(env, key);
    if j.JNull? then Ok(None)
    else
      var n := AsInt(j, key);
      if n.Err? then Err(n.error) else Ok(Some(n.value))
  }

  const KINDS := {"tween", "spring", "snap"}
  const EASINGS := {"linear", "ease-in", "ease-out", "ease-in-out"}

  function IntIfPresent(o: Object, key: string): Result<Option<int>, DecodeError> {
    if key !in o then Ok(None)
    else
      var n := AsInt(o[key], key);
      if n.Err? then Err(n.error) else Ok(Some(n.value))
  }

  function RealIfPresent(o: Object, key: string): Result<Option<real>, DecodeError> {
    if key !in o then Ok(None)
    else
      var x := AsReal(o[key], key);
      if x.Err? then Err(x.error) else Ok(Some(x.value))
  }

  function EasingIfPresent(o: Object): Result<Option<string>, DecodeError> {
    if "easing" !in o then Ok(None)
    else if o["easing"].JStr? && o["easing"].s in EASINGS then Ok(Some(o["easing"].s))
    else Err(Malformed("transition.easing"))
  }

  function ParseTransitionSpec(raw: Json): Result<Option<TransitionSpec>, DecodeError> {
    if raw.JNull? then Ok(None)
    else if !raw.JObj? then Err(Malformed("transition"))
    else
      var o := raw.fields;
      var kind := Get(o, "kind");
      if !kind.JStr? || kind.s !in KINDS then Err(Malformed("transition.kind"))
      else
        var duration := IntIfPresent(o, "duration_ms");
        if duration.Err? then Err(duration.error)
        else
          var easing := EasingIfPresent(o);
          if easing.Err? then Err(easing.error)
          else
            var stiffness := RealIfPresent(o, "stiffness");
            if stiffness.Err? then Err(stiffness.error)
            else
              var damping := RealIfPresent(o, "damping");
              if damping.Err? then Err(damping.error)
              else Ok(Some(TransitionSpec(kind.s, duration.value, easing.value, stiffness.value, damping.value)))
  }

  function ParsePatch(item: Json): Result<Patch, DecodeError> {
    if !item.JObj? then Err(Malformed("patch"))
    else if "path" !in item.fields then Err(Malformed("patch.path"))
    else if !item.fields["path"].JStr? then Err(IllTyped("path"))
    else
      var t := ParseTransitionSpec(Get(item.fields, "transition"));
      if t.Err? then Err(t.error) else Ok(Patch(item.fields["path"].s, Get(item.fields, "value"), t.value))
  }

  /** The patches of the items, or the error of the first that fails. */
  function ParseItems(items: seq<Json>): Result<seq<Patch>, DecodeError> {
    if items == [] then Ok([])
    else
      var p := ParsePatch(items[0]);
      if p.Err? then Err(p.error)
      else
        var rest := ParseItems(items[1..]);
        if rest.Err? then Err(rest.error) else Ok([p.value] + rest.value)
  }

  function ParsePatches(raw: Json): Result<seq<Patch>, DecodeError> {
    if raw.JNull? then Ok([]) else if !raw.JArr? then Err(Malformed("patches")) else ParseItems(raw.items)
  }

  method ParsePatchList(raw: Json) returns (r: Result<seq<Patch>, DecodeError>)
    ensures r == ParsePatches(raw)
  {
    if raw.JNull? { return Ok([]); }
    if !raw.JArr? { return Err(Malformed("patches")); }
    var out: seq<Patch> := [];
    assert raw.items[0..] == raw.items;
    ghost var all := ParseItems(raw.items);
    if all.Ok? { assert out + all.value == all.value; }
    for i := 0 to |raw.items|
      invariant ParseItems(raw.items) ==
        var rest := ParseItems(raw.items[i..]); if rest.Err? then Err(rest.error) else Ok(out + rest.value)
    {
      var p := ParsePatch(raw.items[i]);
      assert raw.items[i..][0] == raw.items[i] && raw.items[i..][1..] == raw.items[i+1..];
      if p.Err? { return Err(p.error); }
      ghost var rest := ParseItems(raw.items[i+1..]);
      if rest.Ok? { assert out + ([p.value] + rest.value) == (out + [p.value]) + rest.value; }
      out := out + [p.value];
    }
    assert out + [] == out;
    return Ok(out);
  }

  function ParseCause(raw: Json): Result<Option<Cause>, DecodeError> {
    if raw.JNull? then Ok(None)
    else if !raw.JObj? then Err(Malformed("cause"))
    else if !Get(raw.fields, "source").JStr? then Err(Malformed("cause.source"))
    else
      var id := GetOptStr(raw.fields, "input_id");
      if id.Err? then Err(id.error) else Ok(Some(Cause(Get(raw.fields, "source").s, id.value)))
  }

  function ParseSceneTransition(raw: Json): Result<Option<SceneTransition>, DecodeError> {
    if raw.JNull? then Ok(None)
    else if !raw.JObj? then Err(Malformed("scene transition"))
    else if !Get(raw.fields, "kind").JStr? then Err(Malformed("scene transition.kind"))
    else
      var d := GetOptInt(raw.fields, "duration_ms");
      if d.Err? then Err(d.error) else Ok(Some(SceneTransition(Get(raw.fields, "kind").s, d.value)))
  }

  /** The frame type of a valid envelope; v == 1 holds in Python of true as well. */
  function ParseEnvelope(env: Object): Result<string, DecodeError> {
    var v := Get(env, "v");
    if v != JInt(1) && v != JBool(true) then Err(VersionMismatch)
    else if !Get(env, "type").JStr? then Err(MissingType)
    else Ok(Get(env, "type").s)
  }

  function DecodeSnapshot(env: Object): Result<ServerFrame, DecodeError> {
    var seqno, ts := GetInt(env, "seq"), GetStrOrEmpty(env, "ts");
    var id, version := GetStr(env, "scene_id"), GetStr(env, "scene_version");
    var state := Get(env, "state");
    if seqno.Err? then Err(seqno.error) else if ts.Err? then Err(ts.error)
    else if id.Err? then Err(id.error) else if version.Err? then Err(version.error)
    else if Falsy(state) then Ok(Snapshot(id.value, version.value, map[], seqno.value, ts.value))
    else if state.JObj? then Ok(Snapshot(id.value, version.value, state.fields, seqno.value, ts.value))
    else Err(IllTyped("state"))
  }

  function DecodeDelta(env: Object): Result<ServerFrame, DecodeError> {
    var seqno, ts := GetInt(env, "seq"), GetStrOrEmpty(env, "ts");
    var patches, cause := ParsePatches(Get(env, "patches")), ParseCause(Get(env, "cause"));
    if seqno.Err? then Err(seqno.error) else if ts.Err? then Err(ts.error)
    else if patches.Err? then Err(patches.error) else if cause.Err? then Err(cause.error)
    else Ok(Delta(patches.value, seqno.value, ts.value, cause.value))
  }

  function DecodeSceneChanged(env: Object): Result<ServerFrame, DecodeError> {
    var seqno, ts := GetInt(env, "seq"), GetStrOrEmpty(env, "ts");
    var id, version := GetStr(env, "scene_id"), GetStr(env, "scene_version");
    var from, show := GetOptStr(env, "from_scene_id"), ParseSceneTransition(Get(env, "transition"));
    if seqno.Err? then Err(seqno.error) else if ts.Err? then Err(ts.error)
    else if id.Err? then Err(id.error) else if version.Err? then Err(version.error)
    else if from.Err? then Err(from.error) else if show.Err? then Err(show.error)
    else Ok(SceneChanged(id.value, version.value, seqno.value, ts.value, from.value, show.value))
  }

  function DecodeErrorFrame(env: Object): Result<ServerFrame, DecodeError> {
    var seqno, ts := GetInt(env, "seq"), GetStrOrEmpty(env, "ts");
    var code, message := GetStr(env, "code"), GetStr(env, "message");
    var retry, path := GetIntOrZero(env, "retry_after_ms"), GetOptStr(env, "path");
    if seqno.Err? then Err(seqno.error) else if ts.Err? then Err(ts.error)
    else if code.Err? then Err(code.error) else if message.Err? then Err(message.error)
    else if retry.Err? then Err(retry.error) else if path.Err? then Err(path.error)
    else Ok(Error(code.value, message.value, !Falsy(Get(env, "recoverable")),
                  seqno.value, ts.value, retry.value, path.value))
  }

  function DecodeServer(env: Object): Result<ServerFrame, DecodeError> {
    var t := ParseEnvelope(env);
    if t.Err? then Err(t.error)
    else if t.value == "snapshot" then DecodeSnapshot(env)
    else if t.value == "delta" then DecodeDelta(env)
    else if t.value == "scene_changed" then DecodeSceneChanged(env)
    else if t.value == "error" then DecodeErrorFrame(env)
    else if t.value == "pong" then
      var n := GetOptStr(env, "nonce");
      if n.Err? then Err(n.error) else Ok(ServerPong(n.value))
    else if t.value == "ping" then
      var n := GetOptStr(env, "nonce");
      if n.Err? then Err(n.error) else Ok(ServerPing(n.value))
    else Err(UnknownType(t.value))
  }

  function DecodeSubscribe(env: Object): Result<ClientFrame, DecodeError> {
    var token, scene := GetStr(env, "token"), GetStrOrEmpty(env, "scene");
    var session, since := GetStrOrEmpty(env, "session"), GetOptInt(env, "since_sequence");
    if token.Err? then Err(token.error) else if scene.Err? then Err(scene.error)
    else if session.Err? then Err(session.error) else if since.Err? then Err(since.error)
    else Ok(Subscribe(token.value, scene.value, session.value, since.value))
  }

  function DecodeInput(env: Object): Result<ClientFrame, DecodeError> {
    var patches, id := ParsePatches(Get(env, "patches")), GetOptStr(env, "client_msg_id");
    if patches.Err? then Err(patches.error) else if id.Err? then Err(id.error)
    else Ok(Input(patches.value, id.value))
  }

  function DecodeClient(env: Object): Result<ClientFrame, DecodeError> {
    var t := ParseEnvelope(env);
    if t.Err? then Err(t.error)
    else if t.value == "subscribe" then DecodeSubscribe(env)
    else if t.value == "input" then DecodeInput(env)
    else if t.value == "ping" then
      var n := GetOptStr(env, "nonce");
      if n.Err? then Err(n.error) else Ok(ClientPing(n.value))
    else if t.value == "pong" then
      var n := GetOptStr(env, "nonce");
      if n.Err? then Err(n.error) else Ok(ClientPong(n.value))
    else if t.value == "unsubscribe" then Ok(Unsubscribe)
    else Err(UnknownType(t.value))
  }

  // -------------------------------------------------------------------- round trips

  predicate GoodTransition(t: TransitionSpec) {
    t.kind in KINDS && (t.easing.Some? ==> t.easing.value in EASINGS)
  }

  predicate GoodPatches(ps: seq<Patch>) {
    forall i :: 0 <= i < |ps| && ps[i].transition.Some? ==> GoodTransition(ps[i].transition.value)
  }

  predicate GoodServer(f: ServerFrame) {
    f.Delta? ==> GoodPatches(f.patches)
  }

  predicate GoodClient(f: ClientFrame) {
    f.Input? ==> GoodPatches(f.patches)
  }

  /** The encoder drops an empty from_scene_id. */
  function Normalised(f: ServerFrame): ServerFrame {
    if f.SceneChanged? && f.fromSceneId == Some("") then f.(fromSceneId := None) else f
  }

  lemma {:induction false} IntBack(n: int, key: string)
    ensures AsInt(JInt(n), key) == Ok(n)
  {
  }

  lemma {:induction false} TransitionBack(t: TransitionSpec)
    ensures var r := ParseTransitionSpec(JObj(TransitionToObject(t)));
      if GoodTransition(t) then r == Ok(Some(t)) else r.Err? && r.error.Malformed?
  {
    var o := TransitionToObject(t);
    assert Get(o, "kind") == JStr(t.kind);
    assert IntIfPresent(o, "duration_ms") == Ok(t.durationMs) by {
      if t.durationMs.Some? { IntBack(t.durationMs.value, "duration_ms"); }
    }
    assert "easing" in o <==> t.easing.Some?;
    assert RealIfPresent(o, "stiffness") == Ok(t.stiffness);
    assert RealIfPresent(o, "damping") == Ok(t.damping);
  }

  lemma {:induction false} PatchBack(p: Patch)
    ensures var r := ParsePatch(JObj(PatchToObject(p)));
      if p.transition.Some? && !GoodTransition(p.transition.value) then r.Err? && r.error.Malformed? else r == Ok(p)
  {
    if p.transition.Some? { TransitionBack(p.transition.value); }
  }

  lemma {:induction false} PatchesBack(ps: seq<Patch>)
    ensures var r := ParsePatches(PatchesToJson(ps));
      if GoodPatches(ps) then r == Ok(ps) else r.Err? && r.error.Malformed?
    decreases |ps|
  {
    var items := PatchesToJson(ps).items;
    if ps != [] {
      PatchBack(ps[0]);
      PatchesBack(ps[1..]);
      assert items[1..] == PatchesToJson(ps[1..]).items;
      assert ps == [ps[0]] + ps[1..];
      assert GoodPatches(ps) <==>
        (ps[0].transition.Some? ==> GoodTransition(ps[0].transition.value)) && GoodPatches(ps[1..]);
    }
  }

  function OrNull(j: Option<Json>): Json {
    if j.Some? then j.value else JNull
  }

  predicate TypedAs(env: Object, kind: string) {
    Get(env, "v") == JInt(1) && Get(env, "type") == JStr(kind)
  }

  predicate Sequenced(env: Object, seqno: int, ts: string) {
    "seq" in env && env["seq"] == JInt(seqno) && Get(env, "ts") == if ts == "" then JNull else JStr(ts)
  }

  lemma {:induction false} SequencedBack(env: Object, seqno: int, ts: string)
    requires Sequenced(env, seqno, ts)
    ensures GetInt(env, "seq") == Ok(seqno) && GetStrOrEmpty(env, "ts") == Ok(ts)
  {
    IntBack(seqno, "seq");
  }

  lemma {:induction false} SnapshotBack(f: ServerFrame)
    requires f.Snapshot?
    ensures DecodeServer(EncodeServer(f)) == Ok(f)
  {
    var env := EncodeServer(f);
    assert TypedAs(env, "snapshot");
    SequencedBack(env, f.seqno, f.ts);
  }

  lemma {:induction false} CauseBack(c: Option<Cause>)
    ensures ParseCause(OrNull(OptCause(c))) == Ok(c)
  {
  }

  lemma {:induction false} ShowBack(t: Option<SceneTransition>)
    ensures ParseSceneTransition(OrNull(OptShow(t))) == Ok(t)
  {
    if t.Some? && t.value.durationMs.Some? { IntBack(t.value.durationMs.value, "duration_ms"); }
  }

  lemma {:induction false} DeltaFields(f: ServerFrame)
    requires f.Delta?
    ensures var env := EncodeServer(f);
      && TypedAs(env, "delta") && Sequenced(env, f.seqno, f.ts)
      && Get(env, "patches") == PatchesToJson(f.patches)
      && Get(env, "cause") == OrNull(OptCause(f.cause))
  {
  }

  lemma {:induction false} DeltaDecodes(env: Object, f: ServerFrame)
    requires f.Delta? && TypedAs(env, "delta") && Sequenced(env, f.seqno, f.ts)
    requires Get(env, "patches") == PatchesToJson(f.patches)
    requires Get(env, "cause") == OrNull(OptCause(f.cause))
    ensures var r := DecodeServer(env);
      if GoodServer(f) then r == Ok(f) else r.Err? && r.error.Malformed?
  {
    SequencedBack(env, f.seqno, f.ts);
    PatchesBack(f.patches);
    CauseBack(f.cause);
  }

  lemma {:induction false} SceneChangedFields(f: ServerFrame)
    requires f.SceneChanged?
    ensures var env := EncodeServer(f);
      && TypedAs(env, "scene_changed") && Sequenced(env, f.seqno, f.ts)
      && "scene_id" in env && env["scene_id"] == JStr(f.sceneId)
      && "scene_version" in env && env["scene_version"] == JStr(f.sceneVersion)
      && Get(env, "from_scene_id") ==
         (if f.fromSceneId.Some? && f.fromSceneId.value != "" then JStr(f.fromSceneId.value) else JNull)
      && Get(env, "transition") == OrNull(OptShow(f.show))
  {
  }

  lemma {:induction false} SceneChangedBack(f: ServerFrame)
    requires f.SceneChanged?
    ensures DecodeServer(EncodeServer(f)) == Ok(Normalised(f))
  {
    SceneChangedFields(f);
    SceneChangedDecodes(EncodeServer(f), f);
  }

  lemma {:induction false} SceneChangedDecodes(env: Object, f: ServerFrame)
    requires f.SceneChanged? && TypedAs(env, "scene_changed") && Sequenced(env, f.seqno, f.ts)
    requires "scene_id" in env && env["scene_id"] == JStr(f.sceneId)
    requires "scene_version" in env && env["scene_version"] == JStr(f.sceneVersion)
    requires Get(env, "from_scene_id") ==
      if f.fromSceneId.Some? && f.fromSceneId.value != "" then JStr(f.fromSceneId.value) else JNull
    requires Get(env, "transition") == OrNull(OptShow(f.show))
    ensures DecodeServer(env) == Ok(Normalised(f))
  {
    SequencedBack(env, f.seqno, f.ts);
    ShowBack(f.show);
  }

  lemma {:induction false} ErrorFields(f: ServerFrame)
    requires f.Error?
    ensures var env := EncodeServer(f);
      && TypedAs(env, "error") && Sequenced(env, f.seqno, f.ts)
      && "code" in env && env["code"] == JStr(f.code)
      && "message" in env && env["message"] == JStr(f.message)
  {
  }

  lemma {:induction false} ErrorOptions(f: ServerFrame)
    requires f.Error?
    ensures var env := EncodeServer(f);
      && Get(env, "recoverable") == JBool(f.recoverable)
      && Get(env, "retry_after_ms") == (if f.retryAfterMs == 0 then JNull else JInt(f.retryAfterMs))
      && Get(env, "path") == if f.path.Some? then JStr(f.path.value) else JNull
  {
  }

  lemma {:induction false} ErrorDecodes(env: Object, f: ServerFrame)
    requires f.Error? && TypedAs(env, "error") && Sequenced(env, f.seqno, f.ts)
    requires "code" in env && env["code"] == JStr(f.code)
    requires "message" in env && env["message"] == JStr(f.message)
    requires Get(env, "recoverable") == JBool(f.recoverable)
    requires Get(env, "retry_after_ms") == if f.retryAfterMs == 0 then JNull else JInt(f.retryAfterMs)
    requires Get(env, "path") == if f.path.Some? then JStr(f.path.value) else JNull
    ensures DecodeServer(env) == Ok(f)
  {
    SequencedBack(env, f.seqno, f.ts);
    IntBack(f.retryAfterMs, "retry_after_ms");
  }

  /** Every server frame survives the wire, up to an empty from_scene_id, unless a patch has a
      transition of unknown kind or easing; those are refused. */
  lemma {:induction false} ServerRoundTrip(f: ServerFrame)
    ensures var r := DecodeServer(EncodeServer(f));
      if GoodServer(f) then r == Ok(Normalised(f)) else r.Err? && r.error.Malformed?
    ensures DecodeServer(EncodeServer(f)) == Ok(f) <==> GoodServer(f) && (f.SceneChanged? ==> f.fromSceneId != Some(""))
    ensures EncodeServer(Normalised(f)) == EncodeServer(f)
  {
    match f
    case Snapshot(_, _, _, _, _) => SnapshotBack(f);
    case Delta(_, _, _, _) =>
      DeltaFields(f);
      DeltaDecodes(EncodeServer(f), f);
    case SceneChanged(_, _, _, _, _, _) => SceneChangedBack(f);
    case Error(_, _, _, _, _, _, _) =>
      ErrorFields(f);
      ErrorOptions(f);
      ErrorDecodes(EncodeServer(f), f);
    case _ =>
  }

  lemma {:induction false} SubscribeBack(f: ClientFrame)
    requires f.Subscribe?
    ensures DecodeClient(EncodeClient(f)) == Ok(f)
  {
    var env := EncodeClient(f);
    assert TypedAs(env, "subscribe");
    assert GetStr(env, "token") == Ok(f.token);
    assert GetStrOrEmpty(env, "scene") == Ok(f.scene);
    assert GetStrOrEmpty(env, "session") == Ok(f.session);
    if f.since.Some? { IntBack(f.since.value, "since_sequence"); }
    assert GetOptInt(env, "since_sequence") == Ok(f.since);
  }

  lemma {:induction false} InputBack(f: ClientFrame)
    requires f.Input?
    ensures var r := DecodeClient(EncodeClient(f));
      if GoodClient(f) then r == Ok(f) else r.Err? && r.error.Malformed?
  {
    var env := EncodeClient(f);
    assert TypedAs(env, "input");
    assert Get(env, "patches") == PatchesToJson(f.patches);
    assert GetOptStr(env, "client_msg_id") == Ok(f.clientMsgId);
    PatchesBack(f.patches);
  }

  /** Every client frame survives the wire, with the same exception. */
  lemma {:induction false} ClientRoundTrip(f: ClientFrame)
    ensures var r := DecodeClient(EncodeClient(f));
      if GoodClient(f) then r == Ok(f) else r.Err? && r.error.Malformed?
  {
    match f
    case Subscribe(_, _, _, since) => SubscribeBack(f);
    case Input(patches, _) => InputBack(f);
    case _ =>
  }
}

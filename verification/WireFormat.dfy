/** The names on the wire: which keys an encoded frame has and what is under them, and which
    envelopes are refused (src/lumencast/protocol/codec.py, LSDP/1.1 sections 3 and 4). */
module WireFormat {
  import opened Wrappers
  import opened JsonValues
  import opened Frames
  import opened Codec

  /** Exactly the fixed keys, and of the optional ones those that have a value. */
  ghost predicate Carries(o: Object, fixed: Object, optional: map<string, Option<Json>>) {
    && (forall k :: k in o <==> k in fixed || (k in optional && optional[k].Some?))
    && (forall k :: k in fixed ==> k in o && o[k] == fixed[k])
    && (forall k :: k in optional && optional[k].Some? ==> k in o && o[k] == optional[k].value)
  }

  function IfAny(s: string): Option<Json> {
    if s == "" then None else Some(JStr(s))
  }

  function IfGiven(s: Option<string>): Option<Json> {
    if s == None then None else Some(JStr(s.value))
  }

  lemma {:induction false} CarriesWith(o: Object, fixed: Object, optional: map<string, Option<Json>>, key: string,
                                       value: Option<Json>)
    requires Carries(o, fixed, optional) && key !in fixed && key !in optional
    ensures Carries(With(o, key, value), fixed, optional[key := value])
  {
  }

  lemma {:induction false} ThreeOptions(fixed: Object, a: string, x: Option<Json>, b: string, y: Option<Json>,
                                        c: string, z: Option<Json>)
    requires a !in fixed && b !in fixed && c !in fixed && a != b && b != c && a != c
    ensures Carries(With(With(With(fixed, a, x), b, y), c, z), fixed, map[a := x, b := y, c := z])
  {
    CarriesWith(fixed, fixed, map[], a, x);
    CarriesWith(With(fixed, a, x), fixed, map[a := x], b, y);
    CarriesWith(With(With(fixed, a, x), b, y), fixed, map[a := x, b := y], c, z);
  }

  lemma {:induction false} SnapshotWire(f: ServerFrame)
    requires f.Snapshot?
    ensures Carries(EncodeServer(f),
      map["v" := JNum(1.0), "type" := JStr("snapshot"), "seq" := JNum(f.seqno as real),
          "scene_id" := JStr(f.sceneId), "scene_version" := JStr(f.sceneVersion), "state" := JObj(f.state)],
      map["ts" := IfAny(f.ts)])
  {
  }

  lemma {:induction false} DeltaWire(f: ServerFrame)
    requires f.Delta?
    ensures Carries(EncodeServer(f),
      map["v" := JNum(1.0), "type" := JStr("delta"), "seq" := JNum(f.seqno as real),
          "patches" := PatchesToJson(f.patches)],
      map["ts" := IfAny(f.ts), "cause" := if f.cause == None then None else Some(JObj(CauseToObject(f.cause.value)))])
  {
  }

  lemma {:induction false} CauseWire(c: Cause)
    ensures Carries(CauseToObject(c), map["source" := JStr(c.source)], map["input_id" := IfGiven(c.inputId)])
  {
  }

  lemma {:induction false} PatchWire(ps: seq<Patch>, i: nat)
    requires i < |ps|
    ensures PatchesToJson(ps).JArr? && |PatchesToJson(ps).items| == |ps|
    ensures PatchesToJson(ps).items[i].JObj?
    ensures Carries(PatchesToJson(ps).items[i].fields,
      map["path" := JStr(ps[i].path), "value" := ps[i].value],
      map["transition" :=
            if ps[i].transition == None then None else Some(JObj(TransitionToObject(ps[i].transition.value)))])
  {
  }

  lemma {:induction false} TransitionWire(t: TransitionSpec)
    ensures Carries(TransitionToObject(t),
      map["kind" := JStr(t.kind)],
      map["duration_ms" := if t.durationMs == None then None else Some(JNum(t.durationMs.value as real)),
          "easing" := IfGiven(t.easing),
          "stiffness" := if t.stiffness == None then None else Some(JNum(t.stiffness.value)),
          "damping" := if t.damping == None then None else Some(JNum(t.damping.value))])
  {
    var fixed: Object := map["kind" := JStr(t.kind)];
    var duration := if t.durationMs == None then None else Some(JNum(t.durationMs.value as real));
    var stiffness := if t.stiffness == None then None else Some(JNum(t.stiffness.value));
    var damping := if t.damping == None then None else Some(JNum(t.damping.value));
    ThreeOptions(fixed, "duration_ms", duration, "easing", IfGiven(t.easing), "stiffness", stiffness);
    var three := map["duration_ms" := duration, "easing" := IfGiven(t.easing), "stiffness" := stiffness];
    CarriesWith(With(With(With(fixed, "duration_ms", duration), "easing", IfGiven(t.easing)), "stiffness", stiffness),
                fixed, three, "damping", damping);
  }

  lemma {:induction false} SceneChangedWire(f: ServerFrame)
    requires f.SceneChanged?
    ensures Carries(EncodeServer(f),
      map["v" := JNum(1.0), "type" := JStr("scene_changed"), "seq" := JNum(f.seqno as real),
          "scene_id" := JStr(f.sceneId), "scene_version" := JStr(f.sceneVersion)],
      map["ts" := IfAny(f.ts),
          "from_scene_id" := if f.fromSceneId == None then None else IfAny(f.fromSceneId.value),
          "transition" := if f.show == None then None else Some(JObj(SceneTransitionToObject(f.show.value)))])
  {
    var fixed: Object := map["v" := JNum(1.0), "type" := JStr("scene_changed"), "seq" := JNum(f.seqno as real),
                             "scene_id" := JStr(f.sceneId), "scene_version" := JStr(f.sceneVersion)];
    var ts, from := IfAny(f.ts), if f.fromSceneId == None then None else IfAny(f.fromSceneId.value);
    var show := if f.show == None then None else Some(JObj(SceneTransitionToObject(f.show.value)));
    ThreeOptions(fixed, "ts", ts, "from_scene_id", from, "transition", show);
  }

  lemma {:induction false} ShowWire(t: SceneTransition)
    ensures Carries(SceneTransitionToObject(t),
      map["kind" := JStr(t.kind)],
      map["duration_ms" := if t.durationMs == None then None else Some(JNum(t.durationMs.value as real))])
  {
  }

  lemma {:induction false} ErrorWire(f: ServerFrame)
    requires f.Error?
    ensures Carries(EncodeServer(f),
      map["v" := JNum(1.0), "type" := JStr("error"), "seq" := JNum(f.seqno as real), "code" := JStr(f.code),
          "message" := JStr(f.message), "recoverable" := JBool(f.recoverable)],
      map["ts" := IfAny(f.ts),
          "retry_after_ms" := if f.retryAfterMs == 0 then None else Some(JNum(f.retryAfterMs as real)),
          "path" := IfGiven(f.path)])
  {
    var fixed: Object := map["v" := JNum(1.0), "type" := JStr("error"), "seq" := JNum(f.seqno as real),
                             "code" := JStr(f.code), "message" := JStr(f.message),
                             "recoverable" := JBool(f.recoverable)];
    var retry := if f.retryAfterMs == 0 then None else Some(JNum(f.retryAfterMs as real));
    ThreeOptions(fixed, "ts", IfAny(f.ts), "retry_after_ms", retry, "path", IfGiven(f.path));
  }

  lemma {:induction false} SubscribeWire(f: ClientFrame)
    requires f.Subscribe?
    ensures Carries(EncodeClient(f),
      map["v" := JNum(1.0), "type" := JStr("subscribe"), "token" := JStr(f.token)],
      map["scene" := IfAny(f.scene), "session" := IfAny(f.session),
          "since_sequence" := if f.since == None then None else Some(JNum(f.since.value as real))])
  {
  }

  lemma {:induction false} InputWire(f: ClientFrame)
    requires f.Input?
    ensures Carries(EncodeClient(f),
      map["v" := JNum(1.0), "type" := JStr("input"), "patches" := PatchesToJson(f.patches)],
      map["client_msg_id" := IfGiven(f.clientMsgId)])
  {
  }

  lemma {:induction false} BeatsWire(nonce: Option<string>)
    ensures Carries(EncodeServer(ServerPong(nonce)), map["v" := JNum(1.0), "type" := JStr("pong")],
                    map["nonce" := IfGiven(nonce)])
    ensures Carries(EncodeServer(ServerPing(nonce)), map["v" := JNum(1.0), "type" := JStr("ping")],
                    map["nonce" := IfGiven(nonce)])
    ensures EncodeClient(ClientPing(nonce)) == EncodeServer(ServerPing(nonce))
    ensures EncodeClient(ClientPong(nonce)) == EncodeServer(ServerPong(nonce))
    ensures EncodeClient(Unsubscribe) == map["v" := JNum(1.0), "type" := JStr("unsubscribe")]
  {
  }

  // -------------------------------------------------------------------------- refusals

  /** v is 1, or true, which Python holds to be equal to it. */
  predicate GoodVersion(env: Object) {
    "v" in env && (env["v"] == JNum(1.0) || env["v"] == JBool(true))
  }

  const SERVER_TYPES: set<string> := {"snapshot", "delta", "scene_changed", "error", "pong", "ping"}
  const CLIENT_TYPES: set<string> := {"subscribe", "input", "ping", "pong", "unsubscribe"}

  predicate FieldError(e: DecodeError) {
    e.Malformed? || e.IllTyped?
  }

  lemma {:induction false} PatchErrors(item: Json)
    ensures ParsePatch(item).Err? ==> FieldError(ParsePatch(item).error)
  {
  }

  lemma {:induction false} ItemsErrors(items: seq<Json>)
    ensures ParseItems(items).Err? ==> FieldError(ParseItems(items).error)
    decreases |items|
  {
    if items != [] {
      PatchErrors(items[0]);
      ItemsErrors(items[1..]);
    }
  }

  lemma {:induction false} SnapshotErrors(env: Object)
    ensures DecodeSnapshot(env).Err? ==> FieldError(DecodeSnapshot(env).error)
  {
  }

  lemma {:induction false} DeltaErrors(env: Object)
    ensures DecodeDelta(env).Err? ==> FieldError(DecodeDelta(env).error)
  {
    if Get(env, "patches").JArr? { ItemsErrors(Get(env, "patches").items); }
  }

  lemma {:induction false} SceneChangedErrors(env: Object)
    ensures DecodeSceneChanged(env).Err? ==> FieldError(DecodeSceneChanged(env).error)
  {
  }

  lemma {:induction false} ErrorErrors(env: Object)
    ensures DecodeErrorFrame(env).Err? ==> FieldError(DecodeErrorFrame(env).error)
  {
  }

  lemma {:induction false} ClientErrors(env: Object)
    ensures DecodeSubscribe(env).Err? ==> FieldError(DecodeSubscribe(env).error)
    ensures DecodeInput(env).Err? ==> FieldError(DecodeInput(env).error)
  {
    if Get(env, "patches").JArr? { ItemsErrors(Get(env, "patches").items); }
  }

  /** A server envelope: the version is checked first, then that there is a type, then which it
      is; what is refused after that is a field. */
  lemma {:induction false} ServerEnvelopeExact(env: Object)
    ensures !GoodVersion(env) ==> DecodeServer(env) == Err(VersionMismatch)
    ensures GoodVersion(env) && !("type" in env && env["type"].JStr?) ==> DecodeServer(env) == Err(MissingType)
    ensures GoodVersion(env) && "type" in env && env["type"].JStr? ==>
      var t, r := env["type"].s, DecodeServer(env);
      && (t !in SERVER_TYPES ==> r == Err(UnknownType(t)))
      && (t in SERVER_TYPES && r.Err? ==> FieldError(r.error))
  {
    SnapshotErrors(env);
    DeltaErrors(env);
    SceneChangedErrors(env);
    ErrorErrors(env);
  }

  /** A client envelope likewise. */
  lemma {:induction false} ClientEnvelopeExact(env: Object)
    ensures !GoodVersion(env) ==> DecodeClient(env) == Err(VersionMismatch)
    ensures GoodVersion(env) && !("type" in env && env["type"].JStr?) ==> DecodeClient(env) == Err(MissingType)
    ensures GoodVersion(env) && "type" in env && env["type"].JStr? ==>
      var t, r := env["type"].s, DecodeClient(env);
      && (t !in CLIENT_TYPES ==> r == Err(UnknownType(t)))
      && (t in CLIENT_TYPES && r.Err? ==> FieldError(r.error))
  {
    ClientErrors(env);
  }

  /** What is decoded is of the type the envelope names. */
  lemma {:induction false} DecodedType(env: Object)
    requires GoodVersion(env) && "type" in env && env["type"].JStr?
    ensures DecodeServer(env).Ok? ==>
      var f, t := DecodeServer(env).value, env["type"].s;
      && (f.Snapshot? <==> t == "snapshot") && (f.Delta? <==> t == "delta")
      && (f.SceneChanged? <==> t == "scene_changed") && (f.Error? <==> t == "error")
      && (f.ServerPong? <==> t == "pong") && (f.ServerPing? <==> t == "ping")
    ensures DecodeClient(env).Ok? ==>
      var f, t := DecodeClient(env).value, env["type"].s;
      && (f.Subscribe? <==> t == "subscribe") && (f.Input? <==> t == "input")
      && (f.ClientPing? <==> t == "ping") && (f.ClientPong? <==> t == "pong")
      && (f.Unsubscribe? <==> t == "unsubscribe")
  {
  }

  /** The transitions that are let through. */
  lemma {:induction false} GoodTransitionExact(t: TransitionSpec)
    ensures GoodTransition(t) <==>
      && (t.kind == "tween" || t.kind == "spring" || t.kind == "snap")
      && (t.easing == None || t.easing == Some("linear") || t.easing == Some("ease-in")
          || t.easing == Some("ease-out") || t.easing == Some("ease-in-out"))
  {
  }

  // --------------------------------------------------------------- defaults and coercions

  /** Fields that are left out: seq 0, empty strings, an empty state, no patches, not recoverable. */
  lemma {:induction false} DefaultsExact()
    ensures DecodeServer(map["v" := JNum(1.0), "type" := JStr("snapshot")]) == Ok(Snapshot("", "", map[], 0, ""))
    ensures DecodeServer(map["v" := JNum(1.0), "type" := JStr("delta")]) == Ok(Delta([], 0, "", None))
    ensures DecodeServer(map["v" := JNum(1.0), "type" := JStr("scene_changed")]) ==
      Ok(SceneChanged("", "", 0, "", None, None))
    ensures DecodeServer(map["v" := JNum(1.0), "type" := JStr("error")]) == Ok(Error("", "", false, 0, "", 0, None))
    ensures DecodeClient(map["v" := JNum(1.0), "type" := JStr("subscribe")]) == Ok(Subscribe("", "", "", None))
    ensures DecodeClient(map["v" := JNum(1.0), "type" := JStr("input")]) == Ok(Input([], None))
  {
  }

  /** Numbers are cut towards zero, booleans are 0 and 1, anything else is refused. */
  lemma {:induction false} IntegerExact(j: Json, key: string)
    ensures j.JNum? && j.n >= 0.0 ==>
      AsInt(j, key).Ok? && (AsInt(j, key).value as real) <= j.n < (AsInt(j, key).value as real) + 1.0
    ensures j.JNum? && j.n < 0.0 ==>
      AsInt(j, key).Ok? && (AsInt(j, key).value as real) - 1.0 < j.n <= (AsInt(j, key).value as real)
    ensures j.JBool? ==> AsInt(j, key) == Ok(if j.b then 1 else 0)
    ensures !j.JNum? && !j.JBool? ==> AsInt(j, key) == Err(IllTyped(key))
  {
  }

  /** A patch list is refused unless every item is an object with a string path and a transition
      that is absent, null or good; a value that is left out is null. */
  lemma {:induction false} PatchDecoded(item: Json)
    ensures ParsePatch(item).Ok? ==>
      && item.JObj? && "path" in item.fields && item.fields["path"].JStr?
      && ParsePatch(item).value.path == item.fields["path"].s
      && ParsePatch(item).value.value == (if "value" in item.fields then item.fields["value"] else JNull)
      && (ParsePatch(item).value.transition.Some? ==> GoodTransition(ParsePatch(item).value.transition.value))
    ensures item.JObj? && "path" in item.fields && item.fields["path"].JStr? && "transition" !in item.fields ==>
      ParsePatch(item).Ok?
    ensures !item.JObj? ==> ParsePatch(item).Err?
    ensures item.JObj? && "path" !in item.fields ==> ParsePatch(item).Err?
  {
  }
}

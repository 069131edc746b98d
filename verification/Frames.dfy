/** The typed LSDP/1 frames (src/lumencast/protocol/frames.py). */
module Frames {
  import opened Wrappers
  import opened JsonValues

  datatype TransitionSpec = TransitionSpec(
    kind: string,
    durationMs: Option<int>,
    easing: Option<string>,
    stiffness: Option<real>,
    damping: Option<real>)

  datatype Cause = Cause(source: string, inputId: Option<string>)

  datatype SceneTransition = SceneTransition(kind: string, durationMs: Option<int>)

  datatype Patch = Patch(path: string, value: Json, transition: Option<TransitionSpec>)

  datatype ServerFrame =
    | Snapshot(sceneId: string, sceneVersion: string, state: State, seqno: int, ts: string)
    | Delta(patches: seq<Patch>, seqno: int, ts: string, cause: Option<Cause>)
    | SceneChanged(sceneId: string, sceneVersion: string, seqno: int, ts: string,
                   fromSceneId: Option<string>, show: Option<SceneTransition>)
    | Error(code: string, message: string, recoverable: bool, seqno: int, ts: string,
            retryAfterMs: int, path: Option<string>)
    | ServerPong(nonce: Option<string>)
    | ServerPing(nonce: Option<string>)

  datatype ClientFrame =
    | Subscribe(token: string, scene: string, session: string, since: Option<int>)
    | Input(patches: seq<Patch>, clientMsgId: Option<string>)
    | ClientPing(nonce: Option<string>)
    | ClientPong(nonce: Option<string>)
    | Unsubscribe
}

# Lumencast server kit: a verified model

Lumencast keeps a show's state in *scenes*: maps from dotted leaf paths to JSON values. A scene
sends its subscribers snapshots and deltas over bounded queues (LSDP/1.1), remembers the last 256
emissions so that a client can resume, and hands its live subscribers over when the server switches
the active scene. Bundles are addressed by a hash of a canonical JSON text (LSML 1.0). This project
models that code in Dafny and proves what it promises, and where the promise ends.

## How the model is laid out

- `Store`, `Sequence`, `Replay`, `Scene`, `Server`, `Session`, `Client`: the objects the source
  updates in place, as classes. Each method is proved equal to a function of the old state; those
  functions are in `SceneModel`, `Registry` and beside the smaller classes.
- `History`, `Standing`, `Subscriber`, `Protocol`, `Runs`, `Limits`, `Witnesses`: whole runs.
  `Protocol.Step` is one atomic step (a scene or server method, or the delivery of one frame); a
  world is `Reachable` when some run of enabled steps leads to it from the empty server. The same `SceneModel` and
  `Registry` functions drive these steps. Every client is followed twice: `shadow` folds each frame
  as the conformance runner does, and `state` applies a frame only when the sequence tracker says to
  proceed. Subscribing steps follow the session handler: live clients go to the active scene, test
  clients to a registered one, and a resuming client may claim any `since` and hold any state. A
  client is `honest` if it started from a snapshot or held the scene's state at the seq it claimed,
  with no set since (`Histories.Holds`); what is claimed of a client's state supposes that, what is
  claimed of scenes, rings, membership and the registry supposes nothing about any client.
- `Sending`: what each step puts on which queue, by fields, constants and indices, without the
  functions the steps are built from.
- `LeafPath`, `Role`, `Input`, `InputGate`: paths, templates, write authority and the input gate.
- `Decimal`, `Numbers`, `Strings`, `Sorting`, `Canonical`, `Utf8`, `ContentHash`: canonical text
  and content addresses. Numbers denote reals; an RFC 8259 reader written here gives every
  rendered text its meaning.
- `Codec`, `WireFormat`: frames to and from envelope objects, and the names on the wire.

## What the proofs found

- A `set` spends no sequence number. If a full queue drops its snapshot, the gap check cannot tell:
  `Witnesses.LostSetIsSilent` reaches a client that is level with the server, has raised no alarm and
  holds another state; `Limits.CheckedSetExact` says exactly when. The gap check can be trusted
  between sets (`Runs.NeverSilentlyWrong`) and across sets whose snapshots were queued
  (`Runs.OnlyServedStates`).
- For the same reason a client whose state predates a `set` may be "caught up" by a replay that
  lacks it, even an empty one (`Witnesses.ResumeAfterSetIsStale`). However many sets, emissions and
  switches lie between, the replay is right exactly when no set left a path with another value than
  the last replayed emission of that path, or failing one the client's own state, gives it
  (`Limits.ResumeAcrossSetsExact`, `Histories.LeftDifferentBySet`); an emission that rewrites the
  path repairs it.
- Switching the active scene advances the previous scene's counter without a frame for its
  test-mode subscribers. A set rebases them, an emission sets off the gap check. Over any run, a
  snapshot-started test client that was never dropped on is told of a gap exactly when, since it
  joined, an emission followed such a seq with no set between; otherwise it is behind exactly when
  such a seq was spent and no set followed it (`Runs.TestClientExact`, with a run in
  `Witnesses.StrandedClientIsAlarmed`). Live clients that started level never are
  (`Runs.LiveClientStaysLevel`). A resume across such a hole folds correctly (`Runs.ResumeIsExact`)
  but the tracker reports a gap exactly when an emission follows the hole
  (`Limits.ResumeGapsExactly`, `Witnesses.ResumeIsAlarmed`).
- The snapshot a full queue falls back to meets the same full queue, so it is always lost
  (`Limits.EmitAgreementExact`, `Witnesses.LostEmissionDiverges`).
- `Scene.unsubscribe` takes a subscriber out of every scene exactly when no other scene has it, and
  `Server.detach` exactly when the scene that has it is registered (`Limits.UnsubscribeExact`,
  `Limits.DetachExact`, `Limits.LeavingExact`). Unsubscribing from the scene a session started with
  leaves a subscriber that was moved meanwhile a closed member of its new scene
  (`Limits.LeaveAfterSwitch`, `Witnesses.UnsubscribeLeavesMember`); detaching leaves one in a scene
  that was replaced under its id (`Witnesses.DetachLeavesMember`).
- Writing the digest into a bundle keeps its canonical bytes exactly when the bundle already had a
  `scene_version` key (`ContentHash.StampExact`, `ContentHash.StampingEmptyChangesBytes`).

Where the code and its documentation disagree, the code is modelled:

- A seq of 1 is said to be always accepted (src/lumencast/protocol/sequence.py:42); it is exactly
  by a tracker that has seen nothing (`Sequences.ProceedExact`).
- A resume is said to return a snapshot exactly when it returns no records
  (src/lumencast/server/scene.py:205); it returns neither exactly when `since` is a seq of the scene
  and no emission was made after it (`Limits.NothingSentExact`).
- The snapshot after a switch is said to carry seq 1 (src/lumencast/server/server.py:96-97); it carries
  the next scene's own seq, which is 1 exactly while that scene has neither emitted nor been left by
  a live subscriber in a switch (`Limits.SwitchSnapshotExact`).

## Model

| member | source | states |
|---|---|---|
| Runs.ReplicasAgree | src/lumencast/server/scene.py:137-359 | after every run, for an open honest subscriber never dropped on, folding the frames still on their way into its shadow gives the store of the scene that owns it now, across sets, inputs, resumes and migrations, whatever other clients claimed |
| Runs.DrainedReplica | src/lumencast/conformance/harness.py:353-364 | an honest client never dropped on with nothing left to receive holds the store |
| Runs.NoFalseAlarms | src/lumencast/protocol/sequence.py:68-102 | a live subscriber that started from a snapshot and was never dropped on never sees a gap or drops a frame, and ends at its scene's counter with its state |
| Runs.TestClientStands | src/lumencast/server/scene.py:333-340 | over any run a test-mode subscriber never dropped on, however it started, is level, behind or gapped exactly as what happened to its scene since it joined says |
| Runs.TestClientExact | src/lumencast/server/scene.py:333-340 | started from a snapshot, it is told of a gap iff an emission followed a seq spent on a switch with no set between; otherwise it is behind iff no set followed such a seq |
| Runs.LiveClientStaysLevel | src/lumencast/server/scene.py:326-359 | over any run a live subscriber never dropped on that started from a snapshot or a replay without a hole ends level and unalarmed wherever it was moved |
| Standings.FateExact | src/lumencast/protocol/sequence.py:68-102 | the standing computed event by event is gapped, or behind, iff the history holds an emission after an open hole, or an open hole |
| Standings.ReplayStands | src/lumencast/server/ws_handler.py:122-124 | the replayed emissions bring a tracker at since to the standing the history says, whatever its client holds |
| Standings.ReplayFateEven | src/lumencast/server/ws_handler.py:122-124 | and that is level iff no seq after since was spent on a switch |
| Runs.NeverSilentlyWrong | src/lumencast/protocol/sequence.py:68-102 | whatever full queues swallow, without a set or move since it joined an honest checking client has stopped, not started, or holds exactly the scene's state at its seq |
| Runs.OnlyServedStates | src/lumencast/server/scene.py:276-324 | with sets and moves allowed, unless a snapshot for it was dropped, an honest checking client has stopped, not started, or holds the seq and state some scene had in the world after some prefix of the run; so too after each frame still to come |
| Runs.LastSnapshotHeals | src/lumencast/server/scene.py:276-324 | for any client at all, once the last snapshot meant for it was queued, it ends stopped, behind, or level with exactly the scene's state |
| Runs.SeenWasServed | src/lumencast/server/scene.py:137-359 | every pair recorded as served to a client was the seq and state of some scene after some prefix of the run |
| Runs.ResumeIsExact | src/lumencast/server/scene.py:193-222 | a client holding the state at since is brought to the current store by the replay, holes included, or else by the snapshot |
| Runs.ReconnectIsExact | src/lumencast/server/scene.py:193-222 | without a set or move since it joined, what an honest checking client holds brings it to the current store when it comes back with its tracker as since |
| Runs.ExactResumeWindow | src/lumencast/server/scene.py:193-222 | in a scene never migrated away from, a resume replays iff 1 <= since <= cur and cur - since <= 256, with one record per missed seq in order |
| Runs.Ownership | src/lumencast/server/server.py:51-127 | active is empty iff nothing is registered, and registered otherwise; no subscription is in two scenes; live ones in registered scenes are in the active one |
| Runs.SetActiveConserves | src/lumencast/server/server.py:92-109 | a switch keeps the set of live subscribers and puts them in the new active scene |
| Runs.ReachableIsGood | src/lumencast/server/scene.py:137-359 | the invariant relating scenes, logs, queues and clients holds after every run |
| Protocol.StepGood | src/lumencast/server/scene.py:137-359 | every step of servers, sessions and clients keeps the invariant the run theorems rest on |
| Subscribers.EmitServes | src/lumencast/server/scene.py:295-324 | one emission keeps a subscriber's queue, client and scene in agreement, dropped or not |
| Subscribers.SetServes | src/lumencast/server/scene.py:276-293 | so does a set, recording a dropped snapshot |
| Subscribers.MoveServes | src/lumencast/server/scene.py:344-358 | so does being moved: scene_changed on the old counter, then the next scene's snapshot |
| Subscribers.BumpServes | src/lumencast/server/scene.py:333-340 | so does staying behind while the counter advances |
| Subscribers.StartServes | src/lumencast/server/scene.py:207-222 | a new subscription starts in agreement, by snapshot or, for a client that holds the state it claims, by replay |
| Subscribers.DeliverServes | src/lumencast/server/ws_handler.py:116-124 | delivering the initial frames first and then the queue keeps the agreement |
| Histories.ReplayIsTail | src/lumencast/server/replay_buffer.py:52-62 | a covered resume returns exactly the emissions made after since |
| Histories.ReplayFolds | src/lumencast/server/ws_handler.py:122-124 | folding them from a state no set has replaced since gives the current state, and a checking client is right throughout |
| Histories.ReplayExact | src/lumencast/server/ws_handler.py:122-124 | folding them from any earlier state of the scene gives the current state iff no path was left different from its last replayed value |
| Histories.LeftDifferentBySet | src/lumencast/server/scene.py:137-142 | such a path was changed by a set or reset after its last replayed emission, and no emission wrote it later |
| Replays.RingHoldsLast | src/lumencast/server/replay_buffer.py:44-50 | after any pushes the ring is the last capacity records of the unbounded log, in order |
| Replays.CoveredIsComplete | src/lumencast/server/replay_buffer.py:52-62 | with increasing seqs, coverage is decided by the oldest kept record, and a covered answer is every pushed record after since |
| Limits.SetRepairs | src/lumencast/server/scene.py:276-293 | with room in its queue a set brings any replica, agreeing or not, to the store |
| Limits.SetAgreementExact | src/lumencast/server/scene.py:276-293 | a set reaches an agreeing replica iff its queue has room or the set changes nothing |
| Limits.CheckedSetExact | src/lumencast/server/scene.py:276-293 | after a set a followed checking client ends level and unalarmed either way, and right iff its queue had room or the set changed nothing |
| Limits.EmitAgreementExact | src/lumencast/server/scene.py:307-324 | an emission likewise: the fallback snapshot is lost too |
| Witnesses.LostEmissionDiverges | src/lumencast/server/scene.py:307-324 | a run in which a replica that agrees is sent neither delta nor fallback and agrees no more |
| Witnesses.LostSetIsSilent | src/lumencast/server/scene.py:320-324 | a reachable client is level, unalarmed and wrong after a dropped set |
| Limits.ResumeAcrossSetsExact | src/lumencast/server/scene.py:193-222 | a client holding what the scene was at any point of a run is resumed at any later point; it is sent a replay iff the ring reaches back to its seq, and is then right iff no path was left by a set with another value than its last replayed one |
| Witnesses.ResumeAfterSetIsStale | src/lumencast/server/replay_buffer.py:54-57 | a reachable scene resumes a client from before a set with nothing at all |
| Limits.ResumeGapsExactly | src/lumencast/server/scene.py:340 | in every reachable world a resuming tracker meets a gap iff the replayed seqs do not run on from since, which is iff a seq spent on a switch is followed by an emission |
| Witnesses.ResumeIsAlarmed | src/lumencast/server/scene.py:340 | a reachable scene replays such a hole to a client that holds its state at since |
| Limits.SwitchStrandsTestClients | src/lumencast/server/scene.py:333-340 | in every reachable world a test-mode subscriber never dropped on is in step after a switch from its scene iff it was before and no live one was moved |
| Witnesses.StrandedClientIsAlarmed | src/lumencast/server/scene.py:333-340 | a reachable test-mode client that started from a snapshot and was never dropped on was told of a gap |
| Limits.BehindThenGap | src/lumencast/protocol/sequence.py:86-91 | out of step, the next emission is a gap |
| Limits.UnsubscribeExact | src/lumencast/server/scene.py:224-229 | unsubscribing from a scene leaves the subscriber in no scene iff no other scene has it |
| Limits.LeavingExact | src/lumencast/server/server.py:124-127 | in every reachable world the one scene that has a subscriber decides: unsubscribing from r is complete iff it is r, detaching iff it is registered |
| Limits.LeaveAfterSwitch | src/lumencast/server/scene.py:224-229 | in every reachable world, after a switch moved a live subscriber, unsubscribing it from the scene it began with leaves it a closed member of the new one, detaching leaves it nowhere |
| Witnesses.UnsubscribeLeavesMember | src/lumencast/server/scene.py:224-229 | a run in which that happens |
| Limits.DetachExact | src/lumencast/server/server.py:124-127 | detaching leaves a subscriber in no scene iff the scene that has it is registered |
| Witnesses.DetachLeavesMember | src/lumencast/server/server.py:124-127 | a run in which the scene was replaced under its id and detaching leaves a closed member |
| Limits.NothingSentExact | src/lumencast/server/scene.py:206-214 | in every reachable world a resume is sent neither snapshot nor record iff 1 <= since <= cur and no buffered record is later |
| Limits.SwitchSnapshotExact | src/lumencast/server/server.py:92-109 | the last frame a moved subscriber is sent is the next scene's snapshot, at seq 1 iff only sets and resets ever happened to that scene |
| Sending.EmitSends | src/lumencast/server/scene.py:295-318 | an emission queues exactly one delta (next seq, the entries in order, the cause) to exactly the members, below 256 waiting items; else it marks them stale |
| Sending.EmitScene | src/lumencast/server/scene.py:144-162 | besides, it updates store, seq and the last 256 emissions, and nothing else of this or another scene |
| Sending.InputSends | src/lumencast/server/scene.py:231-264 | an allowed input queues one delta with its cause: each path once, in order of first mention, with its last value |
| Sending.SetSends | src/lumencast/server/scene.py:276-293 | a set queues the whole new state under the scene's id, version and unchanged seq to exactly the members |
| Sending.SwitchSends | src/lumencast/server/scene.py:344-358 | in every reachable world a switch queues to each moved subscriber a scene_changed with the next scene's id and version on the old counter plus one, then the next scene's snapshot, each if there is room; nobody else gets anything |
| Sending.SwitchScenes | src/lumencast/server/scene.py:326-359 | in every reachable world a switch moves exactly the live members, counts the old scene up iff there are any, and changes nothing else of any scene |
| Sending.AttachSends | src/lumencast/server/scene.py:193-222 | a new subscriber is first sent the buffered emissions after since, seqs, patches and causes as they were, iff since is a seq the ring reaches back to; else the scene's id, version, state and seq |
| Sending.NewSceneExact | src/lumencast/server/server.py:51-80 | a new scene is empty at seq 1 with nothing buffered; its id is taken over, and it is active iff nothing was |
| Sending.ResetExact | src/lumencast/server/scene.py:164-171 | a reset empties state and members, closes their queues, and keeps seq and ring |
| Sending.DeliverExact | src/lumencast/server/ws_handler.py:116-124 | the first initial frame, or else the first queued one, reaches the client and nobody else is affected |
| Sending.NamesKept | src/lumencast/server/scene.py:137-359 | over any run a scene keeps its id, version and declarations |
| Sending.LeaveSends | src/lumencast/server/scene.py:48-62 | leaving closes once: the sentinel last, after all that waited, or all but the oldest of 256 |
| Sending.NothingRefused | src/lumencast/server/server.py:131-154 | in every reachable world live subscribers are taken while a scene is active, test ones for any registered scene, with any since; writes, switches and departures are never refused |
| Sending.InputNeverRefused | src/lumencast/server/scene.py:231-264 | nor is any input kept from the gate |
| InputGate.ApplyInputIsAtomic | src/lumencast/server/scene.py:231-264 | a rejected frame changes nothing; an accepted one advances seq by one, pushes one record and applies the raw patches left to right |
| InputGate.GateExact | src/lumencast/server/scene.py:231-274 | a frame is accepted iff it is not empty and each patch is allowed, written out per role on the first segment, the patterns, declaredness and the value |
| InputGate.RefusalExact | src/lumencast/server/scene.py:252-261 | authority is refused before declaredness, and that before the value |
| Inputs.ConstraintExact | src/lumencast/server/input.py:40-78 | which JSON values each declared kind lets through |
| Inputs.ViolationExact | src/lumencast/server/input.py:40-78 | what each refusal says is so |
| InputGate.InputsKeepDeclarations | src/lumencast/server/scene.py:252-274 | any run of inputs by anyone keeps declared paths within their specs and never touches a path outside the two writable namespaces |
| InputGate.OnlyDeclaredInputs | src/lumencast/server/scene.py:266-274 | with declarations in force, undeclared paths under __inputs never change |
| InputGate.InputIsStep | src/lumencast/server/scene.py:231-264 | the step of the protocol does to its scene what the two theorems above speak of |
| InputGate.RunGuarded | src/lumencast/server/scene.py:252-274 | over any run of the whole server without its own writes to a scene, declared paths keep their specs and nothing out of reach of inputs changes |
| SceneModel.FirstRejection | src/lumencast/server/scene.py:252-261 | the verdict is that of the first failing patch |
| SceneModel.ClosePipeExact | src/lumencast/server/scene.py:48-62 | a closed queue ends in the sentinel and keeps what waited, so a writer started on it ends |
| Stores.CollapseApplies | src/lumencast/server/scene.py:262 | collapsing repeated paths into a dict applies like the raw list |
| Stores.CollapseExact | src/lumencast/server/scene.py:262 | the dict holds each path once, in order of first mention, with the value of its last mention |
| Stores.ApplyMentioned | src/lumencast/server/store.py:30-45 | a mentioned path has the value of its last entry |
| Stores.Store.Snapshot | src/lumencast/server/store.py:25-28 | a copy of the state |
| Stores.Store.ApplyDict | src/lumencast/server/store.py:30-45 | entries applied left to right and returned in order; empty is refused |
| Stores.Store.Reset | src/lumencast/server/store.py:47-50 | the state is emptied |
| Sequences.SequenceTracker.NextServer | src/lumencast/protocol/sequence.py:52-56 | the next seq is one more than the last |
| Sequences.SequenceTracker.ObserveServer | src/lumencast/protocol/sequence.py:68-91 | proceed, drop, gap or bad start, and only proceeding moves the tracker |
| Sequences.ProceedExact | src/lumencast/protocol/sequence.py:68-91 | exactly the next seq proceeds, or any first one from 1 on; seq 1 only as the first |
| Sequences.ObserveExact | src/lumencast/protocol/sequence.py:68-102 | which seqs proceed, are dropped as replays, are gaps or are bad starts |
| Sequences.SequenceTracker.ObserveSnapshot | src/lumencast/protocol/sequence.py:93-102 | a positive snapshot seq rebases the tracker |
| Replays.ReplayBuffer.Push | src/lumencast/server/replay_buffer.py:48-50 | appends, dropping the oldest when full |
| Replays.ReplayBuffer.RecordsSince | src/lumencast/server/replay_buffer.py:52-62 | the slice the log theorems are about |
| Scenes.Subscription.PutNowait | src/lumencast/server/scene.py:43 | appends unless 256 items wait |
| Scenes.Subscription.Close | src/lumencast/server/scene.py:48-62 | marks closed once and queues the sentinel, dropping the oldest item of a full queue |
| Scenes.Scene.constructor | src/lumencast/server/scene.py:73-98 | an empty scene at seq 1 |
| Scenes.Scene.SendOrDrop | src/lumencast/server/scene.py:320-324 | queued, or dropped and marked stale |
| Scenes.Scene.SendDelta | src/lumencast/server/scene.py:295-318 | the delta, or the fallback snapshot through the same queue |
| Scenes.Scene.RefreshAll | src/lumencast/server/scene.py:276-293 | every subscriber is sent the snapshot at the current seq |
| Scenes.Scene.Set | src/lumencast/server/scene.py:137-142 | store and every queue as SceneModel says; empty is refused without effect |
| Scenes.Scene.Emit | src/lumencast/server/scene.py:144-162 | store, seq, ring and every queue as SceneModel says |
| Scenes.Scene.Reset | src/lumencast/server/scene.py:164-171 | members closed and gone, store emptied, seq and ring kept |
| Scenes.Scene.Subscribe | src/lumencast/server/scene.py:173-191 | a fresh member and the snapshot at the current seq |
| Scenes.Scene.SubscribeWithResume | src/lumencast/server/scene.py:193-222 | a fresh member and the opening the resume theorems are about |
| Scenes.Scene.Unsubscribe | src/lumencast/server/scene.py:224-229 | removed from this scene and closed |
| Scenes.Scene.ApplyInput | src/lumencast/server/scene.py:231-264 | the gate's verdict; all or nothing on store, seq, ring and every queue |
| Scenes.Scene.MigrateSubscribersFrom | src/lumencast/server/scene.py:326-359 | exactly the live members move; both scenes and each queue as SceneModel says |
| Servers.Server.NewScene | src/lumencast/server/server.py:51-80 | the id is taken over; the first scene becomes active |
| Servers.Server.SetActive | src/lumencast/server/server.py:92-109 | active changes iff the id is registered, and the live members of the previous scene move |
| Servers.Server.Detach | src/lumencast/server/server.py:124-127 | removed from every registered scene and closed |
| Servers.Server.Reset | src/lumencast/server/server.py:111-122 | nothing registered, every dropped scene empty, every subscriber of one closed |
| Servers.Server.ResolveScene | src/lumencast/server/server.py:131-154 | which scene, or which refusal in which order |
| Sessions.Session.constructor | src/lumencast/server/ws_handler.py:111-124 | subscribe, then the snapshot, or one delta per replayed record, index by index, before any queued frame |
| Sessions.Session.SendReplay | src/lumencast/server/ws_handler.py:122-124 | one delta per record, in order, with its seq, patches and cause |
| Sessions.Session.Writer | src/lumencast/server/ws_handler.py:205-219 | every queued frame before the first sentinel is sent, index by index, and nothing else; it ends cancelled iff there is one |
| Sessions.SendableExact | src/lumencast/server/ws_handler.py:205-219 | what is sendable is exactly the frames before the first sentinel |
| Sessions.SentIsFolded | src/lumencast/server/ws_handler.py:205-219 | absorbing what is sent folds exactly the pending items |
| Clients.Shadow.AbsorbServerFrame | src/lumencast/conformance/harness.py:353-364 | snapshots replace, deltas patch left to right |
| LeafPath.HasPrefixIsSegmentPrefix | src/lumencast/protocol/leaf_path.py:71-77 | the character test is the prefix relation on dot-split segments |
| LeafPath.HasPrefixTransitive | src/lumencast/protocol/leaf_path.py:71-77 | it is transitive |
| LeafPath.WirePathSegments | src/lumencast/protocol/leaf_path.py:22-52 | a wire path is accepted iff every segment is non-empty and of word characters |
| LeafPath.ValidatePathExact | src/lumencast/protocol/leaf_path.py:22-52 | a path is accepted iff every segment is a word of letters, digits and underscores, or in a template a name in braces |
| LeafPath.PathErrorExact | src/lumencast/protocol/leaf_path.py:22-52 | the error is about the first bad segment and names what is wrong with it |
| LeafPath.Substitute | src/lumencast/protocol/leaf_path.py:80-109 | the scanning loop computes Substituted, error cases included |
| LeafPath.ScanExact | src/lumencast/protocol/leaf_path.py:80-109 | up to the next placeholder: copied, then unterminated, unknown, or replaced and continued |
| LeafPath.SubstituteExact | src/lumencast/protocol/leaf_path.py:80-109 | an accepted template is substituted iff all names are bound and the segment-wise expansion is a wire path, which is then the result |
| LeafPath.SubstituteSucceeds | src/lumencast/protocol/leaf_path.py:80-109 | with every name bound to a wire path it never fails |
| Roles.AuthorityClosedUnderDescendants | src/lumencast/server/role.py:11-50 | whoever may write a path may write every path below it |
| Roles.CanWriteExact | src/lumencast/server/role.py:11-31 | per role, on the first segment: operators write __inputs, tests __test, services __inputs within their patterns, viewers and anonymous nothing |
| Roles.PatternExact | src/lumencast/server/role.py:34-50 | a pattern covers a path iff its segments, a final star aside, begin the path's |
| Roles.AuthorityStaysInNamespaces | src/lumencast/server/role.py:11-31 | nobody may write outside __inputs and __test, and tests only in the second, all others only in the first |
| Numbers.ReadNumeralText | src/lumencast/lsml/hash.py:64-77 | the RFC 8259 section 6 reader takes every numeral and finds its end |
| Numbers.ReadBack | src/lumencast/lsml/hash.py:64-77 | and accepts nothing else: what it took is the spelling of a well-formed numeral |
| Numbers.PlaceKeepsValue | src/lumencast/lsml/hash.py:64-77 | each of the four branches prints a valid number of value 0.digits x 10^point |
| Numbers.PlaceInjective | src/lumencast/lsml/hash.py:64-77 | distinct normal forms print differently |
| Numbers.ShortestDigitsNormal | src/lumencast/lsml/hash.py:80-102 | the digits of a positive repr have no outer zeros and scale back to its value |
| Decimals.NormalFormUnique | src/lumencast/lsml/hash.py:80-102 | a positive number has one normal form |
| Numbers.FormatNumberReads | src/lumencast/lsml/hash.py:45-77 | the rendering reads back to the signed value |
| Numbers.FormatNumberExact | src/lumencast/lsml/hash.py:45-77 | two floats render alike iff they are equal |
| Numbers.EcmaSpelling | src/lumencast/lsml/hash.py:64-77 | the ECMA-262 spelling: exponential iff the value is at least 10^21 or below 10^-6, then one non-zero leading digit, a sign and no leading zero in the exponent; no trailing zero after a dot; a zero before the dot iff below 1 |
| Numbers.ExponentExact | src/lumencast/lsml/hash.py:41-42 | an e occurs iff the value is at least 10^21 or below 10^-6 |
| JsonStrings.EscapeAllReads | src/lumencast/lsml/hash.py:113-116 | an escaped string reads back whatever follows its quote |
| JsonStrings.EscapeExact | src/lumencast/lsml/hash.py:113-116 | the escape of every code point as in RFC 8259 section 7 |
| JsonStrings.EscapeAllSplit | src/lumencast/lsml/hash.py:113-116 | a string is escaped character by character |
| KeySorting.SortAscends | src/lumencast/lsml/hash.py:117-127 | keys come out ascending by code points at the first difference, all of them with their texts |
| Canonical.TextIsCanonical | src/lumencast/lsml/hash.py:105-128 | what is printed is the canonical form at every depth: literals, numbers, strings, items in order, members ascending by key |
| Canonical.CommasJoin | src/lumencast/lsml/hash.py:117-127 | single commas between the parts |
| Canonical.MemberTextExact | src/lumencast/lsml/hash.py:123 | a member is its quoted key, a colon and its text |
| Canonical.TextReads | src/lumencast/lsml/hash.py:105-128 | the canonical text followed by any delimiter reads back to its meaning |
| Canonical.SameMeaningSameText | src/lumencast/lsml/hash.py:105-128 | documents of one meaning have one text |
| Canonical.CanonicalExact | src/lumencast/lsml/hash.py:105-128 | the text is the canonical form, and texts are equal iff the documents are up to key order and number spelling |
| Utf8.EncodeInjective | src/lumencast/lsml/hash.py:131-133 | different texts have different bytes |
| Utf8.EncodeCharExact | src/lumencast/lsml/hash.py:131-133 | the RFC 3629 section 3 table: lengths, byte ranges and bits |
| Utf8.EncodeSplit | src/lumencast/lsml/hash.py:131-133 | a text is encoded character by character |
| ContentHash.BytesExact | src/lumencast/lsml/hash.py:131-133 | equal canonical bytes iff equal meaning, the version aside |
| ContentHash.AddressText | src/lumencast/lsml/hash.py:136-148 | the address is sha256: and the digest of the canonical bytes, or an error iff there is no canonical text |
| ContentHash.ReplacedExact | src/lumencast/lsml/hash.py:151-158 | only the value of a top-level scene_version is replaced |
| ContentHash.SentinelText | src/lumencast/lsml/hash.py:38 | by sha256: and 64 zeros |
| ContentHash.HashIgnoresKeyOrder | src/lumencast/lsml/hash.py:117-127 | reordering keys at any depth keeps the address |
| ContentHash.HashIgnoresVersion | src/lumencast/lsml/hash.py:151-158 | the value of a top-level scene_version does not matter |
| ContentHash.StampExact | src/lumencast/cli/build.py:35-36 | writing the digest into the bundle keeps its canonical bytes iff the key was there |
| ContentHash.StampingEmptyChangesBytes | src/lumencast/cli/build.py:35-36 | stamping the empty bundle changes its bytes, whatever the digest |
| Codec.ServerRoundTrip | src/lumencast/protocol/codec.py:98-149 | a server frame decodes to itself iff its transitions are valid and from_scene_id is not empty; re-encoding gives the same object |
| Codec.ClientRoundTrip | src/lumencast/protocol/codec.py:66-95 | a client frame decodes to itself unless a transition is invalid, which is refused |
| WireFormat.SnapshotWire | src/lumencast/protocol/codec.py:242-253 | exactly which keys a snapshot has on the wire and what is under them |
| WireFormat.DeltaWire | src/lumencast/protocol/codec.py:254-265 | the same for a delta |
| WireFormat.SceneChangedWire | src/lumencast/protocol/codec.py:266-280 | the same for scene_changed |
| WireFormat.ErrorWire | src/lumencast/protocol/codec.py:281-296 | the same for an error |
| WireFormat.SubscribeWire | src/lumencast/protocol/codec.py:309-317 | the same for a subscribe |
| WireFormat.InputWire | src/lumencast/protocol/codec.py:318-326 | the same for an input |
| WireFormat.BeatsWire | src/lumencast/protocol/codec.py:297-308 | the same for ping, pong and unsubscribe |
| WireFormat.PatchWire | src/lumencast/protocol/codec.py:330-334 | the same for each patch, in order |
| WireFormat.TransitionWire | src/lumencast/protocol/codec.py:337-347 | the same for a transition |
| WireFormat.CauseWire | src/lumencast/protocol/codec.py:350-354 | the same for a cause |
| WireFormat.ShowWire | src/lumencast/protocol/codec.py:357-361 | the same for a scene transition |
| WireFormat.ServerEnvelopeExact | src/lumencast/protocol/codec.py:98-163 | refused for its version iff v is not 1, then for a missing type, then iff the type is unknown, and otherwise only for a field |
| WireFormat.ClientEnvelopeExact | src/lumencast/protocol/codec.py:66-95 | the same for client envelopes |
| WireFormat.DecodedType | src/lumencast/protocol/codec.py:66-149 | what is decoded is of the type named |
| WireFormat.GoodTransitionExact | src/lumencast/protocol/codec.py:188-209 | which kinds and easings are let through |
| WireFormat.DefaultsExact | src/lumencast/protocol/codec.py:66-149 | what fields that are left out decode to |
| WireFormat.IntegerExact | src/lumencast/protocol/codec.py:110-149 | numbers are cut towards zero, booleans are 0 and 1 |
| WireFormat.PatchDecoded | src/lumencast/protocol/codec.py:166-185 | what a patch item must be, and what becomes of its fields |
| Codec.PatchesBack | src/lumencast/protocol/codec.py:166-237 | so do patch lists, in order |
| Codec.ParsePatchList | src/lumencast/protocol/codec.py:166-185 | the parsing loop computes ParsePatches, stopping at the first error |

## Left out

- Interleaving inside a method: nothing there suspends but uncontended locks, so each method is one step.
- The deferred reset of a replaced scene: a separate `ResetScene` step, enabled once the scene is unregistered.
- Scenes with the empty id: the server takes one, but an empty active id means that none is active; runs use other ids, the class `Server` any.
- `declare_inputs` and `set_version` during a run: a scene's declarations and version are fixed at creation.
- WebSocket and HTTP plumbing, subprotocol choice, authentication, timeouts, heartbeats and error frames: no state to preserve.
- The reader half of a session: its inputs are `ApplyInput` steps, its end is a `Detach` step.
- SHA-256: any function of the bytes. How repr picks digits and float64 rounding: the model starts from repr text.
- Dict keys that are not strings, and lone surrogates (Dafny characters exclude them): not documents here.
- JSON text of wire frames: library code; the codec works on envelope objects. Fields of a wrong type that the source passes through or fails on with an error of its own are `IllTyped`.
- `str.isalpha` and `str.isdigit`: any predicates that are false on dot and braces.
- `parse_inline_specs`, `is_reserved`, `namespace`, adapters, the command line apart from two lines of `build`, the YAML scenario player: only easy members.
- Subscribers.SetServes: after a dropped set snapshot nothing is claimed of that client's checked state until a later one is queued, because it is then wrong (`Witnesses.LostSetIsSilent`).

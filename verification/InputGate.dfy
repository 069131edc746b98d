/** What the input gate of a scene guarantees (src/lumencast/server/scene.py, apply_input). */
module InputGate {
  import opened Wrappers
  import opened JsonValues
  import opened Frames
  import opened Stores
  import opened Replays
  import opened Inputs
  import opened Roles
  import opened LeafPath
  import opened Registries
  import opened SceneModel
  import opened Histories
  import opened Protocol
  import opened Runs

  /** What a patch of an input must satisfy, on the first segment of its path. A test identity
      writes under __test; an operator, or a service one of whose patterns covers the path, under
      __inputs and there, once anything is declared, only what is. Where the path is declared
      the value conforms. */
  predicate Allowed(inputs: map<string, InputSpec>, identity: Identity, p: Patch) {
    var namespace := Split(p.path)[0];
    && (identity.role == Some(Test) ==> namespace == "__test")
    && (identity.role != Some(Test) ==>
          && namespace == "__inputs" && (inputs == map[] || p.path in inputs)
          && (identity.role == Some(Operator)
              || (identity.role == Some(Service)
                  && (identity.paths == []
                      || exists q :: q in identity.paths && q != "" && Root(Split(q)) <= Split(p.path)))))
    && (p.path in inputs ==> CheckConstraint(inputs[p.path], p.value).None?)
  }

  lemma {:induction false} CheckPatchExact(inputs: map<string, InputSpec>, identity: Identity, p: Patch)
    ensures CheckPatch(inputs, identity, p).None? <==> Allowed(inputs, identity, p)
  {
    CanWriteExact(identity, p.path);
    NamespaceFirst(p.path, "__inputs");
    NamespaceFirst(p.path, "__test");
  }

  /** The reason a patch is refused: authority comes before declaredness, and that before the
      value. */
  lemma {:induction false} RefusalExact(inputs: map<string, InputSpec>, identity: Identity, p: Patch)
    requires CheckPatch(inputs, identity, p).Some?
    ensures var r := CheckPatch(inputs, identity, p).value;
      && (r == WriteForbidden(p.path) <==> !identity.CanWrite(p.path))
      && (r == UnknownPath(p.path) <==>
            identity.CanWrite(p.path) && Split(p.path)[0] == "__inputs" && inputs != map[] && p.path !in inputs)
      && (r.InvalidValue? ==>
            && r.path == p.path && p.path in inputs
            && CheckConstraint(inputs[p.path], p.value) == Some(r.violation))
      && !r.EmptyPatches?
  {
    CanWriteExact(identity, p.path);
    NamespaceFirst(p.path, "__inputs");
    NamespaceFirst(p.path, "__test");
  }

  predicate AllAllowed(inputs: map<string, InputSpec>, identity: Identity, patches: seq<Patch>) {
    patches != [] && forall p :: p in patches ==> Allowed(inputs, identity, p)
  }

  /** An input frame is applied as a whole, when every patch is allowed, or not at all. */
  lemma {:induction false} ApplyInputIsAtomic(w: World, r: nat, identity: Identity, patches: seq<Patch>,
                                              cause: Option<Cause>)
    requires Shaped(w) && r < |w.scenes|
    ensures var w' := Next(w, ApplyInput(r, identity, patches, cause));
      var sc := w.scenes[r];
      var accepted := AllAllowed(sc.inputs, identity, patches);
      && Shaped(w') && r < |w'.scenes|
      && (!accepted ==> w' == w)
      && (accepted ==>
            && w'.scenes[r].seqno == sc.seqno + 1
            && w'.scenes[r].store == ApplyPatches(sc.store, patches)
            && var record := ReplayRecord(sc.seqno + 1, Wire(Collapse(patches)), cause);
               && w'.histories[r] == w.histories[r] + [Emitted(record)]
               && w'.scenes[r].replay == RingPush(sc.replay, 256, record))
  {
    GateExact(w.scenes[r].inputs, identity, patches);
    if Gate(w.scenes[r].inputs, identity, patches).None? { InputEmits(w, r, patches, cause); }
  }

  lemma {:induction false} InputEmits(w: World, r: nat, patches: seq<Patch>, cause: Option<Cause>)
    requires Shaped(w) && r < |w.scenes| && patches != []
    ensures var sc, w' := w.scenes[r], EmitIn(w, r, Collapse(patches), cause);
      var record := ReplayRecord(sc.seqno + 1, Wire(Collapse(patches)), cause);
      && Shaped(w') && r < |w'.scenes|
      && w'.scenes[r].seqno == sc.seqno + 1
      && w'.scenes[r].store == ApplyPatches(sc.store, patches)
      && w'.histories[r] == w.histories[r] + [Emitted(record)]
      && w'.scenes[r].replay == RingPush(sc.replay, DEFAULT_REPLAY_BUFFER_SIZE, record)
  {
    CollapseApplies(w.scenes[r].store, patches);
    EmitShaped(w, r, Collapse(patches), cause);
  }

  lemma {:induction false} GateExact(inputs: map<string, InputSpec>, identity: Identity, patches: seq<Patch>)
    ensures Gate(inputs, identity, patches).None? <==> AllAllowed(inputs, identity, patches)
    ensures Gate(inputs, identity, []) == Some(EmptyPatches)
  {
    forall p ensures CheckPatch(inputs, identity, p).None? <==> Allowed(inputs, identity, p) {
      CheckPatchExact(inputs, identity, p);
    }
  }

  // --------------------------------------------------- runs of inputs on one scene

  datatype InputFrame = InputFrame(identity: Identity, patches: seq<Patch>, cause: Option<Cause>)

  function AfterInput<S>(sc: SceneState<S>, f: InputFrame): SceneState<S> {
    if Gate(sc.inputs, f.identity, f.patches).Some? then sc
    else AfterEmit(sc, Collapse(f.patches), f.cause)
  }

  function AfterInputs<S>(sc: SceneState<S>, frames: seq<InputFrame>): SceneState<S>
    decreases |frames|
  {
    if frames == [] then sc else AfterInputs(AfterInput(sc, frames[0]), frames[1..])
  }

  /** Every declared path that is present satisfies its declaration. */
  ghost predicate Conforms(inputs: map<string, InputSpec>, store: State) {
    forall path :: path in inputs && path in store ==> CheckConstraint(inputs[path], store[path]).None?
  }

  predicate Writable(path: string) {
    Split(path)[0] in {"__inputs", "__test"}
  }

  lemma {:induction false} OneInput<S>(sc: SceneState<S>, f: InputFrame)
    requires Conforms(sc.inputs, sc.store)
    ensures var sc' := AfterInput(sc, f);
      && sc'.inputs == sc.inputs
      && Conforms(sc'.inputs, sc'.store)
      && forall path :: !Writable(path) ==>
           (path in sc'.store <==> path in sc.store) && (path in sc.store ==> sc'.store[path] == sc.store[path])
  {
    if Gate(sc.inputs, f.identity, f.patches).Some? { return; }
    var d, sc' := Collapse(f.patches), AfterInput(sc, f);
    forall path | path in sc.inputs && path in sc'.store
      ensures CheckConstraint(sc.inputs[path], sc'.store[path]).None?
    {
      if Mentions(d, path) {
        var k := ApplyMentioned(sc.store, d, path);
        var i := CollapseEntry(f.patches, k);
        assert CheckPatch(sc.inputs, f.identity, f.patches[i]).None?;
      } else {
        ApplyElsewhere(sc.store, d, path);
      }
    }
    forall path | !Writable(path)
      ensures path in sc'.store <==> path in sc.store
      ensures path in sc.store ==> sc'.store[path] == sc.store[path]
    {
      if Mentions(d, path) {
        var k := ApplyMentioned(sc.store, d, path);
        var i := CollapseEntry(f.patches, k);
        assert CheckPatch(sc.inputs, f.identity, f.patches[i]).None?;
        AuthorityStaysInNamespaces(f.identity, path);
      } else {
        ApplyElsewhere(sc.store, d, path);
      }
    }
  }

  /** Whoever sends them, input frames keep every declared path within its declaration and
      leave everything outside the two writable namespaces as it was. */
  lemma {:induction false} InputsKeepDeclarations<S>(sc: SceneState<S>, frames: seq<InputFrame>)
    requires Conforms(sc.inputs, sc.store)
    ensures var sc' := AfterInputs(sc, frames);
      && Conforms(sc.inputs, sc'.store)
      && forall path :: !Writable(path) ==>
           (path in sc'.store <==> path in sc.store) && (path in sc.store ==> sc'.store[path] == sc.store[path])
    decreases |frames|
  {
    if frames != [] {
      OneInput(sc, frames[0]);
      InputsKeepDeclarations(AfterInput(sc, frames[0]), frames[1..]);
    }
  }

  /** With a declaration in force, an input under __inputs can only touch declared paths. */
  lemma {:induction false} OnlyDeclaredInputs<S>(sc: SceneState<S>, frames: seq<InputFrame>, path: string)
    requires sc.inputs != map[] && path !in sc.inputs && HasPrefix(path, "__inputs")
    ensures var sc' := AfterInputs(sc, frames);
      (path in sc'.store <==> path in sc.store) && (path in sc.store ==> sc'.store[path] == sc.store[path])
    decreases |frames|
  {
    if frames != [] {
      var f := frames[0];
      if Gate(sc.inputs, f.identity, f.patches).None? {
        var d := Collapse(f.patches);
        forall i | 0 <= i < |f.patches| ensures f.patches[i].path != path {
          assert CheckPatch(sc.inputs, f.identity, f.patches[i]).None?;
        }
        CollapseApplies(sc.store, f.patches);
        ApplyElsewhere(sc.store, d, path);
      }
      OnlyDeclaredInputs(AfterInput(sc, f), frames[1..], path);
    }
  }

  // ------------------------------------------------------------- the same, over runs

  /** An input frame is a step of the protocol, and does to its scene what AfterInput says. */
  lemma {:induction false} InputIsStep(w: World, r: nat, f: InputFrame)
    requires Shaped(w) && r < |w.scenes|
    ensures var step := ApplyInput(r, f.identity, f.patches, f.cause);
      Enabled(w, step) && r < |Next(w, step).scenes| && Next(w, step).scenes[r] == AfterInput(w.scenes[r], f)
  {
    CollapseApplies(w.scenes[r].store, f.patches);
    EmitShaped(w, r, Collapse(f.patches), f.cause);
  }

  /** The server's own code writes to scene r, by a set, an emission or a reset. */
  predicate ServerWrites(step: Step, r: nat) {
    || (step.SetLeaves? && step.r == r)
    || (step.EmitLeaves? && step.r == r)
    || (step.ResetScene? && step.r == r)
  }

  /** Scene r stays as it was but for its counter and its members. */
  predicate SameStore(w: World, w': World, r: nat) {
    && r < |w.scenes| && r < |w'.scenes|
    && w'.scenes[r].store == w.scenes[r].store && w'.scenes[r].inputs == w.scenes[r].inputs
  }

  lemma {:induction false} SetActiveStore(w: World, id: string, r: nat)
    requires Shaped(w) && r < |w.scenes|
    ensures SameStore(w, SetActiveTo(w, id), r)
  {
    if SwitchedFrom(RegistryOf(w), id).Some? {
      MigrateAt(w.(active := id), ActiveScene(w).value, w.registry[id], r);
    }
  }

  lemma {:induction false} CloseStore(w: World, which: set<nat>, s: nat, r: nat)
    requires Shaped(w) && r < |w.scenes| && s in w.pipes
    ensures SameStore(w, CloseIn(w, which, s), r)
  {
  }

  lemma {:induction false} OtherStore(w: World, step: Step, q: nat, r: nat)
    requires Shaped(w) && q < |w.scenes| && r < |w.scenes| && q != r && Enabled(w, step)
    requires step.SetLeaves? || step.EmitLeaves? || step.ApplyInput? || step.ResetScene?
    requires step.r == q
    ensures SameStore(w, Next(w, step), r)
  {
  }

  lemma {:induction false} StepStore(w: World, step: Step, r: nat)
    requires Shaped(w) && Enabled(w, step) && r < |w.scenes|
    requires !ServerWrites(step, r) && !(step.ApplyInput? && step.r == r)
    ensures SameStore(w, Next(w, step), r)
  {
    match step
    case SetActive(id) => SetActiveStore(w, id, r);
    case SetLeaves(q, entries) => OtherStore(w, step, q, r);
    case EmitLeaves(q, entries, cause) => OtherStore(w, step, q, r);
    case ApplyInput(q, _, _, _) => OtherStore(w, step, q, r);
    case ResetScene(q) => OtherStore(w, step, q, r);
    case Detach(s) => CloseStore(w, w.registry.Values, s, r);
    case Unsubscribe(q, s) => CloseStore(w, {q}, s, r);
    case _ =>
  }

  /** Outside the reach of inputs: not in the two writable namespaces, or under __inputs and
      not declared while something is. */
  predicate OutOfReach<S>(sc: SceneState<S>, path: string) {
    !Writable(path) || (sc.inputs != map[] && path !in sc.inputs && HasPrefix(path, "__inputs"))
  }

  /** The declarations hold and nothing out of reach has changed. */
  ghost predicate Guarded<S>(sc: SceneState<S>, sc': SceneState<S>) {
    && sc'.inputs == sc.inputs && Conforms(sc.inputs, sc'.store)
    && forall path :: OutOfReach(sc, path) ==> Value(sc'.store, path) == Value(sc.store, path)
  }

  lemma {:induction false} InputGuarded<S>(sc: SceneState<S>, f: InputFrame)
    requires Conforms(sc.inputs, sc.store)
    ensures Guarded(sc, AfterInput(sc, f))
  {
    OneInput(sc, f);
    forall path | OutOfReach(sc, path)
      ensures Value(AfterInput(sc, f).store, path) == Value(sc.store, path)
    {
      if Writable(path) {
        OnlyDeclaredInputs(sc, [f], path);
        assert [f][1..] == [];
        assert AfterInputs(sc, [f]) == AfterInputs(AfterInput(sc, f), []);
      }
    }
  }

  lemma {:induction false} StepGuarded(w: World, step: Step, r: nat)
    requires Shaped(w) && Enabled(w, step) && r < |w.scenes| && !ServerWrites(step, r)
    requires Conforms(w.scenes[r].inputs, w.scenes[r].store)
    ensures r < |Next(w, step).scenes| && Guarded(w.scenes[r], Next(w, step).scenes[r])
  {
    if step.ApplyInput? && step.r == r {
      var f := InputFrame(step.identity, step.patches, step.cause);
      InputIsStep(w, r, f);
      InputGuarded(w.scenes[r], f);
    } else {
      StepStore(w, step, r);
    }
  }

  lemma {:induction false} GuardedTrans<S>(a: SceneState<S>, b: SceneState<S>, c: SceneState<S>)
    requires Guarded(a, b) && Guarded(b, c)
    ensures Guarded(a, c)
  {
    forall path | OutOfReach(a, path) ensures Value(c.store, path) == Value(a.store, path) {
      assert OutOfReach(b, path);
    }
  }

  /** Over any run in which the server itself does not write to scene r, whatever identities
      sent whatever inputs, declared paths stay within their declarations and nothing out of
      reach of inputs changes. */
  lemma {:induction false} RunGuarded(w: World, steps: seq<Step>, w': World, r: nat)
    requires Good(w) && Leads(w, steps, w') && r < |w.scenes|
    requires forall step :: step in steps ==> !ServerWrites(step, r)
    requires Conforms(w.scenes[r].inputs, w.scenes[r].store)
    ensures r < |w'.scenes| && Guarded(w.scenes[r], w'.scenes[r])
    decreases |steps|
  {
    if steps != [] {
      var first, rest := steps[0], steps[1..];
      StepGuarded(w, first, r);
      StepGood(w, first);
      RunGuarded(Next(w, first), rest, w', r);
      GuardedTrans(w.scenes[r], Next(w, first).scenes[r], w'.scenes[r]);
    }
  }
}

/** The server's registry of scenes (src/lumencast/server/server.py). */
module Servers {
  import opened Wrappers
  import opened Frames
  import opened Stores
  import opened Inputs
  import opened Roles
  import opened Registries
  import opened SceneModel
  import opened Scenes

  datatype RouteError = NoActiveScene | RoleDenied | SessionRequired | SceneNotRegistered

  class Server {
    var scenes: map<string, Scene>
    var active: string

    constructor ()
      ensures View() == Emptied()
    {
      scenes, active := map[], "";
    }

    ghost function View(): Registry<Scene>
      reads this
    {
      Registry(scenes, active)
    }

    /** Registered scenes are filed under their ids and share no parts. */
    ghost predicate Valid()
      reads this, scenes.Values
    {
      && (forall id :: id in scenes ==> scenes[id].id == id)
      && (forall a, b :: a in scenes && b in scenes && a != b ==>
            && scenes[a].store != scenes[b].store
            && scenes[a].seqs != scenes[b].seqs
            && scenes[a].replay != scenes[b].replay)
    }

    /** Everything the registered scenes own, subscriptions included. */
    ghost function Footprint(): set<object>
      reads this, scenes.Values
    {
      (set id | id in scenes :: scenes[id] as object)
      + (set id | id in scenes :: scenes[id].store as object)
      + (set id, s | id in scenes && s in scenes[id].subscribers :: s as object)
    }

    /** Reusing an id replaces the scene; the first scene becomes the active one. The previous
        scene is returned: its reset runs later, as a task of its own. */
    method NewScene(id: string, version: string, inputs: map<string, InputSpec>)
      returns (scene: Scene, prev: Option<Scene>)
      requires Valid()
      modifies this
      ensures Valid() && fresh(scene) && scene.Valid()
      ensures scene.View() == NewSceneState(id, version, inputs)
      ensures View() == TakeOver(old(View()), id, scene)
      ensures prev == if id in old(scenes) then Some(old(scenes)[id]) else None
    {
      scene := new Scene(id, version, inputs);
      prev := if id in scenes then Some(scenes[id]) else None;
      scenes := scenes[id := scene];
      if active == "" { active := id; }
    }

    method ActiveScene() returns (scene: Option<Scene>)
      ensures scene == ActiveOf(View())
    {
      if active == "" { return None; }
      scene := if active in scenes then Some(scenes[active]) else None;
    }

    ghost predicate Switches(id: string)
      reads this
    {
      SwitchedFrom(View(), id).Some?
    }

    /** What a switch to id may write besides the active id. */
    ghost function SwitchFrame(id: string): set<object>
      reads this, scenes.Values, set k, s | k in scenes && s in scenes[k].subscribers :: s
    {
      if Switches(id) then
        var prev := scenes[active];
        {scenes[id], prev, prev.seqs} + set s | s in prev.subscribers && s.live
      else {}
    }

    /** Err stands for the KeyError of an unregistered id. */
    method SetActive(id: string) returns (r: Result<set<Subscription>, string>)
      requires Valid()
      requires Switches(id) ==> scenes[id].Valid() && scenes[active].Valid()
      modifies this`active, SwitchFrame(id)
      ensures r.Err? <==> id !in scenes
      ensures View() == Activate(old(View()), id)
      ensures old(Switches(id)) ==>
        var prev, next := SwitchedFrom(old(View()), id).value, scenes[id];
        && r.Ok? && r.value == (set s | s in old(prev.subscribers) && old(s.live))
        && prev.View() == MovedOut(old(prev.View()), r.value)
        && next.View() == MovedIn(old(next.View()), r.value)
        && forall s :: s in r.value ==> s.View() == Switched(old(prev.View()), old(next.View()), old(s.View()))
    {
      if id !in scenes { return Err("server: scene not registered"); }
      if active == id { return Ok({}); }
      var prevId := active;
      active := id;
      if prevId != "" && prevId in scenes {
        var moved := scenes[id].MigrateSubscribersFrom(scenes[prevId]);
        return Ok(moved);
      }
      return Ok({});
    }

    /** Removes the subscription from every registered scene. */
    method Detach(sub: Subscription)
      requires Valid() && sub.Valid()
      modifies scenes.Values, sub
      ensures sub.View() == if scenes.Values == {} then old(sub.View()) else ClosePipe(old(sub.View()))
      ensures forall sc :: sc in scenes.Values ==>
                sc.subscribers == old(sc.subscribers) - {sub}
                && sc.version == old(sc.version) && sc.declaredInputs == old(sc.declaredInputs)
    {
      var todo := scenes.Values;
      while todo != {}
        invariant todo <= scenes.Values && sub.Valid()
        invariant sub.View() == if todo == scenes.Values then old(sub.View()) else ClosePipe(old(sub.View()))
        invariant forall sc :: sc in scenes.Values ==>
          sc.subscribers == (if sc in todo then old(sc.subscribers) else old(sc.subscribers) - {sub})
          && sc.version == old(sc.version) && sc.declaredInputs == old(sc.declaredInputs)
        modifies scenes.Values, sub
      {
        var sc :| sc in todo;
        sc.Unsubscribe(sub);
        todo := todo - {sc};
      }
    }

    /** Empties the registry, then drops every subscriber and every state. */
    method Reset()
      requires forall sc, s :: sc in scenes.Values && s in sc.subscribers ==> s.Valid()
      modifies this, Footprint()
      ensures View() == Emptied()
      ensures forall sc :: sc in old(scenes.Values) ==> sc.subscribers == {} && sc.store.state == map[]
      ensures forall sc, s :: sc in old(scenes.Values) && s in old(sc.subscribers) ==> s.closed
    {
      var dropped := scenes.Values;
      scenes, active := map[], "";
      ResetEach(dropped, set sc, s | sc in dropped && s in sc.subscribers :: s, set sc | sc in dropped :: sc.store);
    }

    static method ResetEach(dropped: set<Scene>, ghost subs: set<Subscription>, ghost stores: set<Store>)
      requires forall sc :: sc in dropped ==> sc.subscribers <= subs && sc.store in stores
      requires forall s :: s in subs ==> s.Valid()
      modifies dropped, subs, stores
      ensures forall sc :: sc in dropped ==> sc.subscribers == {} && sc.store.state == map[]
      ensures forall sc, s :: sc in dropped && s in old(sc.subscribers) ==> s.closed
    {
      var todo := dropped;
      while todo != {}
        invariant todo <= dropped
        invariant forall s :: s in subs ==> s.Valid()
        invariant forall sc :: sc in dropped ==> sc.subscribers <= subs
        invariant forall sc :: sc in todo ==> sc.subscribers == old(sc.subscribers)
        invariant forall sc, s :: sc in dropped - todo && s in old(sc.subscribers) ==> s.closed
        invariant forall sc :: sc in dropped - todo ==> sc.subscribers == {} && sc.store.state == map[]
      {
        var sc :| sc in todo;
        sc.Reset();
        todo := todo - {sc};
      }
    }

    /** Which scene a Subscribe frame is routed to. */
    method ResolveScene(frame: ClientFrame, identity: Identity) returns (r: Result<Scene, RouteError>)
      requires frame.Subscribe?
      ensures frame.scene == "" ==>
        r == if ActiveOf(View()).Some? then Ok(ActiveOf(View()).value) else Err(NoActiveScene)
      ensures frame.scene != "" ==>
        r == if identity.role !in {Some(Test), Some(Operator)} then Err(RoleDenied)
             else if frame.session == "" then Err(SessionRequired)
             else if frame.scene !in scenes then Err(SceneNotRegistered)
             else Ok(scenes[frame.scene])
    {
      if frame.scene == "" {
        var sc := ActiveScene();
        if sc.None? { return Err(NoActiveScene); }
        return Ok(sc.value);
      }
      if identity.role != Some(Test) && identity.role != Some(Operator) { return Err(RoleDenied); }
      if frame.session == "" { return Err(SessionRequired); }
      if frame.scene !in scenes { return Err(SceneNotRegistered); }
      return Ok(scenes[frame.scene]);
    }
  }
}

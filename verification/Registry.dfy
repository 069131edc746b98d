/** Which scene an id names and which one is active (src/lumencast/server/server.py). The class
    Server and the worlds of Protocol share these functions; R stands for a scene's identity. */
module Registries {
  import opened Wrappers

  datatype Registry<R> = Registry(scenes: map<string, R>, active: string)

  /** The scene a live subscribe is routed to, if any. */
  function ActiveOf<R>(reg: Registry<R>): Option<R> {
    if reg.active != "" && reg.active in reg.scenes then Some(reg.scenes[reg.active]) else None
  }

  /** The id is taken over; the first scene becomes active. */
  function TakeOver<R>(reg: Registry<R>, id: string, scene: R): Registry<R> {
    Registry(reg.scenes[id := scene], if reg.active == "" then id else reg.active)
  }

  /** The scene that a switch to id takes the live subscribers from, if any. */
  function SwitchedFrom<R(==)>(reg: Registry<R>, id: string): Option<R> {
    if id in reg.scenes && reg.active != id && ActiveOf(reg).Some? && ActiveOf(reg).value != reg.scenes[id]
    then ActiveOf(reg) else None
  }

  /** An id that is not registered changes nothing. */
  function Activate<R>(reg: Registry<R>, id: string): Registry<R> {
    if id in reg.scenes then reg.(active := id) else reg
  }

  function Emptied<R>(): Registry<R> {
    Registry(map[], "")
  }
}

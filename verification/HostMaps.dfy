/**
 What each critical section under the host's `mu` does to its two maps.  The class
 `TunnelHost.TunnelHost` promises these in its contracts, and the transition systems
 `Lease` and `Conversations` take them as their atomic steps.
 */
module HostMaps {
  import opened Ascii
  import opened Protocol

  // `nil` is the placeholder under which a name is reserved.
  function Reserve<C>(clients: map<string, C>, r: Option<string>, nil: C): map<string, C> {
    match r
    case None => clients
    case Some(name) => clients[Lower(name) := nil]
  }

  function Publish<C>(clients: map<string, C>, name: string, client: C): map<string, C> {
    clients[Lower(name) := client]
  }

  // Remove the entry for `name`, but only while it still is `client`.
  function RemoveIf<C(==)>(clients: map<string, C>, name: string, client: C): map<string, C> {
    if Lower(name) in clients && clients[Lower(name)] == client then clients - {Lower(name)} else clients
  }

  function Lookup<C>(clients: map<string, C>, name: string, nil: C): C {
    if Lower(name) in clients then clients[Lower(name)] else nil
  }

  function Register<H>(pending: map<Uuid, H>, id: Uuid, ch: H): map<Uuid, H> {
    pending[id := ch]
  }

  function Take<H>(pending: map<Uuid, H>, id: Uuid): (Option<H>, map<Uuid, H>) {
    if id in pending then (Some(pending[id]), pending - {id}) else (None, pending)
  }

  function Forget<H>(pending: map<Uuid, H>, id: Uuid): map<Uuid, H> {
    pending - {id}
  }
}

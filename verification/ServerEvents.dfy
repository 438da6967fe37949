/** The change events the control plane publishes and the gateway applies. */
module ServerEvents {
  datatype Event =
    | Upsert(org: string, id: string, slug: string, typ: string, endpointUrl: string, command: string,
             args: seq<string>, env: map<string, string>, allowedRoles: seq<string>, credentialMode: string)
    | Remove(org: string, id: string, slug: string)
    | CredentialChanged(org: string, id: string, slug: string, user: string)

  predicate KnownType(typ: string) { typ == "remote_http" || typ == "stdio" }

  /** The in-process bus: what has been published and not yet delivered, oldest first. */
  class Bus {
    var queue: seq<Event>

    constructor ()
      ensures queue == []
    {
      queue := [];
    }

    method Publish(e: Event)
      modifies this
      ensures queue == old(queue) + [e]
    {
      queue := queue + [e];
    }
  }
}

/** The gateway hands every update of the cache to its clients, and its own sources only to external ones. */
module Gateways {
  import opened ConnectionManagers

  /** An exporter, which is external, or the gNMI server. */
  class CacheClient {
    const external: bool
    var buffer: seq<nat>

    constructor (external: bool)
      ensures this.external == external && buffer == []
    {
      this.external := external;
      buffer := [];
    }

    method Send(leaf: nat)
      modifies this
      ensures buffer == old(buffer) + [leaf]
    {
      buffer := buffer + [leaf];
    }
  }

  class Gateway {
    var clients: seq<CacheClient>
    const connMgr: ConnectionManager

    constructor (connMgr: ConnectionManager)
      ensures this.connMgr == connMgr && clients == []
    {
      this.connMgr := connMgr;
      clients := [];
    }

    ghost predicate Valid()
      reads this, connMgr, connMgr.connections.Values
    {
      && connMgr.Valid()
      && forall j, k :: 0 <= j < k < |clients| ==> clients[j] != clients[k]
    }

    method AddClient(external: bool)
      requires Valid()
      modifies this
      ensures Valid() && |clients| == |old(clients)| + 1
      ensures clients[..|old(clients)|] == old(clients)
      ensures fresh(clients[|old(clients)|]) && clients[|old(clients)|].external == external
      ensures clients[|old(clients)|].buffer == []
    {
      var client := new CacheClient(external);
      clients := clients + [client];
    }

    /** A client gets the leaf unless it is external and the target of the leaf is not this gateway's to forward. */
    method SendUpdateToClients(leaf: nat, target: string)
      requires Valid()
      modifies clients
      ensures Valid()
      ensures forall c <- clients :: !c.external || connMgr.MayForward(target) ==> c.buffer == old(c.buffer) + [leaf]
      ensures forall c <- clients :: c.external && !connMgr.MayForward(target) ==> c.buffer == old(c.buffer)
      ensures connMgr.KnownFromPeersOnly(target) ==> forall c <- clients :: c.external ==> c.buffer == old(c.buffer)
    {
      for i := 0 to |clients|
        invariant Valid()
        invariant forall k :: i <= k < |clients| ==> clients[k].buffer == old(clients[k].buffer)
        invariant forall k | 0 <= k < i && (!clients[k].external || connMgr.MayForward(target)) ::
          clients[k].buffer == old(clients[k].buffer) + [leaf]
        invariant forall k | 0 <= k < i && clients[k].external && !connMgr.MayForward(target) ::
          clients[k].buffer == old(clients[k].buffer)
      {
        var client := clients[i];
        if client.external {
          var forwardable := connMgr.Forwardable(target);
          if forwardable {
            client.Send(leaf);
          }
        } else {
          client.Send(leaf);
        }
      }
    }
  }
}

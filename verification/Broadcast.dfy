/** ws.py: the set of stream subscribers and the broadcast loop, run without
    interference. */
module Broadcast {

  type Ws = nat

  class PendingTransactionBroadcaster {
    var subscribers: set<Ws>

    constructor ()
      ensures subscribers == {}
    {
      subscribers := {};
    }

    /** After the handshake of an accepted socket. */
    method Connect(websocket: Ws)
      modifies this
      ensures subscribers == old(subscribers) + {websocket}
    {
      subscribers := subscribers + {websocket};
    }

    method Disconnect(websocket: Ws)
      modifies this
      ensures subscribers == old(subscribers) - {websocket}
    {
      subscribers := subscribers - {websocket};
    }

    /** Sends to every subscriber exactly once, in some order, and drops those
        whose send fails. `broken` are the sockets on which a send raises. */
    method Broadcast(broken: set<Ws>) returns (sent: seq<Ws>)
      modifies this
      ensures multiset(sent) == multiset(old(subscribers))
      ensures subscribers == old(subscribers) - broken
    {
      var disconnected: seq<Ws> := [];
      var remaining := subscribers;
      sent := [];
      while remaining != {}
        invariant remaining <= subscribers == old(subscribers)
        invariant multiset(sent) + multiset(remaining) == multiset(subscribers)
        invariant forall ws :: ws in disconnected <==> ws in broken && ws in subscribers && ws !in remaining
        decreases remaining
      {
        var websocket :| websocket in remaining;
        sent := sent + [websocket];
        if websocket in broken {
          disconnected := disconnected + [websocket];
        }
        remaining := remaining - {websocket};
      }
      Drop(disconnected);
    }

    /** The end of a broadcast: the sockets whose send failed are dropped. */
    method Drop(disconnected: seq<Ws>)
      modifies this
      ensures subscribers == old(subscribers) - Members(disconnected)
    {
      for i := 0 to |disconnected|
        invariant forall ws :: ws in subscribers <==> ws in old(subscribers) && ws !in disconnected[..i]
      {
        Disconnect(disconnected[i]);
        assert disconnected[..i + 1] == disconnected[..i] + [disconnected[i]];
      }
      assert disconnected[..|disconnected|] == disconnected;
    }
  }

  function Members(list: seq<Ws>): set<Ws> {
    set ws | ws in list
  }
}

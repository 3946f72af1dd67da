/** The WebSocket client's shared fields and the operations done on them under its lock
    (adapter/wsclient.go). Connections and channels are named by number. */
module WsClient {
  import opened Common

  /** The decoded answer: its request tag and its verdict. */
  datatype Response = Response(echo: string, status: string, retcode: int) {
    predicate Ok() {
      status == "ok" || (status == "" && retcode == 0)
    }
  }

  /** A channel with one slot, and how often it was closed, filled, sent to after closing, and
      found full. Closing twice or sending after closing would panic. */
  datatype Channel = Channel(buffer: Option<Response>, closes: nat, received: nat, lateSends: nat, drops: nat)

  const NEW_CHANNEL := Channel(None, 0, 0, 0, 0)

  function Closed(ch: Channel): Channel {
    ch.(closes := ch.closes + 1)
  }

  /** The non-blocking send of handleMessage. */
  function SentTo(ch: Channel, resp: Response): Channel {
    if ch.closes > 0 then ch.(lateSends := ch.lateSends + 1)
    else if ch.buffer.Some? then ch.(drops := ch.drops + 1)
    else ch.(buffer := Some(resp), received := ch.received + 1)
  }

  // ---- What a channel's counters say ----

  datatype Use = Send(resp: Response) | Close

  function Used(ch: Channel, uses: seq<Use>): Channel {
    if uses == [] then ch else
    var before := Used(ch, uses[..|uses| - 1]);
    match uses[|uses| - 1] case Send(resp) => SentTo(before, resp) case Close => Closed(before)
  }

  function Closings(uses: seq<Use>): nat {
    if uses == [] then 0 else (if uses[|uses| - 1].Close? then 1 else 0) + Closings(uses[..|uses| - 1])
  }

  /** The sends behind the first closing. */
  function LateSends(uses: seq<Use>): nat {
    if uses == [] then 0 else
    (if uses[|uses| - 1].Send? && Closings(uses[..|uses| - 1]) > 0 then 1 else 0) + LateSends(uses[..|uses| - 1])
  }

  /** The first thing sent to an open channel fills its only slot and is never overwritten; all else is counted as what
      it was: a closing, a send after closing, or a send that found the slot full. */
  lemma {:induction false} CountersTellUses(uses: seq<Use>)
    ensures
      var ch := Used(NEW_CHANNEL, uses);
      && ch.closes == Closings(uses) && ch.lateSends == LateSends(uses)
      && ch.received + ch.drops + ch.lateSends + ch.closes == |uses|
      && ch.received == (if ch.buffer.Some? then 1 else 0)
      && (ch.buffer.Some? <==> uses != [] && uses[0].Send?)
      && (ch.buffer.Some? ==> ch.buffer.value == uses[0].resp)
  {
    if uses != [] {
      var before := uses[..|uses| - 1];
      CountersTellUses(before);
      if before != [] {
        assert before[0] == uses[0];
        if uses[0].Close? { ClosedEver(before); }
      }
    }
  }

  lemma {:induction false} ClosedEver(uses: seq<Use>)
    requires uses != [] && uses[0].Close?
    ensures Closings(uses) > 0
  {
    if |uses| > 1 {
      var before := uses[..|uses| - 1];
      assert before[0] == uses[0];
      ClosedEver(before);
    }
  }

  datatype Hub = Hub(conn: Option<nat>, isConnected: bool, pending: map<string, nat>, channels: seq<Channel>)

  ghost predicate PendingOk(pending: map<string, nat>, n: nat) {
    && (forall e | e in pending :: pending[e] < n)
    && (forall e, e' | e in pending && e' in pending && e != e' :: pending[e] != pending[e'])
  }

  ghost predicate IsPending(pending: map<string, nat>, c: nat) {
    exists e :: e in pending && pending[e] == c
  }

  ghost function CloseAll(hub: Hub): (channels: seq<Channel>)
    ensures |channels| == |hub.channels|
    ensures forall c | 0 <= c < |channels| ::
              channels[c] == if IsPending(hub.pending, c) then Closed(hub.channels[c]) else hub.channels[c]
  {
    seq(|hub.channels|, c requires 0 <= c < |hub.channels| =>
      if IsPending(hub.pending, c) then Closed(hub.channels[c]) else hub.channels[c])
  }

  /** Forget the connection and close every pending channel. */
  ghost function Severed(hub: Hub): Hub {
    Hub(None, false, map[], CloseAll(hub))
  }

  ghost function Connected(hub: Hub, conn: nat): Hub {
    hub.(conn := Some(conn), isConnected := true)
  }

  /** The deferred cleanup of a connection handler: only the current connection is cleaned up. */
  ghost function ConnectionEnded(hub: Hub, conn: nat): Hub {
    if hub.conn == Some(conn) then Severed(hub) else hub
  }

  ghost function Registered(hub: Hub, echo: string): Hub {
    hub.(pending := hub.pending[echo := |hub.channels|], channels := hub.channels + [NEW_CHANNEL])
  }

  ghost function Taken(hub: Hub, echo: string): Hub {
    hub.(pending := hub.pending - {echo})
  }

  /** The deferred cleanup of SendAndWait. */
  ghost function RequestEnded(hub: Hub, echo: string, channel: nat): Hub
    requires channel < |hub.channels|
  {
    if echo in hub.pending
    then hub.(pending := hub.pending - {echo}, channels := hub.channels[channel := Closed(hub.channels[channel])])
    else hub
  }

  class Client {
    var conn: Option<nat>
    var isConnected: bool
    var responseCh: map<string, nat>
    var channels: seq<Channel>

    ghost function Value(): Hub
      reads this
    {
      Hub(conn, isConnected, responseCh, channels)
    }

    ghost predicate Valid()
      reads this
    {
      PendingOk(responseCh, |channels|)
    }

    constructor ()
      ensures Valid() && Value() == Hub(None, false, map[], [])
    {
      conn, isConnected := None, false;
      responseCh, channels := map[], [];
    }

    /** The loop over the pending entries shared by Stop and the connection cleanup. */
    method CloseResponseChannels()
      requires Valid()
      modifies this`responseCh, this`channels
      ensures channels == CloseAll(old(Value())) && responseCh == map[]
    {
      while responseCh != map[]
        invariant |channels| == |old(channels)|
        invariant forall e | e in responseCh :: e in old(responseCh) && responseCh[e] == old(responseCh)[e]
        invariant forall c | 0 <= c < |channels| ::
                    channels[c] == if IsPending(old(responseCh), c) && !IsPending(responseCh, c)
                                   then Closed(old(channels)[c]) else old(channels)[c]
        decreases |responseCh|
      {
        label before:
        var echo :| echo in responseCh;
        var ch := responseCh[echo];
        assert IsPending(responseCh, ch);
        channels := channels[ch := Closed(channels[ch])];
        responseCh := responseCh - {echo};
        assert !IsPending(responseCh, ch);
        forall c | 0 <= c < |channels| && c != ch
          ensures IsPending(responseCh, c) <==> IsPending(old@before(responseCh), c)
        {
          if e :| e in old@before(responseCh) && old@before(responseCh)[e] == c {
            assert e in responseCh;
          }
        }
      }
      assert forall c: nat :: !IsPending(map[], c);
    }

    method Stop()
      requires Valid()
      modifies this
      ensures Valid() && Value() == Severed(old(Value()))
    {
      isConnected := false;
      CloseResponseChannels();
      conn := None;
    }

    /** A new connection replaces the current one; used after accepting and after dialling. */
    method Connect(newConn: nat)
      modifies this`conn, this`isConnected
      ensures Value() == Connected(old(Value()), newConn)
    {
      conn := Some(newConn);
      isConnected := true;
    }

    method EndConnection(ended: nat)
      requires Valid()
      modifies this
      ensures Valid() && Value() == ConnectionEnded(old(Value()), ended)
    {
      if conn == Some(ended) {
        conn := None;
        isConnected := false;
        CloseResponseChannels();
      }
    }

    method Register(echo: string) returns (channel: nat)
      requires Valid()
      modifies this`responseCh, this`channels
      ensures Valid() && channel == |old(channels)| && Value() == Registered(old(Value()), echo)
    {
      channel := |channels|;
      channels := channels + [NEW_CHANNEL];
      responseCh := responseCh[echo := channel];
    }

    /** handleMessage's lookup: the entry leaves the map before anything is sent to its channel. */
    method TakeResponse(echo: string) returns (channel: Option<nat>)
      requires Valid()
      modifies this`responseCh
      ensures Valid()
      ensures if echo in old(responseCh)
              then channel == Some(old(responseCh)[echo]) && Value() == Taken(old(Value()), echo)
              else channel == None && Value() == old(Value())
    {
      if echo in responseCh {
        channel := Some(responseCh[echo]);
        responseCh := responseCh - {echo};
      } else {
        channel := None;
      }
    }

    method EndRequest(echo: string, channel: nat)
      requires Valid() && channel < |channels|
      modifies this`responseCh, this`channels
      ensures Valid() && Value() == RequestEnded(old(Value()), echo, channel)
    {
      if echo in responseCh {
        channels := channels[channel := Closed(channels[channel])];
        responseCh := responseCh - {echo};
      }
    }
  }
}

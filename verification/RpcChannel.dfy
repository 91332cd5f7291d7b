/** The pending-request table of one client channel of the DDS request/response engine, one function per region of its
    state mutex. */
module RpcChannel {
  import opened TraceFormat

  /** What a request returns: a message, or a status code between 1 and 12 with a detail text. */
  datatype Result = Success(message: Message) | Failure(code: nat, detail: string)

  const CLOSED: nat := 4
  const TIMEOUT: nat := 5
  const INTERNAL: nat := 12

  function ChannelClosed(): Result {
    Failure(CLOSED, "DDS RPC client channel closed")
  }

  /** pending holds the identifiers of waiting requests, results the outcome of completed ones; swept is history: the
      clearing region of CloseClient has run. */
  datatype Channel = Channel(closed: bool, swept: bool, pending: set<nat>, results: map<nat, Result>)

  function NewChannel(): Channel {
    Channel(false, false, {}, map[])
  }

  datatype Insertion = Waiting | ChannelGone | Collided

  /** Request entering itself in the table. */
  function InsertOf(ch: Channel, id: nat): (Channel, Insertion) {
    if ch.closed then (ch, ChannelGone)
    else if id in ch.pending then (ch, Collided)
    else (ch.(pending := ch.pending + {id}), Waiting)
  }

  /** remove_pending, on every early return and on a timeout. */
  function RemoveOf(ch: Channel, id: nat): Channel {
    ch.(pending := ch.pending - {id})
  }

  /** ReceiveResponses: the first response completes the request; later ones and late ones find nothing. */
  function CompleteOf(ch: Channel, id: nat, r: Result): (Channel, bool) {
    if id in ch.pending then (ch.(pending := ch.pending - {id}, results := ch.results[id := r]), true) else (ch, false)
  }

  /** CloseClient under the state mutex. */
  function SweepOf(ch: Channel): Channel {
    Channel(true, true, {}, ch.results + map id | id in ch.pending :: ChannelClosed())
  }

  /** Nothing is both waiting and completed; and once swept, the table is empty for good. */
  predicate Sound(ch: Channel) {
    && ch.pending !! ch.results.Keys
    && (ch.swept ==> ch.closed && ch.pending == {})
  }

  class ClientChannel {
    var closed: bool
    var pending: set<nat>
    var results: map<nat, Result>
    ghost var swept: bool

    ghost function Now(): Channel
      reads this
    {
      Channel(closed, swept, pending, results)
    }

    constructor ()
      ensures Now() == NewChannel()
    {
      closed, pending, results, swept := false, {}, map[], false;
    }

    method Insert(id: nat) returns (r: Insertion)
      modifies this
      ensures (Now(), r) == InsertOf(old(Now()), id)
    {
      if closed {
        return ChannelGone;
      }
      if id in pending {
        return Collided;
      }
      pending := pending + {id};
      return Waiting;
    }

    method Remove(id: nat)
      modifies this
      ensures Now() == RemoveOf(old(Now()), id)
    {
      if id in pending {
        pending := pending - {id};
      }
    }

    method Complete(id: nat, r: Result) returns (matched: bool)
      modifies this
      ensures (Now(), matched) == CompleteOf(old(Now()), id, r)
    {
      matched := false;
      if id in pending {
        results := results[id := r];
        pending := pending - {id};
        matched := true;
      }
    }

    /** CloseClient: marks the channel, then completes every waiting request in whatever order the table yields. */
    method Close()
      modifies this
      ensures old(closed) ==> Now() == old(Now())
      ensures !old(closed) ==> Now() == SweepOf(old(Now()))
    {
      if closed {
        return;
      }
      closed := true;
      var left := pending;
      while left != {}
        invariant closed && left <= pending == old(pending) && swept == old(swept)
        invariant results == old(results) + map id | id in pending - left :: ChannelClosed()
        decreases |left|
      {
        var id :| id in left;
        results := results[id := ChannelClosed()];
        left := left - {id};
      }
      pending := {};
      swept := true;
    }
  }
}

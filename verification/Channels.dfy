/** The bounded token channel and the work queue of the server. A wait on a condition variable is the
    precondition of the method: the body runs once the waited-for predicate holds. */
module Channels {
  import opened Prelude

  datatype Event = Token(piece: string) | Finish(reason: string) | Err(message: string)

  const CAPACITY := 128

  datatype Channel = Channel(q: seq<Event>, closed: bool)

  predicate CanPush(c: Channel) { |c.q| < CAPACITY || c.closed }

  predicate CanPop(c: Channel) { c.q != [] || c.closed }

  /** A push on a closed channel is dropped. */
  function Push(c: Channel, e: Event): Channel {
    if c.closed then c else c.(q := c.q + [e])
  }

  /** None stands for `false`: closed and empty. */
  function Pop(c: Channel): (r: (Option<Event>, Channel)) {
    if c.q == [] then (None, c) else (Some(c.q[0]), c.(q := c.q[1..]))
  }

  function Close(c: Channel): Channel { c.(closed := true) }

  /** Token events, then possibly one terminal event, which ends the drain loop of the handler. */
  predicate UpToTerminal(log: seq<Event>) {
    forall i :: 0 <= i < |log| - 1 ==> log[i].Token?
  }

  class TokenChannel {
    const cap: nat
    var q: seq<Event>
    var closed: bool
    /** Every event accepted by a push so far, and every event handed out by a pop. */
    ghost var accepted: seq<Event>
    ghost var delivered: seq<Event>

    /** Nothing accepted is lost, repeated or reordered. */
    ghost predicate Valid()
      reads this
    {
      accepted == delivered + q && |q| <= cap
    }

    constructor (capacity: nat := CAPACITY)
      ensures Valid() && cap == capacity && !closed && accepted == delivered == []
    {
      cap, q, closed, accepted, delivered := capacity, [], false, [], [];
    }

    /** An event pushed before close joins the accepted ones; after close it is dropped. */
    method PushEvent(e: Event)
      requires Valid() && (|q| < cap || closed)
      modifies this`q, this`accepted
      ensures Valid() && accepted == (if closed then old(accepted) else old(accepted) + [e])
      ensures Channel(q, closed) == Push(old(Channel(q, closed)), e)
    {
      if closed { return; }
      q, accepted := q + [e], accepted + [e];
    }

    /** The next undelivered event; None only once the channel is closed and everything accepted has been delivered. */
    method PopEvent() returns (e: Option<Event>)
      requires Valid() && (q != [] || closed)
      modifies this`q, this`delivered
      ensures Valid() && delivered <= accepted
      ensures e.Some? ==> |old(delivered)| < |accepted| && delivered == old(delivered) + [e.value]
      ensures e == None ==> closed && delivered == accepted == old(delivered)
      ensures (e, Channel(q, closed)) == Pop(old(Channel(q, closed)))
    {
      if q == [] { return None; }
      e := Some(q[0]);
      q, delivered := q[1..], delivered + [q[0]];
    }

    /** What was accepted stays to be delivered. */
    method CloseChannel()
      requires Valid()
      modifies this`closed
      ensures Valid() && closed
    {
      closed := true;
    }

    /** The handler's drain loop on a channel the worker has finished with: it hands on the accepted events not yet
        delivered, in order, up to and including the first terminal event, or all of them if there is none. */
    method DrainEvents() returns (got: seq<Event>)
      requires Valid() && closed
      modifies this`q, this`delivered
      ensures Valid() && delivered == old(delivered) + got && got <= accepted[|old(delivered)|..]
      ensures UpToTerminal(got)
      ensures (got != [] && !got[|got| - 1].Token?) || delivered == accepted
    {
      got := [];
      while true
        invariant Valid() && delivered == old(delivered) + got
        invariant forall i :: 0 <= i < |got| ==> got[i].Token?
        decreases |q|
      {
        var e := PopEvent();
        if e == None { return; }
        got := got + [e.value];
        if !e.value.Token? { return; }
      }
    }

    /** `finish` of a stream, then the handler's loop: after the terminal event and the close the handler still receives
        every token it has not had yet, and the terminal event last. */
    method FinishAndDrain(reason: string) returns (got: seq<Event>)
      requires Valid() && !closed && |q| < cap && forall i :: 0 <= i < |accepted| ==> accepted[i].Token?
      modifies this
      ensures Valid() && closed && got == old(accepted)[|old(delivered)|..] + [Finish(reason)]
      ensures delivered == accepted == old(accepted) + [Finish(reason)]
    {
      PushEvent(Finish(reason));
      CloseChannel();
      got := DrainEvents();
      if got != [] && !got[|got| - 1].Token? {
        OnlyTerminalIsLast(accepted, |delivered| - 1);
      }
    }
  }

  lemma OnlyTerminalIsLast(log: seq<Event>, i: nat)
    requires i < |log| && UpToTerminal(log) && !log[i].Token?
    ensures i == |log| - 1
  {
  }

  /** The work queue. */
  class RequestQueue<T> {
    var q: seq<T>
    var stopped: bool

    constructor ()
      ensures q == [] && !stopped
    {
      q, stopped := [], false;
    }

    method Submit(r: T)
      modifies this`q
      ensures q == old(q) + [r]
    {
      q := q + [r];
    }

    method WaitPop() returns (r: Option<T>)
      requires q != [] || stopped
      modifies this`q
      ensures old(q) == [] ==> r == None && q == []
      ensures old(q) != [] ==> r == Some(old(q)[0]) && q == old(q)[1..]
    {
      if q == [] { return None; }
      r := Some(q[0]);
      q := q[1..];
    }

    /** Requests still queued are served first: `wait_pop` returns nothing only from an empty queue. */
    method Shutdown()
      modifies this`stopped
      ensures stopped
    {
      stopped := true;
    }
  }
}

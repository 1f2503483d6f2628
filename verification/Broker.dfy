/** The SSE broker: client channels with 16 slots, and a broadcast that never blocks. */
module Broker {
  import opened EventStream

  const CAPACITY := 16

  /** A buffer after a non-blocking send: the message is dropped when all slots are taken. */
  function Offered(buf: seq<string>, msg: string): (r: seq<string>)
    ensures |buf| <= CAPACITY ==> |r| <= CAPACITY
  {
    if |buf| < CAPACITY then buf + [msg] else buf
  }

  /** A buffered channel of strings. */
  class Channel {
    var buf: seq<string>
    var closed: bool

    constructor ()
      ensures buf == [] && !closed
    {
      buf := [];
      closed := false;
    }

    ghost predicate Open()
      reads this
    {
      !closed && |buf| <= CAPACITY
    }

    /** `select { case ch <- msg: default: }`; sending on a closed channel panics. */
    method TrySend(msg: string)
      requires !closed
      modifies this`buf
      ensures buf == Offered(old(buf), msg)
    {
      if |buf| < CAPACITY {
        buf := buf + [msg];
      }
    }

    /** close(ch); closing twice panics. */
    method Close()
      requires !closed
      modifies this`closed
      ensures closed
    {
      closed := true;
    }

    /** A receive that is ready: a buffered message, or the end of a closed and drained channel. */
    method Receive() returns (msg: string, ok: bool)
      requires buf != [] || closed
      modifies this`buf
      ensures ok <==> old(buf) != []
      ensures if ok then [msg] + buf == old(buf) else msg == "" && buf == old(buf)
    {
      if buf == [] {
        return "", false;
      }
      msg, ok := buf[0], true;
      buf := buf[1..];
    }
  }

  class SSEBroker {
    var clients: set<Channel>
    var stopped: bool

    ghost predicate Valid()
      reads this, clients
    {
      forall ch | ch in clients :: ch.Open()
    }

    constructor ()
      ensures Valid() && clients == {} && !stopped
    {
      clients := {};
      stopped := false;
    }

    method Subscribe() returns (ch: Channel)
      requires Valid()
      modifies this`clients
      ensures Valid() && fresh(ch) && ch.buf == [] && !ch.closed
      ensures clients == old(clients) + {ch}
    {
      ch := new Channel();
      clients := clients + {ch};
    }

    method Unsubscribe(ch: Channel)
      requires Valid()
      modifies this`clients
      ensures Valid() && clients == old(clients) - {ch}
    {
      clients := clients - {ch};
    }

    /** Every registered channel is offered the frame, in an order that is not chosen; none is closed. */
    method Broadcast(eventName: string, data: string)
      requires Valid()
      modifies clients
      ensures Valid() && clients == old(clients)
      ensures forall ch | ch in clients :: ch.buf == Offered(old(ch.buf), Frame(eventName, data))
    {
      hide Frame;
      var formatted := FormatFrame(eventName, data);
      var todo := clients;
      while todo != {}
        invariant todo <= clients && Valid()
        invariant forall ch | ch in todo :: ch.buf == old(ch.buf)
        invariant forall ch | ch in clients && ch !in todo :: ch.buf == Offered(old(ch.buf), formatted)
        decreases todo
      {
        var ch :| ch in todo;
        ch.TrySend(formatted);
        todo := todo - {ch};
      }
    }

    /** close(b.stopCh) panics the second time. Every registered channel is closed with its buffer left to drain. */
    method Stop()
      requires Valid() && !stopped
      modifies this, clients
      ensures Valid() && stopped && clients == {}
      ensures forall ch | ch in old(clients) :: ch.closed && ch.buf == old(ch.buf)
    {
      stopped := true;
      var todo := clients;
      while todo != {}
        invariant clients == old(clients) && todo <= clients && stopped
        invariant forall ch | ch in todo :: !ch.closed
        invariant forall ch | ch in clients && ch !in todo :: ch.closed
        invariant forall ch | ch in clients :: ch.buf == old(ch.buf)
        decreases todo
      {
        var ch :| ch in todo;
        ch.Close();
        todo := todo - {ch};
      }
      clients := {};
    }
  }
}

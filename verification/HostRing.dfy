/** The circular buffer of messages for the host. */
module HostRing {
  import opened Devices

  const HOSTBUFFER_SIZE: nat := 40
  const MAX_HOST_PER_HANDLER: nat := 2

  /** Equal head and tail mean empty, so one entry of the buffer is never used. */
  const CAPACITY: nat := HOSTBUFFER_SIZE - 1

  /** What a push leaves pending: beyond the capacity it makes the ring read as empty. */
  function PushOne(pending: seq<HostMsg>, msg: HostMsg): seq<HostMsg> {
    if |pending| < CAPACITY then pending + [msg] else []
  }

  function PushAll(pending: seq<HostMsg>, msgs: seq<HostMsg>): seq<HostMsg>
    decreases |msgs|
  {
    if msgs == [] then pending else PushAll(PushOne(pending, msgs[0]), msgs[1..])
  }

  /** Pushes are kept, all and in order, exactly when they fit in the capacity. */
  lemma {:induction false} PushesKept(pending: seq<HostMsg>, msgs: seq<HostMsg>)
    requires |pending| <= CAPACITY
    ensures |PushAll(pending, msgs)| <= CAPACITY
    ensures PushAll(pending, msgs) == pending + msgs <==> |pending| + |msgs| <= CAPACITY
    decreases |msgs|
  {
    if msgs != [] {
      PushesKept(PushOne(pending, msgs[0]), msgs[1..]);
      if |pending| < CAPACITY {
        assert (pending + [msgs[0]]) + msgs[1..] == pending + msgs;
      }
    } else {
      assert pending + msgs == pending;
    }
  }

  predicate AdequateSpace(pending: seq<HostMsg>) {
    HOSTBUFFER_SIZE - |pending| >= MAX_HOST_PER_HANDLER
  }

  /** The main loop runs handlers once the reported space is at least MAX_HOST_PER_HANDLER. That protects a
      handler's messages, except that with 38 pending a second message empties the ring. */
  lemma AdequateSpaceProtects(pending: seq<HostMsg>, msgs: seq<HostMsg>)
    requires AdequateSpace(pending) && |msgs| <= MAX_HOST_PER_HANDLER
    ensures PushAll(pending, msgs) == pending + msgs
            <==> !(|pending| == HOSTBUFFER_SIZE - MAX_HOST_PER_HANDLER && |msgs| == MAX_HOST_PER_HANDLER)
  {
    PushesKept(pending, msgs);
  }

  /** With 38 pending the check passes, and a handler that sends its two messages leaves the ring empty. */
  lemma AdequateSpaceCanLoseAll(msg: HostMsg)
    ensures var pending := seq(38, _ => msg);
            AdequateSpace(pending) && PushAll(pending, [msg, msg]) == []
  {
    var pending := seq(38, _ => msg);
    var one := PushOne(pending, msg);
    assert [msg, msg][1..] == [msg];
    assert [msg][1..] == [];
    assert PushAll(pending, [msg, msg]) == PushAll(one, [msg]) == PushAll(PushOne(one, msg), []);
  }

  lemma SentOneMore(sent: seq<HostMsg>, msg: HostMsg, before: seq<HostMsg>, after: seq<HostMsg>)
    requires before != [] && before[0] == msg && after == before[1..]
    ensures sent + before == (sent + [msg]) + after
  {
    assert before == [msg] + after;
  }

  class HostBuffer {
    const buff: array<HostMsg>
    var head: nat
    var tail: nat

    constructor ()
      ensures Valid() && fresh(buff) && Contents() == []
    {
      buff := new HostMsg[HOSTBUFFER_SIZE];
      head, tail := 0, 0;
    }

    ghost predicate Valid()
      reads this
    {
      buff.Length == HOSTBUFFER_SIZE && head < HOSTBUFFER_SIZE && tail < HOSTBUFFER_SIZE
    }

    ghost function Contents(): (c: seq<HostMsg>)
      requires Valid()
      reads this, buff
      ensures |c| <= CAPACITY
    {
      if head <= tail then buff[head..tail] else buff[head..] + buff[..tail]
    }

    method Size() returns (n: nat)
      requires Valid()
      ensures n == |Contents()|
    {
      if tail < head {
        n := tail + HOSTBUFFER_SIZE - head;
      } else {
        n := tail - head;
      }
    }

    /** Never zero, because at most CAPACITY messages are ever pending. */
    method Space() returns (n: nat)
      requires Valid()
      ensures n == HOSTBUFFER_SIZE - |Contents()| && n > 0
    {
      var size := Size();
      n := HOSTBUFFER_SIZE - size;
    }

    method Push(msg: HostMsg)
      requires Valid()
      modifies this`tail, buff
      ensures Valid() && Contents() == PushOne(old(Contents()), msg)
    {
      buff[tail] := msg;
      tail := tail + 1;
      if tail == HOSTBUFFER_SIZE {
        tail := 0;
      }
    }

    /** Take the message at the head, to be sent as a packet or byte by byte. On an empty ring this is garbage,
        and leaves the ring reading as full. */
    method Pop() returns (msg: HostMsg)
      requires Valid()
      modifies this`head
      ensures Valid()
      ensures old(Contents()) != [] ==> msg == old(Contents())[0] && Contents() == old(Contents())[1..]
      ensures old(Contents()) == [] ==> |Contents()| == CAPACITY
    {
      msg := buff[head];
      head := head + 1;
      if head == HOSTBUFFER_SIZE {
        head := 0;
      }
    }

    /** all has been split into what was sent and what is still pending. */
    ghost predicate Sent(all: seq<HostMsg>, sent: seq<HostMsg>)
      requires Valid()
      reads this, buff
    {
      all == sent + Contents()
    }

    /** Send everything, as softswitch_handler_exit does. */
    method DrainAll() returns (sent: seq<HostMsg>)
      requires Valid()
      modifies this`head
      ensures Valid() && sent == old(Contents()) && Contents() == []
    {
      sent := [];
      ghost var all := Contents();
      var size := Size();
      while size > 0
        invariant Valid() && size == |Contents()| && Sent(all, sent)
        decreases size
      {
        ghost var before := Contents();
        var msg := Pop();
        SentOneMore(sent, msg, before, Contents());
        sent := sent + [msg];
        size := Size();
      }
    }

    /** Send from the head until there is adequate space, as the main loop does before it runs handlers. */
    method MakeSpace() returns (sent: seq<HostMsg>)
      requires Valid()
      modifies this`head
      ensures Valid() && old(Contents()) == sent + Contents()
      ensures AdequateSpace(Contents())
      ensures |sent| == if AdequateSpace(old(Contents())) then 0 else 1
    {
      sent := [];
      ghost var all := Contents();
      var space := Space();
      while space < MAX_HOST_PER_HANDLER
        invariant Valid() && space == HOSTBUFFER_SIZE - |Contents()| && Sent(all, sent)
        invariant |sent| == 0 || (|sent| == 1 && !AdequateSpace(all))
        decreases |Contents()|
      {
        ghost var before := Contents();
        var msg := Pop();
        SentOneMore(sent, msg, before, Contents());
        sent := sent + [msg];
        space := Space();
      }
    }
  }
}

/** Over any run of the main loop: each message prepared by a send handler goes to its whole target list, once,
    in order and unchanged; and host messages leave in the order they were pushed exactly when the ring has room. */
module Multicast {
  import opened Outcomes
  import opened Devices
  import opened HostRing
  import opened Scheduler
  import opened SchedulerProofs
  import opened MainLoop
  import opened MainProofs

  // ----- what is observed of a run -----

  function DevicePackets(out: seq<Output>): seq<Mail> {
    if out == [] then []
    else (if out[0].ToThread? then [out[0].mail] else []) + DevicePackets(out[1..])
  }

  function AppMessages(out: seq<Output>): seq<HostMsg> {
    if out == [] then []
    else (if out[0].ToHost? then [out[0].app] else []) + AppMessages(out[1..])
  }

  /** Messages from the host ring, whichever way they went. */
  function RingMessages(out: seq<Output>): seq<HostMsg> {
    if out == [] then []
    else (if out[0].HostPacket? || out[0].HostUart? then [out[0].msg] else []) + RingMessages(out[1..])
  }

  /** A successful call of a send handler: its source pin, and the payload it wrote. */
  datatype Call = Call(source: Address, pin: OutputPin, payload: Blob)

  function PacketsTo(targets: seq<Address>, source: Address, payload: Blob): seq<Mail> {
    if targets == [] then []
    else [Mail(targets[0].thread, Packet(targets[0], source, payload))] + PacketsTo(targets[1..], source, payload)
  }

  function CallPackets(call: Call): seq<Mail> {
    if call.pin.isApp then [] else PacketsTo(call.pin.targets, call.source, call.payload)
  }

  function CallMessages(call: Call): seq<HostMsg> {
    if call.pin.isApp then [HostMsg(call.source, call.pin.kind, call.payload)] else []
  }

  /** What the message in the buffer has still to be sent as. */
  function Remaining(m: Main): seq<Mail> {
    PacketsTo(m.targets, m.buffer.source, m.buffer.payload)
  }

  /** A turn gets as far as asking the scheduler for a new message. */
  predicate Prepares(c: Config, app: App, m: Main, e: Inputs)
    requires Shaped(app, m)
  {
    && !RunsIdle(app, m, e)
    && !(!WantToSend(m) && e.systemIdle)
    && !PrefersRecv(c, m, e)
    && e.canSendAfter && WantToSend(m)
    && m.host == [] && m.todo == 0
  }

  /** The successful send-handler call of a turn, if it makes one. */
  function CallOf(c: Config, app: App, m: Main, e: Inputs): seq<Call>
    requires Shaped(app, m)
  {
    if !Prepares(c, app, m, e) then []
    else match OnSend(app, c.thread, m.sched)
      case AssertFailed => []
      case Ok((_, sent)) => if sent.Message? then [Call(sent.source, sent.pin, sent.payload)] else []
  }

  /** Host messages pushed by the handler of a turn; a turn that sends on or sends to the host runs none. */
  function PushedIn(c: Config, app: App, m: Main, e: Inputs): seq<HostMsg>
    requires Shaped(app, m)
  {
    if RunsIdle(app, m, e) || (!WantToSend(m) && e.systemIdle) || PrefersRecv(c, m, e) || Prepares(c, app, m, e)
    then e.pushed else []
  }

  // ----- one turn -----

  lemma {:induction false} DevicePacketsAppend(a: seq<Output>, b: Output, c: seq<Output>)
    requires c == a + [b]
    ensures DevicePackets(c) == DevicePackets(a) + if b.ToThread? then [b.mail] else []
  {
    if a == [] {
      assert c[1..] == [];
    } else {
      assert c[0] == a[0];
      DevicePacketsAppend(a[1..], b, c[1..]);
    }
  }

  lemma {:induction false} AppMessagesAppend(a: seq<Output>, b: Output, c: seq<Output>)
    requires c == a + [b]
    ensures AppMessages(c) == AppMessages(a) + if b.ToHost? then [b.app] else []
  {
    if a == [] {
      assert c[1..] == [];
    } else {
      assert c[0] == a[0];
      AppMessagesAppend(a[1..], b, c[1..]);
    }
  }

  lemma {:induction false} RingMessagesAppend(a: seq<Output>, b: Output, c: seq<Output>)
    requires c == a + [b]
    ensures RingMessages(c) == RingMessages(a) + if b.HostPacket? || b.HostUart? then [b.msg] else []
  {
    if a == [] {
      assert c[1..] == [];
    } else {
      assert c[0] == a[0];
      RingMessagesAppend(a[1..], b, c[1..]);
    }
  }

  lemma PacketsAppend(a: seq<Output>, b: Output, c: seq<Output>)
    requires c == a + [b]
    ensures DevicePackets(c) == DevicePackets(a) + if b.ToThread? then [b.mail] else []
    ensures AppMessages(c) == AppMessages(a) + if b.ToHost? then [b.app] else []
    ensures RingMessages(c) == RingMessages(a) + if b.HostPacket? || b.HostUart? then [b.msg] else []
  {
    DevicePacketsAppend(a, b, c);
    AppMessagesAppend(a, b, c);
    RingMessagesAppend(a, b, c);
  }

  /** The accounts of a turn: sent so far plus still to send. */
  ghost predicate Sends(m: Main, m': Main, packets: seq<Mail>, messages: seq<HostMsg>) {
    && DevicePackets(m'.out) + Remaining(m') == DevicePackets(m.out) + Remaining(m) + packets
    && AppMessages(m'.out) == AppMessages(m.out) + messages
  }

  lemma MakeSpaceSends(m: Main)
    ensures Sends(m, MakeSpace(m), [], [])
    ensures RingMessages(MakeSpace(m).out) + MakeSpace(m).host == RingMessages(m.out) + m.host
    ensures MakeSpace(m).sched == m.sched && MakeSpace(m).todo == m.todo && MakeSpace(m).targets == m.targets
    ensures m.host == [] ==> MakeSpace(m) == m
    ensures |MakeSpace(m).host| <= |m.host|
  {
    if m.host != [] {
      PacketsAppend(m.out, HostUart(m.host[0]), m.out + [HostUart(m.host[0])]);
      assert m.host == [m.host[0]] + m.host[1..];
    }
  }

  lemma SendHostPacketSends(m: Main)
    ensures Sends(m, SendHostPacket(m), [], [])
    ensures RingMessages(SendHostPacket(m).out) + SendHostPacket(m).host == RingMessages(m.out) + m.host
  {
    if m.host != [] {
      PacketsAppend(m.out, HostPacket(m.host[0]), m.out + [HostPacket(m.host[0])]);
      assert m.host == [m.host[0]] + m.host[1..];
    }
  }

  lemma ForwardSends(m: Main)
    requires m.todo > 0 && (m.isApp || m.targets != [])
    ensures Forward(m).Ok?
    ensures var m' := Forward(m).value;
            && m'.host == m.host && RingMessages(m'.out) == RingMessages(m.out)
            && Sends(m, m', [], if m.isApp then [HostMsg(m.buffer.source, m.buffer.kind, m.buffer.payload)] else [])
  {
    var m' := Forward(m).value;
    PacketsAppend(m.out, m'.out[|m.out|], m'.out);
    if !m.isApp {
      var packet := Packet(m.targets[0], m.buffer.source, m.buffer.payload);
      assert Remaining(m) == [Mail(m.targets[0].thread, packet)] + Remaining(m');
    }
  }

  lemma PrepareSends(c: Config, app: App, m: Main, e: Inputs)
    requires WellFormed(app) && MainInv(app, m) && m.todo == 0
    ensures Prepare(c, app, m, e).Ok? && OnSend(app, c.thread, m.sched).Ok?
    ensures var m' := Prepare(c, app, m, e).value;
            var sent := OnSend(app, c.thread, m.sched).value.1;
            && m'.out == m.out && m'.host == PushAll(m.host, e.pushed)
            && (sent.Message? && sent.pin.isApp ==>
                  m'.isApp && m'.todo == 1 && m'.targets == [] &&
                  m'.buffer == Buffer(sent.source, sent.pin.kind, sent.payload))
            && (sent.Message? && !sent.pin.isApp ==>
                  !m'.isApp && m'.todo == |m'.targets| &&
                  Remaining(m') == PacketsTo(sent.pin.targets, sent.source, sent.payload))
            && (!sent.Message? ==> m'.todo == 0 && m'.targets == [])
  {
    SendKeepsInv(app, c.thread, m.sched);
  }

  /** Sending on at once, if there is anything to send. */
  function SentOn(m: Main): Outcome<Main> {
    if m.todo > 0 then Forward(m) else Ok(m)
  }

  lemma DeviceMessageSends(m: Main, m1: Main, call: Call)
    requires m1.out == m.out && Remaining(m) == [] && !call.pin.isApp
    requires !m1.isApp && m1.todo == |m1.targets| && Remaining(m1) == CallPackets(call)
    ensures SentOn(m1).Ok? && SentOn(m1).value.host == m1.host
    ensures RingMessages(SentOn(m1).value.out) == RingMessages(m1.out)
    ensures Sends(m, SentOn(m1).value, CallPackets(call), CallMessages(call))
  {
    if m1.todo > 0 { ForwardSends(m1); }
  }

  lemma AppMessageSends(m: Main, m1: Main, call: Call)
    requires m1.out == m.out && Remaining(m) == [] && call.pin.isApp
    requires m1.isApp && m1.todo == 1 && m1.targets == []
    requires m1.buffer == Buffer(call.source, call.pin.kind, call.payload)
    ensures SentOn(m1).Ok? && SentOn(m1).value.host == m1.host
    ensures RingMessages(SentOn(m1).value.out) == RingMessages(m1.out)
    ensures Sends(m, SentOn(m1).value, CallPackets(call), CallMessages(call))
  {
    ForwardSends(m1);
  }

  lemma PrepareAndForwardSends(c: Config, app: App, m: Main, e: Inputs)
    requires WellFormed(app) && MainInv(app, m) && m.todo == 0
    ensures OnSend(app, c.thread, m.sched).Ok?
    ensures var m' := SendNext(c, app, m, e);
            var sent := OnSend(app, c.thread, m.sched).value.1;
            m'.Ok? && m'.value.host == PushAll(m.host, e.pushed) && RingMessages(m'.value.out) == RingMessages(m.out) &&
            if sent.Message?
            then Sends(m, m'.value, CallPackets(Call(sent.source, sent.pin, sent.payload)),
                       CallMessages(Call(sent.source, sent.pin, sent.payload)))
            else Sends(m, m'.value, [], [])
  {
    PrepareSends(c, app, m, e);
    var m1 := Prepare(c, app, m, e).value;
    var sent := OnSend(app, c.thread, m.sched).value.1;
    assert SendNext(c, app, m, e) == SentOn(m1);
    assert Remaining(m) == [];
    if sent.Message? {
      var call := Call(sent.source, sent.pin, sent.payload);
      if call.pin.isApp { AppMessageSends(m, m1, call); } else { DeviceMessageSends(m, m1, call); }
    }
  }

  function PacketsOf(calls: seq<Call>): seq<Mail> {
    if calls == [] then [] else CallPackets(calls[0]) + PacketsOf(calls[1..])
  }

  function MessagesOf(calls: seq<Call>): seq<HostMsg> {
    if calls == [] then [] else CallMessages(calls[0]) + MessagesOf(calls[1..])
  }

  /** Host messages that have left, followed by those pending. */
  function HostAccount(m: Main): seq<HostMsg> {
    RingMessages(m.out) + m.host
  }

  /** Messages pushed when this many were pending: all kept, in order, if they fit, and fewer left if not. */
  ghost predicate HostKept(m: Main, m': Main, pending: seq<HostMsg>, pushed: seq<HostMsg>) {
    && (|pending| + |pushed| <= CAPACITY ==> HostAccount(m') == HostAccount(m) + pushed)
    && (|pending| + |pushed| > CAPACITY ==> |HostAccount(m')| < |HostAccount(m)| + |pushed|)
  }

  /** The accounts of a turn. */
  ghost predicate Accounts(m: Main, m': Main, calls: seq<Call>, pending: seq<HostMsg>, pushed: seq<HostMsg>) {
    Sends(m, m', PacketsOf(calls), MessagesOf(calls)) && HostKept(m, m', pending, pushed)
  }

  lemma PushesAccount(m: Main, m1: Main, m2: Main, pushed: seq<HostMsg>)
    requires HostAccount(m1) == HostAccount(m) && |m1.host| <= CAPACITY
    requires RingMessages(m2.out) == RingMessages(m1.out) && m2.host == PushAll(m1.host, pushed)
    ensures HostKept(m, m2, m1.host, pushed)
  {
    PushesKept(m1.host, pushed);
    assert RingMessages(m1.out) + (m1.host + pushed) == HostAccount(m1) + pushed;
  }

  lemma NothingPushed(m: Main, m': Main, pending: seq<HostMsg>)
    requires HostAccount(m') == HostAccount(m) && |pending| <= CAPACITY
    ensures HostKept(m, m', pending, [])
  {
  }

  lemma AfterHandlerAccounts(m: Main, m1: Main, sched: Sched, pushed: seq<HostMsg>)
    requires Sends(m, m1, [], []) && HostAccount(m1) == HostAccount(m) && |m1.host| <= CAPACITY
    ensures Accounts(m, AfterHandler(m1, sched, pushed), [], m1.host, pushed)
  {
    var m2 := AfterHandler(m1, sched, pushed);
    assert Remaining(m2) == Remaining(m1);
    PushesAccount(m, m1, m2, pushed);
  }

  lemma ContinueAccounts(c: Config, app: App, m: Main, e: Inputs)
    requires Shaped(app, m) && m.todo > 0 && !m.isApp && m.targets != [] && |m.host| <= CAPACITY
    ensures SendNext(c, app, m, e).Ok?
    ensures Accounts(m, SendNext(c, app, m, e).value, [], m.host, [])
  {
    ForwardSends(m);
    NothingPushed(m, SendNext(c, app, m, e).value, m.host);
  }

  lemma NewMessageAccounts(c: Config, app: App, m: Main, e: Inputs)
    requires WellFormed(app) && MainInv(app, m) && m.todo == 0
    ensures SendNext(c, app, m, e).Ok? && OnSend(app, c.thread, m.sched).Ok?
    ensures var sent := OnSend(app, c.thread, m.sched).value.1;
            Accounts(m, SendNext(c, app, m, e).value,
                     if sent.Message? then [Call(sent.source, sent.pin, sent.payload)] else [], m.host, e.pushed)
  {
    PrepareAndForwardSends(c, app, m, e);
    PushesAccount(m, m, SendNext(c, app, m, e).value, e.pushed);
    var sent := OnSend(app, c.thread, m.sched).value.1;
    if sent.Message? {
      OneCall(Call(sent.source, sent.pin, sent.payload));
    }
  }

  lemma SendNextAccounts(c: Config, app: App, m: Main, e: Inputs)
    requires WellFormed(app) && MainInv(app, m) && m.host == []
    requires !RunsIdle(app, m, e) && !(!WantToSend(m) && e.systemIdle)
    requires !PrefersRecv(c, m, e) && WantToSend(m) && e.canSendAfter
    ensures SendNext(c, app, m, e).Ok?
    ensures Accounts(m, SendNext(c, app, m, e).value, CallOf(c, app, m, e), m.host, PushedIn(c, app, m, e))
  {
    if m.todo == 0 {
      NewMessageAccounts(c, app, m, e);
    } else {
      ContinueAccounts(c, app, m, e);
    }
  }

  lemma OneCall(call: Call)
    ensures PacketsOf([call]) == CallPackets(call) && MessagesOf([call]) == CallMessages(call)
  {
    assert [call][1..] == [];
  }

  lemma SendHostAccounts(m: Main)
    requires |m.host| <= CAPACITY
    ensures Accounts(m, SendHostPacket(MakeSpace(m)), [], MakeSpace(m).host, [])
  {
    MakeSpaceSends(m);
    SendHostPacketSends(MakeSpace(m));
    NothingPushed(m, SendHostPacket(MakeSpace(m)), MakeSpace(m).host);
  }

  lemma TransferAccounts(c: Config, app: App, m: Main, e: Inputs)
    requires WellFormed(app) && MainInv(app, m) && InputsOk(app, m, e) && (WantToSend(m) || e.canRecvAfter)
    requires !RunsIdle(app, m, e) && !(!WantToSend(m) && e.systemIdle) && Transfer(c, app, m, e).Ok?
    ensures Accounts(m, Transfer(c, app, m, e).value, CallOf(c, app, m, e), MakeSpace(m).host, PushedIn(c, app, m, e))
  {
    MakeSpaceSends(m);
    var m1 := MakeSpace(m);
    if PrefersRecv(c, m, e) {
      AfterHandlerAccounts(m, m1, CheckedReceive(app, c.asserts, m1.sched, e.packet).value, e.pushed);
    } else if m.host != [] {
      SendHostAccounts(m);
    } else {
      SendNextAccounts(c, app, m, e);
    }
  }

  /** The host messages pending when a turn's handler pushes its own: only receiving and sending drain first. */
  function PendingAt(app: App, m: Main, e: Inputs): seq<HostMsg>
    requires Shaped(app, m)
  {
    if RunsIdle(app, m, e) || (!WantToSend(m) && e.systemIdle) then m.host else MakeSpace(m).host
  }

  lemma IterateAccounts(c: Config, app: App, m: Main, e: Inputs)
    requires WellFormed(app) && MainInv(app, m) && InputsOk(app, m, e) && Iterate(c, app, m, e).Ok?
    ensures Accounts(m, Iterate(c, app, m, e).value, CallOf(c, app, m, e), PendingAt(app, m, e), PushedIn(c, app, m, e))
  {
    if RunsIdle(app, m, e) {
      AfterHandlerAccounts(m, m, CheckedIdle(app, c.asserts, m.sched).value.1, e.pushed);
    } else if !WantToSend(m) && e.systemIdle {
      AfterHandlerAccounts(m, m, OnHardwareIdle(app, m.sched).value, e.pushed);
    } else {
      TransferAccounts(c, app, m, e);
    }
  }

  /** The ring has room for what the handler of this turn pushes. */
  predicate Room(c: Config, app: App, m: Main, e: Inputs)
    requires Shaped(app, m)
  {
    |PendingAt(app, m, e)| + |PushedIn(c, app, m, e)| <= CAPACITY
  }

  /** A turn keeps every host message, and their order, exactly when there is room. */
  lemma TurnKeepsHostMessages(c: Config, app: App, m: Main, e: Inputs)
    requires WellFormed(app) && MainInv(app, m) && InputsOk(app, m, e) && Iterate(c, app, m, e).Ok?
    ensures HostAccount(Iterate(c, app, m, e).value) == HostAccount(m) + PushedIn(c, app, m, e) <==> Room(c, app, m, e)
    ensures !Room(c, app, m, e) ==>
              |HostAccount(Iterate(c, app, m, e).value)| < |HostAccount(m)| + |PushedIn(c, app, m, e)|
  {
    IterateAccounts(c, app, m, e);
  }

  /** In a turn that pushes no more than MAX_HOST_PER_HANDLER messages there are these ways to lose some: an idle
      handler, before which the adequacy test is not made, pushing beyond the capacity; and a receive handler pushing
      two with exactly 38 pending. A hardware-idle pass starts with none pending, so it loses some only when its many
      handlers push more than 39 between them. */
  lemma RoomForHandlers(c: Config, app: App, m: Main, e: Inputs)
    requires Shaped(app, m) && |m.host| <= CAPACITY && |e.pushed| <= MAX_HOST_PER_HANDLER
    ensures Room(c, app, m, e) <==>
              !(RunsIdle(app, m, e) && |m.host| + |e.pushed| > CAPACITY)
              && !(Receives(c, app, m, e) && |e.pushed| == 2 && |MakeSpace(m).host| == 38)
  {
  }

  // ----- every run -----

  /** The state in which softswitch_main enters its loop, when the init handlers have pushed these host messages. */
  ghost function Started(app: App, boot: Sched, buffer: Buffer, pushed: seq<HostMsg>): (m: Main)
    requires Boot(app, boot)
    ensures MainInv(app, m)
  {
    InitEstablishesInv(app, boot);
    PushesKept([], pushed);
    Main(Init(app, boot), PushAll([], pushed), 0, [], false, buffer, [])
  }

  /** Nothing is drained while the init handlers run: their messages are all kept exactly when they fit. */
  lemma StartKeepsHostMessages(app: App, boot: Sched, buffer: Buffer, pushed: seq<HostMsg>)
    requires Boot(app, boot)
    ensures HostAccount(Started(app, boot, buffer, pushed)) == pushed <==> |pushed| <= CAPACITY
  {
    PushesKept([], pushed);
    assert [] + pushed == pushed;
    assert HostAccount(Started(app, boot, buffer, pushed)) == [] + PushAll([], pushed);
  }

  /** Turns in which the hardware behaves; a run ends at the first failed assertion. */
  ghost predicate GoodRun(c: Config, app: App, m: Main, turns: seq<Inputs>)
    requires WellFormed(app) && MainInv(app, m)
    decreases |turns|
  {
    turns == [] ||
    (InputsOk(app, m, turns[0]) && Iterate(c, app, m, turns[0]).Ok? &&
     GoodRun(c, app, Turn(c, app, m, turns[0]), turns[1..]))
  }

  ghost function Turn(c: Config, app: App, m: Main, e: Inputs): (m': Main)
    requires WellFormed(app) && MainInv(app, m) && InputsOk(app, m, e) && Iterate(c, app, m, e).Ok?
    ensures MainInv(app, m')
  {
    IterateKeepsInv(c, app, m, e);
    Iterate(c, app, m, e).value
  }

  /** The state after a run. */
  ghost function Run(c: Config, app: App, m: Main, turns: seq<Inputs>): (m': Main)
    requires WellFormed(app) && MainInv(app, m) && GoodRun(c, app, m, turns)
    ensures MainInv(app, m')
    decreases |turns|
  {
    if turns == [] then m else Run(c, app, Turn(c, app, m, turns[0]), turns[1..])
  }

  /** The successful send-handler calls of a run, in order. */
  ghost function Calls(c: Config, app: App, m: Main, turns: seq<Inputs>): seq<Call>
    requires WellFormed(app) && MainInv(app, m) && GoodRun(c, app, m, turns)
    decreases |turns|
  {
    if turns == [] then []
    else CallOf(c, app, m, turns[0]) + Calls(c, app, Turn(c, app, m, turns[0]), turns[1..])
  }

  /** The host messages pushed during a run, in order. */
  ghost function Pushed(c: Config, app: App, m: Main, turns: seq<Inputs>): seq<HostMsg>
    requires WellFormed(app) && MainInv(app, m) && GoodRun(c, app, m, turns)
    decreases |turns|
  {
    if turns == [] then []
    else PushedIn(c, app, m, turns[0]) + Pushed(c, app, Turn(c, app, m, turns[0]), turns[1..])
  }

  lemma {:induction false} PacketsOfConcat(a: seq<Call>, b: seq<Call>)
    ensures PacketsOf(a + b) == PacketsOf(a) + PacketsOf(b)
  {
    if a == [] {
      assert a + b == b;
    } else {
      assert (a + b)[1..] == a[1..] + b;
      PacketsOfConcat(a[1..], b);
    }
  }

  lemma {:induction false} MessagesOfConcat(a: seq<Call>, b: seq<Call>)
    ensures MessagesOf(a + b) == MessagesOf(a) + MessagesOf(b)
  {
    if a == [] {
      assert a + b == b;
    } else {
      assert (a + b)[1..] == a[1..] + b;
      MessagesOfConcat(a[1..], b);
    }
  }

  lemma Chain<T>(out: seq<T>, out1: seq<T>, out2: seq<T>, first: seq<T>, rest: seq<T>)
    requires out1 == out + first && out2 == out1 + rest
    ensures out2 == out + (first + rest)
  {
  }

  lemma {:induction false} SendsChain(m: Main, m1: Main, m2: Main, first: seq<Call>, rest: seq<Call>)
    requires Sends(m, m1, PacketsOf(first), MessagesOf(first)) && Sends(m1, m2, PacketsOf(rest), MessagesOf(rest))
    ensures Sends(m, m2, PacketsOf(first + rest), MessagesOf(first + rest))
  {
    Chain(DevicePackets(m.out) + Remaining(m), DevicePackets(m1.out) + Remaining(m1),
          DevicePackets(m2.out) + Remaining(m2), PacketsOf(first), PacketsOf(rest));
    Chain(AppMessages(m.out), AppMessages(m1.out), AppMessages(m2.out), MessagesOf(first), MessagesOf(rest));
    PacketsOfConcat(first, rest);
    MessagesOfConcat(first, rest);
  }

  lemma {:induction false} RunSends(c: Config, app: App, m: Main, turns: seq<Inputs>)
    requires WellFormed(app) && MainInv(app, m) && GoodRun(c, app, m, turns)
    ensures var calls := Calls(c, app, m, turns);
            Sends(m, Run(c, app, m, turns), PacketsOf(calls), MessagesOf(calls))
    decreases |turns|
  {
    if turns != [] {
      var m1 := Turn(c, app, m, turns[0]);
      IterateAccounts(c, app, m, turns[0]);
      RunSends(c, app, m1, turns[1..]);
      SendsChain(m, m1, Run(c, app, m1, turns[1..]), CallOf(c, app, m, turns[0]), Calls(c, app, m1, turns[1..]));
    }
  }

  /** Multicast exactly once. Starting with nothing half sent, the packets sent so far, followed by those still to
      send of the current message, are the target lists of all successful send-handler calls, in order, each given
      for the thread of its target and with its own call's source and payload; application messages have gone to the
      host once each. */
  lemma {:induction false} MulticastExactlyOnce(c: Config, app: App, m: Main, turns: seq<Inputs>)
    requires WellFormed(app) && MainInv(app, m) && GoodRun(c, app, m, turns) && m.targets == [] && m.out == []
    ensures var m' := Run(c, app, m, turns);
            var calls := Calls(c, app, m, turns);
            && DevicePackets(m'.out) + Remaining(m') == PacketsOf(calls)
            && AppMessages(m'.out) == MessagesOf(calls)
            && (m'.todo == 0 ==> DevicePackets(m'.out) == PacketsOf(calls))
  {
    RunSends(c, app, m, turns);
  }

  lemma ReceivingKeepsMessage(c: Config, app: App, m: Main, e: Inputs)
    requires Shaped(app, m) && MainLoop.Receive(c, app, MakeSpace(m), e).Ok?
    ensures var m' := MainLoop.Receive(c, app, MakeSpace(m), e).value;
            && m'.buffer == m.buffer && m'.todo == m.todo && m'.targets == m.targets
            && DevicePackets(m'.out) == DevicePackets(m.out) && AppMessages(m'.out) == AppMessages(m.out)
  {
    if m.host != [] { PacketsAppend(m.out, HostUart(m.host[0]), m.out + [HostUart(m.host[0])]); }
  }

  lemma HostSendKeepsMessage(m: Main)
    requires m.host != []
    ensures var m' := SendHostPacket(MakeSpace(m));
            && m'.sched == m.sched && m'.buffer == m.buffer && m'.todo == m.todo && m'.targets == m.targets
            && DevicePackets(m'.out) == DevicePackets(m.out) && AppMessages(m'.out) == AppMessages(m.out)
  {
    var m1 := MakeSpace(m);
    PacketsAppend(m.out, HostUart(m.host[0]), m.out + [HostUart(m.host[0])]);
    if m1.host != [] { PacketsAppend(m1.out, HostPacket(m1.host[0]), m1.out + [HostPacket(m1.host[0])]); }
  }

  /** The turn sends what the buffer holds to the next address on the list, and does nothing else. */
  ghost predicate ForwardsOne(m: Main, m': Main) {
    && m.targets != [] && m'.targets == m.targets[1..] && m'.sched == m.sched && m'.host == m.host
    && m'.out == m.out + [ToThread(Mail(m.targets[0].thread, Packet(m.targets[0], m.buffer.source, m.buffer.payload)))]
  }

  /** While a message is half sent a turn leaves it alone, buffer and remaining addresses, and sends no device packet
      or application message; or it sends that very message to its next address and runs no handler. No new message
      is prepared. */
  lemma HalfSentMessageGoesOn(c: Config, app: App, m: Main, e: Inputs)
    requires WellFormed(app) && MainInv(app, m) && InputsOk(app, m, e) && Iterate(c, app, m, e).Ok?
    requires m.todo > 0
    ensures var m' := Iterate(c, app, m, e).value;
            && m'.buffer == m.buffer
            && (ForwardsOne(m, m')
                || (m'.todo == m.todo && m'.targets == m.targets
                    && DevicePackets(m'.out) == DevicePackets(m.out) && AppMessages(m'.out) == AppMessages(m.out)))
            && (!RunsIdle(app, m, e) && !Receives(c, app, m, e) ==> m'.sched == m.sched)
  {
    if !RunsIdle(app, m, e) {
      if PrefersRecv(c, m, e) {
        ReceivingKeepsMessage(c, app, m, e);
      } else if m.host != [] {
        HostSendKeepsMessage(m);
      }
    }
  }

  /** In every turn the ring has room for what the handler pushes. */
  ghost predicate RoomThroughout(c: Config, app: App, m: Main, turns: seq<Inputs>)
    requires WellFormed(app) && MainInv(app, m) && GoodRun(c, app, m, turns)
    decreases |turns|
  {
    turns == [] ||
    (Room(c, app, m, turns[0]) && RoomThroughout(c, app, Turn(c, app, m, turns[0]), turns[1..]))
  }

  lemma HostChain(a: seq<HostMsg>, a1: seq<HostMsg>, a2: seq<HostMsg>, first: seq<HostMsg>, rest: seq<HostMsg>)
    requires |a1| <= |a| + |first| && |a2| <= |a1| + |rest|
    requires a1 != a + first ==> |a1| < |a| + |first|
    requires a2 != a1 + rest ==> |a2| < |a1| + |rest|
    ensures a2 == a + (first + rest) <==> a1 == a + first && a2 == a1 + rest
    ensures a2 != a + (first + rest) ==> |a2| < |a| + |first + rest|
  {
    if a1 == a + first && a2 == a1 + rest { Chain(a, a1, a2, first, rest); }
  }

  /** Over any run, the host messages that have left, followed by those pending, are those pushed, in order and once
      each, exactly when the ring had room in every turn; a lost message is never made up for. */
  lemma {:induction false} HostMessagesInOrder(c: Config, app: App, m: Main, turns: seq<Inputs>)
    requires WellFormed(app) && MainInv(app, m) && GoodRun(c, app, m, turns)
    ensures HostAccount(Run(c, app, m, turns)) == HostAccount(m) + Pushed(c, app, m, turns)
            <==> RoomThroughout(c, app, m, turns)
    ensures !RoomThroughout(c, app, m, turns) ==>
              |HostAccount(Run(c, app, m, turns))| < |HostAccount(m)| + |Pushed(c, app, m, turns)|
    decreases |turns|
  {
    if turns != [] {
      var m1 := Turn(c, app, m, turns[0]);
      TurnKeepsHostMessages(c, app, m, turns[0]);
      HostMessagesInOrder(c, app, m1, turns[1..]);
      HostChain(HostAccount(m), HostAccount(m1), HostAccount(Run(c, app, m1, turns[1..])),
                PushedIn(c, app, m, turns[0]), Pushed(c, app, m1, turns[1..]));
    }
  }

  /** The same from power-up, counting what the init handlers pushed. */
  lemma {:induction false} HostMessagesFromPowerUp(
      c: Config, app: App, boot: Sched, buffer: Buffer, pushed: seq<HostMsg>, turns: seq<Inputs>)
    requires WellFormed(app) && Boot(app, boot) && GoodRun(c, app, Started(app, boot, buffer, pushed), turns)
    ensures var m := Started(app, boot, buffer, pushed);
            HostAccount(Run(c, app, m, turns)) == pushed + Pushed(c, app, m, turns)
            <==> |pushed| <= CAPACITY && RoomThroughout(c, app, m, turns)
  {
    var m := Started(app, boot, buffer, pushed);
    StartKeepsHostMessages(app, boot, buffer, pushed);
    HostMessagesInOrder(c, app, m, turns);
    assert HostAccount(m) == [] + m.host;
    assert [] + (pushed + Pushed(c, app, m, turns)) == pushed + Pushed(c, app, m, turns);
    assert [] + pushed == pushed;
    HostChain([], HostAccount(m), HostAccount(Run(c, app, m, turns)), pushed, Pushed(c, app, m, turns));
  }

  // ----- a half-sent message is finished -----

  /** A turn sends: it goes past the idle search and does not receive. */
  predicate SendingTurn(c: Config, app: App, m: Main, e: Inputs)
    requires Shaped(app, m)
  {
    !RunsIdle(app, m, e) && !Receives(c, app, m, e)
  }

  /** What has to be sent before a half-sent message is finished: host messages go first. */
  function Outstanding(m: Main): nat {
    m.todo + |m.host|
  }

  lemma PushesGrow(pending: seq<HostMsg>, msgs: seq<HostMsg>)
    requires |pending| <= CAPACITY
    ensures |PushAll(pending, msgs)| <= |pending| + |msgs|
  {
    PushesKept(pending, msgs);
  }

  lemma SendingTurnLowers(c: Config, app: App, m: Main, e: Inputs)
    requires WellFormed(app) && MainInv(app, m) && InputsOk(app, m, e) && Iterate(c, app, m, e).Ok? && m.todo > 0
    ensures Outstanding(Iterate(c, app, m, e).value) + (if SendingTurn(c, app, m, e) then 1 else 0)
         <= Outstanding(m) + |PushedIn(c, app, m, e)|
  {
    if RunsIdle(app, m, e) {
      PushesGrow(m.host, e.pushed);
    } else if PrefersRecv(c, m, e) {
      PushesGrow(MakeSpace(m).host, e.pushed);
    }
  }

  /** The message in the buffer stays half sent through a run. */
  ghost predicate HalfSentThrough(c: Config, app: App, m: Main, turns: seq<Inputs>)
    requires WellFormed(app) && MainInv(app, m) && GoodRun(c, app, m, turns)
    decreases |turns|
  {
    m.todo > 0 && (turns == [] || HalfSentThrough(c, app, Turn(c, app, m, turns[0]), turns[1..]))
  }

  ghost function SendingTurns(c: Config, app: App, m: Main, turns: seq<Inputs>): nat
    requires WellFormed(app) && MainInv(app, m) && GoodRun(c, app, m, turns)
    decreases |turns|
  {
    if turns == [] then 0
    else (if SendingTurn(c, app, m, turns[0]) then 1 else 0)
         + SendingTurns(c, app, Turn(c, app, m, turns[0]), turns[1..])
  }

  /** A half-sent message is finished: as long as it is not, the sending turns number fewer than the addresses left
      when counting began, the host messages pending then, and those that handlers push meanwhile. */
  lemma {:induction false} HalfSentMessageIsFinished(c: Config, app: App, m: Main, turns: seq<Inputs>)
    requires WellFormed(app) && MainInv(app, m) && GoodRun(c, app, m, turns) && HalfSentThrough(c, app, m, turns)
    ensures SendingTurns(c, app, m, turns) + Outstanding(Run(c, app, m, turns))
         <= Outstanding(m) + |Pushed(c, app, m, turns)|
    ensures SendingTurns(c, app, m, turns) < |m.targets| + |m.host| + |Pushed(c, app, m, turns)|
    decreases |turns|
  {
    if turns != [] {
      SendingTurnLowers(c, app, m, turns[0]);
      HalfSentMessageIsFinished(c, app, Turn(c, app, m, turns[0]), turns[1..]);
    }
  }
}

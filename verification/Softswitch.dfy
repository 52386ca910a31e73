/** The main loop on the heap: one turn, and any number of turns, of softswitch_main over a thread's context and
    its host ring, proved to compute what MainLoop says. */
module Softswitch {
  import opened Outcomes
  import opened Devices
  import opened HostRing
  import opened Scheduler
  import opened SchedulerProofs
  import opened ThreadContext
  import opened MainLoop
  import opened MainProofs
  import opened Multicast

  lemma DrainedIs(host: seq<HostMsg>, drained: seq<HostMsg>, left: seq<HostMsg>)
    requires host == drained + left && |drained| <= 1
    ensures drained == [] ==> left == host
    ensures drained != [] ==> host != [] && drained[0] == host[0] && left == host[1..]
  {
  }

  class Softswitch {
    const config: Config
    const ctxt: PThreadContext
    const hostBuffer: HostBuffer
    var currSendTodo: nat
    /** The addresses the message in the send buffer has still to go to. */
    var currSendAddressList: seq<Address>
    var isApp: bool
    var sendBuffer: Buffer
    /** Everything given to the mailbox or the UART. */
    var out: seq<Output>

    ghost predicate Valid()
      reads this, ctxt, ctxt.devices, hostBuffer, hostBuffer.buff
    {
      ctxt.Valid() && hostBuffer.Valid() && config.thread == ctxt.threadId && config.asserts == ctxt.asserts
    }

    ghost function View(): Main
      requires hostBuffer.Valid()
      reads this, ctxt`model, hostBuffer, hostBuffer.buff
    {
      Main(ctxt.model, hostBuffer.Contents(), currSendTodo, currSendAddressList, isApp, sendBuffer, out)
    }

    /** What softswitch_main does before its loop: the host ring is there already when the init handlers run. */
    constructor (ctxt: PThreadContext, sendOverRecv: bool, sendBuffer: Buffer, pushed: seq<HostMsg>)
      requires ctxt.Valid() && Boot(ctxt.app, ctxt.model)
      modifies ctxt, ctxt.devices
      ensures this.ctxt == ctxt && config == Config(ctxt.threadId, sendOverRecv, ctxt.asserts)
      ensures fresh(hostBuffer) && fresh(hostBuffer.buff)
      ensures Valid() && View() == Started(ctxt.app, old(ctxt.model), sendBuffer, pushed)
      ensures MainInv(ctxt.app, View())
    {
      this.config, this.ctxt, this.sendBuffer := Config(ctxt.threadId, sendOverRecv, ctxt.asserts), ctxt, sendBuffer;
      hostBuffer := new HostBuffer();
      currSendTodo, currSendAddressList, isApp, out := 0, [], false, [];
      new;
      InitEstablishesInv(ctxt.app, ctxt.model);
      ctxt.Init();
      PushMessages(pushed);
    }

    /** A handler of the application pushes its host messages. */
    method PushMessages(pushed: seq<HostMsg>)
      requires Valid()
      modifies hostBuffer`tail, hostBuffer.buff
      ensures Valid() && View() == old(View()).(host := PushAll(old(View()).host, pushed))
    {
      for i := 0 to |pushed|
        invariant Valid()
        invariant PushAll(old(View()).host, pushed) == PushAll(hostBuffer.Contents(), pushed[i..])
      {
        hostBuffer.Push(pushed[i]);
      }
    }

    method IsWantingToSend() returns (wantToSend: bool)
      requires Valid()
      ensures wantToSend == WantToSend(View())
    {
      var size := hostBuffer.Size();
      var ready := ctxt.IsRTSReady();
      wantToSend := currSendTodo > 0 || ready || size > 0;
    }

    /** The idle search, when there is nothing to receive and nothing that could be sent. */
    method Idle(e: Inputs) returns (ok: bool, more: bool)
      requires Valid() && Inv(ctxt.app, ctxt.model)
      modifies ctxt, ctxt.devices, hostBuffer`tail, hostBuffer.buff
      ensures Valid()
      ensures ok <==> CheckedIdle(ctxt.app, config.asserts, old(ctxt.model)).Ok?
      ensures ok ==> more == CheckedIdle(ctxt.app, config.asserts, old(ctxt.model)).value.0
      ensures ok && more ==>
        View() == AfterHandler(old(View()), CheckedIdle(ctxt.app, config.asserts, old(ctxt.model)).value.1, e.pushed)
      ensures ok && !more ==> View() == old(View())
    {
      ok, more := ctxt.OnIdle();
      if ok && more {
        PushMessages(e.pushed);
      }
    }

    /** The assertions made before blocking. */
    method AllFlagsClear() returns (clear: bool)
      requires Valid()
      ensures clear <==> forall i | 0 <= i < |ctxt.model.devs| :: ctxt.model.devs[i].flags == 0
    {
      for i := 0 to |ctxt.devices|
        invariant forall j | 0 <= j < i :: ctxt.model.devs[j].flags == 0
      {
        assert ctxt.MirrorAt(i);
        if ctxt.devices[i].rtsFlags != 0 {
          return false;
        }
      }
      return true;
    }

    method HardwareIdle(e: Inputs) returns (ok: bool)
      requires Valid()
      modifies ctxt, ctxt.devices, hostBuffer`tail, hostBuffer.buff
      ensures Valid()
      ensures ok <==> Scheduler.OnHardwareIdle(ctxt.app, old(ctxt.model)).Ok?
      ensures ok ==>
        View() == AfterHandler(old(View()), Scheduler.OnHardwareIdle(ctxt.app, old(ctxt.model)).value, e.pushed)
    {
      ok := ctxt.OnHardwareIdle();
      if ok {
        PushMessages(e.pushed);
      }
    }

    /** Drain the host ring over the UART until there is adequate space. */
    method DrainForSpace()
      requires Valid()
      modifies this`out, hostBuffer`head
      ensures Valid() && View() == MainLoop.MakeSpace(old(View()))
    {
      ghost var host := hostBuffer.Contents();
      var drained := hostBuffer.MakeSpace();
      DrainedIs(host, drained, hostBuffer.Contents());
      if drained != [] {
        out := out + [HostUart(drained[0])];
      }
    }

    method ReceiveOne(e: Inputs) returns (ok: bool)
      requires Valid() && WellFormed(ctxt.app) && Inv(ctxt.app, ctxt.model)
      modifies ctxt, ctxt.devices, hostBuffer`tail, hostBuffer.buff
      ensures Valid()
      ensures ok <==> MainLoop.Receive(config, ctxt.app, old(View()), e).Ok?
      ensures ok ==> View() == MainLoop.Receive(config, ctxt.app, old(View()), e).value
    {
      ok := ctxt.OnReceive(e.packet);
      if ok {
        PushMessages(e.pushed);
      }
    }

    /** hostMessageBufferPopSend. */
    method SendHostMessage()
      requires Valid() && hostBuffer.Contents() != []
      modifies this`out, hostBuffer`head
      ensures Valid() && View() == MainLoop.SendHostPacket(old(View()))
    {
      var msg := hostBuffer.Pop();
      out := out + [HostPacket(msg)];
    }

    /** Set up the send buffer and the address list for a new message. */
    method Load(sent: Prepared)
      requires Valid()
      modifies this`currSendTodo, this`currSendAddressList, this`isApp, this`sendBuffer
      ensures Valid() && View() == Loaded(old(View()), sent)
    {
      currSendTodo, currSendAddressList := 0, [];
      match sent {
        case Nothing =>
        case Declined(payload) =>
          sendBuffer := sendBuffer.(payload := payload);
        case Message(source, pin, payload) =>
          isApp := pin.isApp;
          if isApp {
            currSendTodo := 1;
            sendBuffer := Buffer(source, pin.kind, payload);
          } else {
            currSendTodo, currSendAddressList := |pin.targets|, pin.targets;
            sendBuffer := sendBuffer.(source := source, payload := payload);
          }
      }
    }

    /** Run a send handler, which leaves its message in the send buffer. */
    method PrepareMessage(e: Inputs)
      requires Valid() && WellFormed(ctxt.app) && Inv(ctxt.app, ctxt.model)
      modifies this`currSendTodo, this`currSendAddressList, this`isApp, this`sendBuffer
      modifies ctxt, ctxt.devices, hostBuffer`tail, hostBuffer.buff
      ensures Valid() && MainLoop.Prepare(config, ctxt.app, old(View()), e) == Ok(View())
    {
      var sent := ctxt.OnSend();
      PushMessages(e.pushed);
      Load(sent);
    }

    /** Send the message in the buffer to its next address. */
    method ForwardMessage() returns (ok: bool)
      requires Valid() && currSendTodo > 0
      modifies this
      ensures Valid()
      ensures ok <==> MainLoop.Forward(old(View())).Ok?
      ensures ok ==> View() == MainLoop.Forward(old(View())).value
    {
      if isApp {
        out := out + [ToHost(HostMsg(sendBuffer.source, sendBuffer.kind, sendBuffer.payload))];
        currSendTodo := 0;
      } else if currSendAddressList == [] {
        return false;
      } else {
        var dest := currSendAddressList[0];
        out := out + [ToThread(Mail(dest.thread, Packet(dest, sendBuffer.source, sendBuffer.payload)))];
        currSendTodo := currSendTodo - 1;
        currSendAddressList := currSendAddressList[1..];
      }
      return true;
    }

    method SendOne(e: Inputs) returns (ok: bool)
      requires Valid() && WellFormed(ctxt.app) && Inv(ctxt.app, ctxt.model)
      modifies this, ctxt, ctxt.devices, hostBuffer`tail, hostBuffer.buff
      ensures Valid()
      ensures ok <==> MainLoop.SendNext(config, ctxt.app, old(View()), e).Ok?
      ensures ok ==> View() == MainLoop.SendNext(config, ctxt.app, old(View()), e).value
    {
      if currSendTodo == 0 {
        PrepareMessage(e);
      }
      ok := true;
      if currSendTodo > 0 {
        ok := ForwardMessage();
      }
    }

    method TransferOne(e: Inputs, wantToSend: bool, hostBufferEmpty: bool) returns (ok: bool)
      requires Valid() && WellFormed(ctxt.app) && Inv(ctxt.app, ctxt.model)
      requires wantToSend == WantToSend(View()) && hostBufferEmpty == (View().host == [])
      modifies this, ctxt, ctxt.devices, hostBuffer, hostBuffer.buff
      ensures Valid()
      ensures ok <==> MainLoop.Transfer(config, ctxt.app, old(View()), e).Ok?
      ensures ok ==> View() == MainLoop.Transfer(config, ctxt.app, old(View()), e).value
    {
      DrainForSpace();
      var doRecv := if config.sendOverRecv then !(e.canSendAfter && wantToSend) else e.canRecvAfter;
      if doRecv {
        if !e.canRecvAfter {
          return false;
        }
        ok := ReceiveOne(e);
      } else {
        if !e.canSendAfter || !wantToSend {
          return false;
        }
        if hostBufferEmpty {
          ok := SendOne(e);
        } else {
          SendHostMessage();
          ok := true;
        }
      }
    }

    /** The turn up to the wait: whether it met its assertions, and whether it is over. */
    method TryIdle(e: Inputs, wantToSend: bool) returns (ok: bool, done: bool)
      requires Valid() && MainInv(ctxt.app, View()) && wantToSend == WantToSend(View())
      modifies ctxt, ctxt.devices, hostBuffer`tail, hostBuffer.buff
      ensures Valid()
      ensures RunsIdle(ctxt.app, old(View()), e) <==> !ok || done
      ensures !ok ==> MainLoop.Iterate(config, ctxt.app, old(View()), e) == AssertFailed
      ensures ok && done ==> MainLoop.Iterate(config, ctxt.app, old(View()), e) == Ok(View())
      ensures ok && !done ==> View() == old(View())
    {
      ok, done := true, false;
      if !e.canRecvBefore && (!wantToSend || !e.canSendBefore) {
        ok, done := Idle(e);
      }
    }

    /** One turn of the loop: false when an assertion fails. */
    method Turn(e: Inputs) returns (ok: bool)
      requires Valid() && WellFormed(ctxt.app) && MainInv(ctxt.app, View())
      modifies this, ctxt, ctxt.devices, hostBuffer, hostBuffer.buff
      ensures Valid()
      ensures ok <==> MainLoop.Iterate(config, ctxt.app, old(View()), e).Ok?
      ensures ok ==> View() == MainLoop.Iterate(config, ctxt.app, old(View()), e).value
    {
      var size := hostBuffer.Size();
      var wantToSend := IsWantingToSend();
      var done;
      ok, done := TryIdle(e, wantToSend);
      if ok && !done {
        ok := Block(e, wantToSend, size == 0);
      }
    }

    /** The turn from the wait on. */
    method Block(e: Inputs, wantToSend: bool, hostBufferEmpty: bool) returns (ok: bool)
      requires Valid() && WellFormed(ctxt.app) && MainInv(ctxt.app, View())
      requires wantToSend == WantToSend(View()) && hostBufferEmpty == (View().host == [])
      requires !RunsIdle(ctxt.app, View(), e)
      modifies this, ctxt, ctxt.devices, hostBuffer, hostBuffer.buff
      ensures Valid()
      ensures ok <==> MainLoop.Iterate(config, ctxt.app, old(View()), e).Ok?
      ensures ok ==> View() == MainLoop.Iterate(config, ctxt.app, old(View()), e).value
    {
      if config.asserts && !wantToSend {
        ok := AllFlagsClear();
        if !ok {
          return;
        }
      }
      if !wantToSend && e.systemIdle {
        ok := HardwareIdle(e);
      } else {
        ok := TransferOne(e, wantToSend, hostBufferEmpty);
      }
    }

    /** The loop, for as long as the hardware behaves and no assertion fails. */
    method Run(turns: seq<Inputs>)
      requires Valid() && WellFormed(ctxt.app) && MainInv(ctxt.app, View())
      requires GoodRun(config, ctxt.app, View(), turns)
      modifies this, ctxt, ctxt.devices, hostBuffer, hostBuffer.buff
      ensures Valid() && View() == Multicast.Run(config, ctxt.app, old(View()), turns)
    {
      ghost var end := Multicast.Run(config, ctxt.app, View(), turns);
      for i := 0 to |turns|
        invariant Valid() && MainInv(ctxt.app, View())
        invariant GoodRun(config, ctxt.app, View(), turns[i..])
        invariant end == Multicast.Run(config, ctxt.app, View(), turns[i..])
      {
        assert turns[i..][1..] == turns[i + 1..];
        var ok := Turn(turns[i]);
      }
    }
  }

  /** softswitch_main from power-up. Whatever is received, computed and drained in between, the packets given to the
      mailbox, each for the thread of its target, are the target lists of the successful send-handler calls, each
      whole, in order and once. */
  method SoftswitchMain(ctxt: PThreadContext, sendOverRecv: bool, sendBuffer: Buffer, pushed: seq<HostMsg>,
                        turns: seq<Inputs>)
    returns (s: Softswitch)
    requires ctxt.Valid() && WellFormed(ctxt.app) && Boot(ctxt.app, ctxt.model)
    requires GoodRun(Config(ctxt.threadId, sendOverRecv, ctxt.asserts), ctxt.app,
                     Started(ctxt.app, ctxt.model, sendBuffer, pushed), turns)
    modifies ctxt, ctxt.devices
    ensures fresh(s) && s.ctxt == ctxt && s.Valid() && MainInv(ctxt.app, s.View())
    ensures var calls := Calls(Config(ctxt.threadId, sendOverRecv, ctxt.asserts), ctxt.app,
                               Started(ctxt.app, old(ctxt.model), sendBuffer, pushed), turns);
            DevicePackets(s.out) + Remaining(s.View()) == PacketsOf(calls) && AppMessages(s.out) == MessagesOf(calls)
  {
    ghost var start := Started(ctxt.app, ctxt.model, sendBuffer, pushed);
    s := new Softswitch(ctxt, sendOverRecv, sendBuffer, pushed);
    s.Run(turns);
    MulticastExactlyOnce(s.config, ctxt.app, start, turns);
  }
}

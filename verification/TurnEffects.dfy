/** What a turn of the main loop does, case by case, in terms of its own inputs and the thread's own fields: which of
    computing, receiving and sending it does, in what order of preference, and everything it leaves behind. */
module TurnEffects {
  import opened Outcomes
  import opened Devices
  import opened HostRing
  import opened Scheduler
  import opened SchedulerProofs
  import opened MainLoop
  import opened MainProofs

  /** A message is half sent, a device is on the ready-to-send list, or a host message is pending. */
  ghost predicate HasToSend(m: Main) {
    m.todo > 0 || m.sched.queue != [] || m.host != []
  }

  /** Nothing to receive, nothing that could be sent now, and the compute search has not been all the way round. */
  ghost predicate Idles(app: App, m: Main, e: Inputs) {
    !e.canRecvBefore && (!HasToSend(m) || !e.canSendBefore) && m.sched.rtcChecked < |app|
  }

  /** The thread goes on to receive or send. */
  ghost predicate Transfers(app: App, m: Main, e: Inputs) {
    !Idles(app, m, e) && (HasToSend(m) || !e.systemIdle)
  }

  /** Receiving comes first, even while a message is half sent; with the build option, only when it cannot send. */
  ghost predicate ReceivesNow(c: Config, m: Main, e: Inputs) {
    if c.sendOverRecv then !e.canSendAfter || !HasToSend(m) else e.canRecvAfter
  }

  /** The thread with the oldest host message gone over the UART, if more than 38 are pending. */
  ghost function Drained(m: Main): Main {
    if |m.host| <= 38 then m else m.(host := m.host[1..], out := m.out + [HostUart(m.host[0])])
  }

  /** The conditions under which the other results of this project are stated. */
  lemma CasesAre(c: Config, app: App, m: Main, e: Inputs)
    requires MainInv(app, m)
    ensures WantToSend(m) <==> HasToSend(m)
    ensures RunsIdle(app, m, e) <==> Idles(app, m, e)
    ensures Receives(c, app, m, e) <==> Transfers(app, m, e) && ReceivesNow(c, m, e)
    ensures MakeSpace(m) == Drained(m)
  {
  }

  /** Idle work: one call of softswitch_onIdle, and nothing else. */
  lemma IdleTurn(c: Config, app: App, m: Main, e: Inputs)
    requires MainInv(app, m) && Idles(app, m, e) && Iterate(c, app, m, e).Ok?
    ensures Iterate(c, app, m, e).value
         == m.(sched := OnIdle(app, m.sched).1, host := PushAll(m.host, e.pushed))
  {
    IdleKeepsInv(app, c.asserts, m.sched);
  }

  /** The whole system is idle: the hardware-idle pass, and nothing else. */
  lemma HardwareIdleTurn(c: Config, app: App, m: Main, e: Inputs)
    requires MainInv(app, m) && Iterate(c, app, m, e).Ok?
    requires !Idles(app, m, e) && !HasToSend(m) && e.systemIdle
    ensures OnHardwareIdle(app, m.sched).Ok?
    ensures Iterate(c, app, m, e).value
         == m.(sched := OnHardwareIdle(app, m.sched).value, host := PushAll(m.host, e.pushed))
  {
  }

  /** A receive: the packet goes to softswitch_onReceive. A half-sent message, its buffer and its remaining addresses
      are as they were, and nothing is sent but at most one host message over the UART. */
  lemma ReceivingTurn(c: Config, app: App, m: Main, e: Inputs)
    requires MainInv(app, m) && Iterate(c, app, m, e).Ok?
    requires Transfers(app, m, e) && ReceivesNow(c, m, e)
    ensures e.canRecvAfter && OnReceive(app, m.sched, e.packet).Ok?
    ensures Iterate(c, app, m, e).value
         == Drained(m).(sched := OnReceive(app, m.sched, e.packet).value, host := PushAll(Drained(m).host, e.pushed))
  {
    ReceiveKeepsInv(app, c.asserts, m.sched, e.packet);
  }

  /** Sending, a pending host message comes first: the oldest goes out as a packet, and no handler runs. */
  lemma HostSendingTurn(c: Config, app: App, m: Main, e: Inputs)
    requires MainInv(app, m) && Iterate(c, app, m, e).Ok?
    requires Transfers(app, m, e) && !ReceivesNow(c, m, e) && m.host != []
    ensures e.canSendAfter && Drained(m).host != []
    ensures Iterate(c, app, m, e).value
         == Drained(m).(host := Drained(m).host[1..], out := Drained(m).out + [HostPacket(Drained(m).host[0])])
  {
  }

  /** Then the message that is half sent: it goes to its next address, at that address's thread, and no handler runs. */
  lemma ForwardingTurn(c: Config, app: App, m: Main, e: Inputs)
    requires MainInv(app, m) && Iterate(c, app, m, e).Ok?
    requires Transfers(app, m, e) && !ReceivesNow(c, m, e) && m.host == [] && m.todo > 0
    ensures e.canSendAfter && m.targets != []
    ensures var dest := m.targets[0];
            Iterate(c, app, m, e).value
            == m.(todo := m.todo - 1, targets := m.targets[1..],
                  out := m.out + [ToThread(Mail(dest.thread, Packet(dest, m.buffer.source, m.buffer.payload)))])
  {
  }

  /** What softswitch_onSend leaves to the loop, and what the loop then does with it at once. */
  ghost function AfterPrepare(m: Main, sent: Prepared): Main {
    match sent
    case Nothing => m.(todo := 0, targets := [])
    case Declined(payload) => m.(todo := 0, targets := [], buffer := m.buffer.(payload := payload))
    case Message(source, pin, payload) =>
      if pin.isApp then
        m.(todo := 0, targets := [], isApp := true, buffer := Buffer(source, pin.kind, payload),
           out := m.out + [ToHost(HostMsg(source, pin.kind, payload))])
      else
        var loaded := m.(isApp := false, buffer := m.buffer.(source := source, payload := payload));
        if pin.targets == [] then loaded.(todo := 0, targets := [])
        else
          var dest := pin.targets[0];
          loaded.(todo := |pin.targets| - 1, targets := pin.targets[1..],
                  out := m.out + [ToThread(Mail(dest.thread, Packet(dest, source, payload)))])
  }

  /** Only then a new one: softswitch_onSend is asked, and what it prepares goes to the host, or to the first of its
      targets, at that target's thread, in the same turn. */
  lemma PreparingTurn(c: Config, app: App, m: Main, e: Inputs)
    requires WellFormed(app) && MainInv(app, m) && Iterate(c, app, m, e).Ok?
    requires Transfers(app, m, e) && !ReceivesNow(c, m, e) && m.host == [] && m.todo == 0
    ensures e.canSendAfter && OnSend(app, c.thread, m.sched).Ok?
    ensures var (sched, sent) := OnSend(app, c.thread, m.sched).value;
            Iterate(c, app, m, e).value == AfterPrepare(m.(sched := sched, host := PushAll([], e.pushed)), sent)
  {
    SendKeepsInv(app, c.thread, m.sched);
  }
}

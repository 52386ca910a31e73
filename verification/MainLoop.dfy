/** One turn of softswitch_main's loop as a function: what it receives, computes and sends, given what the
    hardware reports during the turn. */
module MainLoop {
  import opened Words
  import opened Outcomes
  import opened Devices
  import opened HostRing
  import opened Scheduler
  import opened SchedulerProofs

  /** Build options. sendOverRecv: prefer sending to receiving. asserts: assertions are compiled in; a release
      build leaves them out. */
  datatype Config = Config(thread: Word, sendOverRecv: bool, asserts: bool)

  /** The mailbox slot in which messages are prepared. */
  datatype Buffer = Buffer(source: Address, kind: Word, payload: Blob)

  /** A packet given to the mailbox, and the thread that it is given for. */
  datatype Mail = Mail(to: Word, packet: Packet)

  datatype Output =
    | ToThread(mail: Mail)
    | ToHost(app: HostMsg)
    | HostPacket(msg: HostMsg)
    | HostUart(msg: HostMsg)

  /** todo and targets: the addresses that the message in the buffer has still to be sent to. */
  datatype Main = Main(
    sched: Sched,
    host: seq<HostMsg>,
    todo: nat,
    targets: seq<Address>,
    isApp: bool,
    buffer: Buffer,
    out: seq<Output>)

  /** One turn's view of the hardware: what it reports before and after the wait, whether the whole system was
      found idle, the packet at the head of the receive queue, and the host messages a handler pushes. */
  datatype Inputs = Inputs(
    canRecvBefore: bool,
    canSendBefore: bool,
    systemIdle: bool,
    canRecvAfter: bool,
    canSendAfter: bool,
    packet: Packet,
    pushed: seq<HostMsg>)

  predicate WantToSend(m: Main) {
    m.todo > 0 || m.sched.queue != [] || m.host != []
  }

  predicate TriesIdle(m: Main, e: Inputs) {
    !e.canRecvBefore && (!WantToSend(m) || !e.canSendBefore)
  }

  predicate Shaped(app: App, m: Main) {
    EdgesFit(app, m.sched) && m.sched.rtcOffset < |app|
  }

  predicate RunsIdle(app: App, m: Main, e: Inputs)
    requires Shaped(app, m)
  {
    TriesIdle(m, e) && OnIdle(app, m.sched).0
  }

  /** A handler has run, leaving this scheduler state and these host messages. */
  function AfterHandler(m: Main, sched: Sched, pushed: seq<HostMsg>): Main {
    m.(sched := sched, host := PushAll(m.host, pushed))
  }

  function Iterate(c: Config, app: App, m: Main, e: Inputs): Outcome<Main>
    requires Shaped(app, m)
  {
    if RunsIdle(app, m, e) then
      var (more, sched) :- CheckedIdle(app, c.asserts, m.sched);
      Ok(AfterHandler(m, sched, e.pushed))
    else if c.asserts && !WantToSend(m) && !(forall i | 0 <= i < |m.sched.devs| :: m.sched.devs[i].flags == 0)
    then AssertFailed
    else if !WantToSend(m) && e.systemIdle then
      var sched :- OnHardwareIdle(app, m.sched);
      Ok(AfterHandler(m, sched, e.pushed))
    else Transfer(c, app, m, e)
  }

  predicate PrefersRecv(c: Config, m: Main, e: Inputs) {
    if c.sendOverRecv then !(e.canSendAfter && WantToSend(m)) else e.canRecvAfter
  }

  /** Make room in the host ring, then receive one packet or send one. */
  function Transfer(c: Config, app: App, m: Main, e: Inputs): Outcome<Main>
    requires Shaped(app, m)
  {
    var spaced := MakeSpace(m);
    if PrefersRecv(c, m, e) then
      if !e.canRecvAfter then AssertFailed else Receive(c, app, spaced, e)
    else if !e.canSendAfter || !WantToSend(m) then AssertFailed
    else if m.host != [] then Ok(SendHostPacket(spaced))
    else SendNext(c, app, spaced, e)
  }

  function Receive(c: Config, app: App, m: Main, e: Inputs): Outcome<Main>
    requires Shaped(app, m)
  {
    var sched :- CheckedReceive(app, c.asserts, m.sched, e.packet);
    Ok(AfterHandler(m, sched, e.pushed))
  }

  /** Go on with the current message, or prepare a new one and send it to its first address. */
  function SendNext(c: Config, app: App, m: Main, e: Inputs): Outcome<Main>
    requires Shaped(app, m)
  {
    var m :- if m.todo == 0 then Prepare(c, app, m, e) else Ok(m);
    if m.todo > 0 then Forward(m) else Ok(m)
  }

  function MakeSpace(m: Main): Main {
    if AdequateSpace(m.host) || m.host == [] then m
    else m.(host := m.host[1..], out := m.out + [HostUart(m.host[0])])
  }

  function SendHostPacket(m: Main): Main {
    if m.host == [] then m else m.(host := m.host[1..], out := m.out + [HostPacket(m.host[0])])
  }

  /** Ask the scheduler for a new message. */
  function Prepare(c: Config, app: App, m: Main, e: Inputs): Outcome<Main>
    requires |app| == |m.sched.devs|
  {
    var (sched, sent) :- OnSend(app, c.thread, m.sched);
    Ok(Loaded(AfterHandler(m, sched, e.pushed), sent))
  }

  /** What softswitch_onSend leaves in the buffer and in its out parameters. */
  function Loaded(m: Main, sent: Prepared): Main {
    match sent
    case Nothing => m.(todo := 0, targets := [])
    case Declined(payload) => m.(todo := 0, targets := [], buffer := m.buffer.(payload := payload))
    case Message(source, pin, payload) =>
      if pin.isApp then
        m.(todo := 1, targets := [], isApp := true, buffer := Buffer(source, pin.kind, payload))
      else
        m.(todo := |pin.targets|, targets := pin.targets, isApp := false,
           buffer := m.buffer.(source := source, payload := payload))
  }

  /** Send the message in the buffer to its next address, or to the host. */
  function Forward(m: Main): Outcome<Main>
    requires m.todo > 0
  {
    if m.isApp then
      Ok(m.(todo := 0, out := m.out + [ToHost(HostMsg(m.buffer.source, m.buffer.kind, m.buffer.payload))]))
    else if m.targets == [] then AssertFailed
    else
      var dest := m.targets[0];
      Ok(m.(todo := m.todo - 1, targets := m.targets[1..],
            out := m.out + [ToThread(Mail(dest.thread, Packet(dest, m.buffer.source, m.buffer.payload)))]))
  }
}

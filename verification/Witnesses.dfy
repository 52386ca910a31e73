/** Runs from power-up, of a kind that the mailbox allows, on which the code breaks what it checks or promises. */
module Witnesses {
  import opened Words
  import opened Outcomes
  import opened Devices
  import opened HostRing
  import opened Scheduler
  import opened SchedulerProofs
  import opened MainLoop
  import opened MainProofs
  import opened Multicast
  import opened Persistence

  // ----- handlers -----

  function Same(state: Blob): Blob {
    state
  }

  function Full(state: Blob): Blob {
    [1]
  }

  function WantsNothing(state: Blob): Word {
    0
  }

  function WantsToCompute(state: Blob): Word {
    COMPUTE_FLAG
  }

  function SendsWhenFull(state: Blob): Word {
    if state == [] then 0 else 1
  }

  function Empties(state: Blob, properties: Blob, edge: Blob, payload: Blob): (Blob, Blob) {
    ([], [])
  }

  function SendsNothing(state: Blob): (bool, Blob, Blob) {
    (false, state, [])
  }

  const IN_PIN: InputPin := InputPin(Empties, false, [])
  const OUT_PIN: OutputPin := OutputPin(SendsNothing, false, 0, [])

  /** Never wants anything, and takes any message. */
  const SINK: Device := Device(Same, WantsNothing, [], [IN_PIN], Same, None, false)

  /** Always wants to compute. */
  const WORKER: Device := Device(Same, WantsToCompute, [], [IN_PIN], Same, None, false)

  /** Starts full, wants to send while it is full, and is emptied by a message. */
  const TANK: Device := Device(Full, SendsWhenFull, [OUT_PIN], [IN_PIN], Same, None, false)

  /** One such device before softswitch_init. */
  const BOOT: Sched := Sched([DevView([], [[]], 0)], [], 0, 0)

  function Blank(source: Address): Buffer {
    Buffer(source, 0, [])
  }

  function Waiting(packet: Packet, canSend: bool, pushed: seq<HostMsg>): Inputs {
    Inputs(true, canSend, false, true, canSend, packet, pushed)
  }

  lemma OneDevice(d: Device)
    requires d == SINK || d == WORKER || d == TANK
    ensures WellFormed([d]) && Boot([d], BOOT)
    ensures Init([d], BOOT) == InitDevice([d], BOOT, 0)
  {
    assert Pow2(1) == 2;
    forall state: Blob ensures SendBits(d.Ready(state)) < Pow2(|d.outputs|) {
      assert d.Ready(state) == 0 || d.Ready(state) == COMPUTE_FLAG || (d == TANK && d.Ready(state) == 1);
    }
    assert Init([d], BOOT) == InitFrom([d], InitDevice([d], BOOT, 0), 1);
  }

  // ----- assertions -----

  /** The first turn of a thread whose one device wants only to compute, with a packet for it already waiting: the
      assertion that every flag is clear fails. */
  lemma QuietAssertionCanFail(thread: Word, sendOverRecv: bool, packet: Packet)
    requires packet.dest.device == packet.dest.pin == 0
    ensures WellFormed([WORKER]) && Boot([WORKER], BOOT)
    ensures var m := Started([WORKER], BOOT, Blank(packet.source), []);
            var e := Waiting(packet, true, []);
            InputsOk([WORKER], m, e) && Iterate(Config(thread, sendOverRecv, true), [WORKER], m, e).AssertFailed?
  {
    OneDevice(WORKER);
    var m := Started([WORKER], BOOT, Blank(packet.source), []);
    assert WORKER.Ready([]) == COMPUTE_FLAG && !WantsSend(COMPUTE_FLAG);
    assert m.sched == Sched([DevView([], [[]], COMPUTE_FLAG)], [], 0, 0);
    assert WantsCompute(m.sched.devs[0].flags) && m.sched.devs[0].flags != 0;
  }

  /** The first turn of a thread whose one device wants to send, with a packet waiting that takes that wish away: with
      assertions the check of the list fails; without them the device is taken off the list. */
  lemma RemovalAssertionCanFail(thread: Word, packet: Packet)
    requires packet.dest.device == packet.dest.pin == 0
    ensures WellFormed([TANK]) && Boot([TANK], BOOT)
    ensures var m := Started([TANK], BOOT, Blank(packet.source), []);
            var e := Waiting(packet, true, []);
            && InputsOk([TANK], m, e) && m.sched.queue == [0]
            && Iterate(Config(thread, false, true), [TANK], m, e).AssertFailed?
            && Iterate(Config(thread, false, false), [TANK], m, e).Ok?
            && Iterate(Config(thread, false, false), [TANK], m, e).value.sched.queue == []
  {
    OneDevice(TANK);
    var m := Started([TANK], BOOT, Blank(packet.source), []);
    var e := Waiting(packet, true, []);
    assert TANK.Initialise([]) == [1] && TANK.Ready([1]) == 1 && TANK.Ready([]) == 0 && WantsSend(1);
    assert m.sched == Sched([DevView([1], [[]], 1)], [0], 0, 0);
    var s1 := Delivered([TANK], m.sched, packet);
    assert IN_PIN.Receive([1], [], [], packet.payload) == ([], []);
    assert s1.devs[0] == DevView([], [[]], 1);
    assert Removes([TANK], s1, 0);
    assert Without([0], 0) == [];
    assert OnReceive([TANK], m.sched, packet).value.queue == [];
    IterateKeepsInv(Config(thread, false, true), [TANK], m, e);
    IterateKeepsInv(Config(thread, false, false), [TANK], m, e);
  }

  // ----- host messages -----

  /** The worker's thread as it stays: it always wants to compute. */
  ghost predicate Working(m: Main) {
    && m.sched == Sched([DevView([], [[]], COMPUTE_FLAG)], [], 0, 0)
    && m.todo == 0 && m.targets == [] && |m.host| <= 39
  }

  /** Nothing to receive, and the mailbox able to send or not; if a handler runs it pushes these messages. */
  function NothingReceived(canSend: bool, packet: Packet, pushed: seq<HostMsg>): Inputs {
    Inputs(false, canSend, false, false, canSend, packet, pushed)
  }

  /** A compute handler sends the host one message, when there is nothing else to do or the mailbox is busy. With 39
      pending that loses them all: idle work is not held back for want of space. */
  lemma WorkerTurn(c: Config, m: Main, canSend: bool, msg: HostMsg, packet: Packet)
    requires Working(m) && WellFormed([WORKER]) && MainInv([WORKER], m)
    requires canSend ==> m.host == []
    ensures var e := NothingReceived(canSend, packet, [msg]);
            && InputsOk([WORKER], m, e) && RunsIdle([WORKER], m, e) && IdleComputes(m.sched) == Some(0)
            && Iterate(c, [WORKER], m, e).Ok? && PushedIn(c, [WORKER], m, e) == [msg]
            && Working(Turn(c, [WORKER], m, e)) && Turn(c, [WORKER], m, e).out == m.out
            && Turn(c, [WORKER], m, e).host == if |m.host| == 39 then [] else m.host + [msg]
  {
    assert WORKER.Ready([]) == COMPUTE_FLAG && !WantsSend(COMPUTE_FLAG) && WantsCompute(COMPUTE_FLAG);
    assert !Removes([WORKER], Computed([WORKER], m.sched, 0), 0);
    IdleKeepsInv([WORKER], c.asserts, m.sched);
    assert OnIdle([WORKER], m.sched).1.devs == m.sched.devs;
    assert PushAll(m.host, [msg]) == PushAll(PushOne(m.host, msg), [msg][1..]);
  }

  /** With one message pending and the mailbox free, it is sent. */
  lemma WorkerSends(c: Config, m: Main, msg: HostMsg, packet: Packet)
    requires Working(m) && WellFormed([WORKER]) && MainInv([WORKER], m) && m.host == [msg]
    ensures var e := NothingReceived(true, packet, []);
            && InputsOk([WORKER], m, e) && !RunsIdle([WORKER], m, e) && !Receives(c, [WORKER], m, e)
            && Iterate(c, [WORKER], m, e) == Ok(m.(host := [], out := m.out + [HostPacket(msg)]))
            && PushedIn(c, [WORKER], m, e) == []
  {
    assert m.host[1..] == [];
  }

  /** The turns of a thread that computes while the mailbox is busy sending. */
  function BusyTurns(packet: Packet, msg: HostMsg): seq<Inputs> {
    seq(40, _ => NothingReceived(false, packet, [msg]))
  }

  lemma {:induction false} WorkerFills(c: Config, m: Main, msg: HostMsg, packet: Packet, turns: seq<Inputs>)
    requires Working(m) && WellFormed([WORKER]) && MainInv([WORKER], m) && |m.host| + |turns| <= 40
    requires forall k | 0 <= k < |turns| :: turns[k] == NothingReceived(false, packet, [msg])
    ensures GoodRun(c, [WORKER], m, turns) && Persistent(c, [WORKER], m, false, false, turns)
    ensures var m' := Run(c, [WORKER], m, turns);
            && Working(m') && m'.out == m.out
            && |m'.host| == if |m.host| + |turns| == 40 then 0 else |m.host| + |turns|
    ensures |Pushed(c, [WORKER], m, turns)| == |turns|
    decreases |turns|
  {
    if turns != [] {
      WorkerTurn(c, m, false, msg, packet);
      WorkerFills(c, Turn(c, [WORKER], m, turns[0]), msg, packet, turns[1..]);
    }
  }

  lemma WorkerStarts(buffer: Buffer)
    requires Boot([WORKER], BOOT)
    ensures Working(Started([WORKER], BOOT, buffer, [])) && Started([WORKER], BOOT, buffer, []).host == []
  {
    OneDevice(WORKER);
    assert WORKER.Ready([]) == COMPUTE_FLAG && !WantsSend(COMPUTE_FLAG);
    assert Started([WORKER], BOOT, buffer, []).sched == Sched([DevView([], [[]], COMPUTE_FLAG)], [], 0, 0);
  }

  /** One message to the host, and then forty computes. */
  function SendThenCompute(packet: Packet, msg: HostMsg): seq<Inputs> {
    [NothingReceived(true, packet, [msg])] + ([NothingReceived(true, packet, [])] + BusyTurns(packet, msg))
  }

  lemma SendThenFill(c: Config, m: Main, msg: HostMsg, packet: Packet)
    requires Working(m) && WellFormed([WORKER]) && MainInv([WORKER], m) && m.host == [msg] && m.out == []
    ensures var turns := [NothingReceived(true, packet, [])] + BusyTurns(packet, msg);
            && GoodRun(c, [WORKER], m, turns) && Persistent(c, [WORKER], m, true, false, turns)
            && |Pushed(c, [WORKER], m, turns)| == 40
            && Run(c, [WORKER], m, turns).host == [] && Run(c, [WORKER], m, turns).out == [HostPacket(msg)]
  {
    var e := NothingReceived(true, packet, []);
    WorkerSends(c, m, msg, packet);
    var m1 := Turn(c, [WORKER], m, e);
    SlotUsesAppend([], HostPacket(msg));
    assert m1.out == [] + [HostPacket(msg)] == [HostPacket(msg)];
    WorkerFills(c, m1, msg, packet, BusyTurns(packet, msg));
    OneTurnMore(c, [WORKER], m, e, BusyTurns(packet, msg), true, false);
  }

  /** From power-up: a compute handler sends the host a message, which goes out and makes the mailbox busy; before it
      is free again there are forty more computes, each sending the host one message. At the end only the first has
      gone to the host, and nothing is pending. */
  lemma IdlingCanLoseMessages(c: Config, msg: HostMsg, packet: Packet)
    ensures WellFormed([WORKER]) && Boot([WORKER], BOOT)
    ensures var m := Started([WORKER], BOOT, Blank(packet.source), []);
            var turns := SendThenCompute(packet, msg);
            && RealRun(c, [WORKER], m, turns)
            && |Pushed(c, [WORKER], m, turns)| == 41
            && Run(c, [WORKER], m, turns).host == [] && Run(c, [WORKER], m, turns).out == [HostPacket(msg)]
  {
    OneDevice(WORKER);
    WorkerStarts(Blank(packet.source));
    var m := Started([WORKER], BOOT, Blank(packet.source), []);
    var e := NothingReceived(true, packet, [msg]);
    WorkerTurn(c, m, true, msg, packet);
    var m1 := Turn(c, [WORKER], m, e);
    assert m1.host == [] + [msg] == [msg];
    SendThenFill(c, m1, msg, packet);
    OneTurnMore(c, [WORKER], m, e, [NothingReceived(true, packet, [])] + BusyTurns(packet, msg), true, false);
  }

  function TwoMessages(msg: HostMsg): seq<HostMsg> {
    [msg, msg]
  }

  lemma PushTwo(host: seq<HostMsg>, msg: HostMsg)
    requires |host| <= 38
    ensures |PushAll(host, TwoMessages(msg))| == if |host| == 38 then 0 else |host| + 2
  {
    var rest := TwoMessages(msg)[1..];
    assert rest == [msg] && rest[1..] == [];
    var one := PushOne(host, msg);
    assert PushAll(host, TwoMessages(msg)) == PushAll(one, rest) == PushAll(PushOne(one, msg), []);
  }

  /** The sink's thread as it stays: it never wants to send or compute. */
  ghost predicate Sunk(m: Main) {
    && m.sched == Sched([DevView([], [[]], 0)], [], 0, 0)
    && m.todo == 0 && m.targets == [] && m.out == []
    && |m.host| <= 38 && |m.host| % 2 == 0
  }

  lemma SinkReceives(c: Config, m: Main, msg: HostMsg, packet: Packet)
    requires Sunk(m) && !c.sendOverRecv && packet.dest.device == packet.dest.pin == 0
    requires MainInv([SINK], m)
    ensures var e := Waiting(packet, true, TwoMessages(msg));
            && InputsOk([SINK], m, e)
            && Iterate(c, [SINK], m, e) == Ok(m.(host := PushAll(m.host, TwoMessages(msg))))
            && PushedIn(c, [SINK], m, e) == TwoMessages(msg)
  {
    var s1 := Delivered([SINK], m.sched, packet);
    assert IN_PIN.Receive([], [], [], packet.payload) == ([], []);
    assert s1.devs == m.sched.devs;
    assert SINK.Ready([]) == 0;
    assert UpdateRTS([SINK], s1, 0).devs == m.sched.devs;
    assert CheckedReceive([SINK], c.asserts, m.sched, packet) == Ok(m.sched);
  }

  lemma SinkTurn(c: Config, m: Main, msg: HostMsg, packet: Packet)
    requires Sunk(m) && !c.sendOverRecv && packet.dest.device == packet.dest.pin == 0
    requires WellFormed([SINK]) && MainInv([SINK], m)
    ensures var e := Waiting(packet, true, TwoMessages(msg));
            && InputsOk([SINK], m, e) && Iterate(c, [SINK], m, e).Ok? && |PushedIn(c, [SINK], m, e)| == 2
            && Sunk(Turn(c, [SINK], m, e))
            && |Turn(c, [SINK], m, e).host| == if |m.host| == 38 then 0 else |m.host| + 2
  {
    SinkReceives(c, m, msg, packet);
    PushTwo(m.host, msg);
  }

  lemma {:induction false} SinkFills(c: Config, m: Main, msg: HostMsg, packet: Packet, turns: seq<Inputs>)
    requires Sunk(m) && !c.sendOverRecv && packet.dest.device == packet.dest.pin == 0
    requires WellFormed([SINK]) && MainInv([SINK], m) && |m.host| + 2 * |turns| <= 40
    requires forall k | 0 <= k < |turns| :: turns[k] == Waiting(packet, true, TwoMessages(msg))
    ensures GoodRun(c, [SINK], m, turns)
    ensures forall canSend, canRecv :: Persistent(c, [SINK], m, canSend, canRecv, turns)
    ensures var m' := Run(c, [SINK], m, turns);
            Sunk(m') && |m'.host| == if |m.host| + 2 * |turns| == 40 then 0 else |m.host| + 2 * |turns|
    ensures |Pushed(c, [SINK], m, turns)| == 2 * |turns|
    decreases |turns|
  {
    if turns != [] {
      SinkTurn(c, m, msg, packet);
      SinkFills(c, Turn(c, [SINK], m, turns[0]), msg, packet, turns[1..]);
    }
  }

  lemma SinkStarts(buffer: Buffer)
    requires Boot([SINK], BOOT)
    ensures Sunk(Started([SINK], BOOT, buffer, [])) && Started([SINK], BOOT, buffer, []).host == []
  {
    OneDevice(SINK);
    assert SINK.Ready([]) == 0 && !WantsSend(0);
    assert Started([SINK], BOOT, buffer, []).sched == Sched([DevView([], [[]], 0)], [], 0, 0);
  }

  /** From power-up: twenty packets in a row, the handler of each sending the host the two messages it may send. The
      adequacy test passes every time, and at the end nothing has gone to the host and nothing is pending. */
  lemma ReceivingCanLoseMessages(c: Config, msg: HostMsg, packet: Packet)
    requires !c.sendOverRecv && packet.dest.device == packet.dest.pin == 0
    ensures WellFormed([SINK]) && Boot([SINK], BOOT)
    ensures var m := Started([SINK], BOOT, Blank(packet.source), []);
            var turns := seq(20, _ => Waiting(packet, true, TwoMessages(msg)));
            && RealRun(c, [SINK], m, turns)
            && |Pushed(c, [SINK], m, turns)| == 40
            && Run(c, [SINK], m, turns).host == [] && Run(c, [SINK], m, turns).out == []
  {
    OneDevice(SINK);
    var m := Started([SINK], BOOT, Blank(packet.source), []);
    SinkStarts(Blank(packet.source));
    SinkFills(c, m, msg, packet, seq(20, _ => Waiting(packet, true, TwoMessages(msg))));
  }
}

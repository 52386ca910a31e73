/** What each event does to the devices, said without the list and flag bookkeeping: which handler runs, on what,
    and what stays as it was. */
module Effects {
  import opened Words
  import opened Outcomes
  import opened Devices
  import opened Scheduler
  import opened SchedulerProofs

  ghost predicate Untouched(s: Sched, s': Sched, i: nat) {
    i < |s.devs| == |s'.devs| ==> s'.devs[i] == s.devs[i]
  }

  /** Every device but one is as it was. */
  ghost predicate OthersUntouched(s: Sched, s': Sched, i: nat) {
    |s'.devs| == |s.devs| && forall j: nat :: j != i ==> Untouched(s, s', j)
  }

  /** The list after device i has been asked for its flags: i goes to the tail if it newly wants to send, leaves if it
      no longer does, and the others keep their order. */
  ghost predicate ListFollows(q: seq<nat>, q': seq<nat>, i: nat, wants: bool) {
    q' == if wants && i !in q then q + [i] else if !wants && i in q then Without(q, i) else q
  }

  /** A device with this state: its own handler has said what its flags are. */
  function Shown(d: Device, state: Blob, edges: seq<seq<Blob>>): DevView {
    DevView(state, edges, d.readyToSendHandler(state))
  }

  /** The list follows device i; the search for a device to compute starts again if i wants that, and otherwise
      stands where it stood. */
  ghost predicate Followed(s: Sched, s': Sched, i: nat, checked: Word, offset: nat)
    requires i < |s'.devs|
  {
    && ListFollows(s.queue, s'.queue, i, WantsSend(s'.devs[i].flags))
    && s'.rtcChecked == (if WantsCompute(s'.devs[i].flags) then 0 else checked)
    && s'.rtcOffset == offset
  }

  /** A packet can be delivered exactly when its device is here and is not the host's, the pin is there, and the pin
      has an edge from the packet's source or needs none. */
  lemma DeliverableWhen(app: App, p: Packet)
    ensures Deliverable(app, p) <==>
              && p.dest.device < |app| && !app[p.dest.device].isExternal
              && p.dest.pin < |app[p.dest.device].inputs|
              && var pin := app[p.dest.device].inputs[p.dest.pin];
                 !pin.usesEdge || exists k | 0 <= k < |pin.sources| :: pin.sources[k].source == p.source
  {
    if p.dest.device < |app| && p.dest.pin < |app[p.dest.device].inputs| {
      FindEdgeFinds(app[p.dest.device].inputs[p.dest.pin].sources, p.source);
    }
  }

  /** A packet runs its pin's handler on its device, with the properties and the state of the one edge that it came
      along, and on nothing else. */
  lemma ReceiveDelivers(app: App, s: Sched, p: Packet, k: nat)
    requires Inv(app, s) && WellFormed(app) && Deliverable(app, p)
    requires var pin := app[p.dest.device].inputs[p.dest.pin];
             pin.usesEdge && k < |pin.sources| && pin.sources[k].source == p.source
    ensures OnReceive(app, s, p).Ok?
    ensures var s' := OnReceive(app, s, p).value;
            var (i, q) := (p.dest.device, p.dest.pin);
            var pin := app[i].inputs[q];
            var (v, v') := (s.devs[i], s'.devs[i]);
            && OthersUntouched(s, s', i) && Followed(s, s', i, s.rtcChecked, s.rtcOffset)
            && |v'.edges| == |v.edges| && (forall r | 0 <= r < |v.edges| && r != q :: v'.edges[r] == v.edges[r])
            && |v'.edges[q]| == |v.edges[q]|
            && (forall r | 0 <= r < |v.edges[q]| && r != k :: v'.edges[q][r] == v.edges[q][r])
            && (v'.state, v'.edges[q][k]) == pin.handler(v.state, pin.sources[k].properties, v.edges[q][k], p.payload)
            && v' == Shown(app[i], v'.state, v'.edges)
  {
    var i := p.dest.device;
    FindEdgeIs(app[i].inputs[p.dest.pin].sources, p.source, k);
    assert Listed(s, i);
    var s' := OnReceive(app, s, p).value;
    forall j: nat | j != i ensures Untouched(s, s', j) {
    }
  }

  /** A pin without edge data gets the message alone. */
  lemma ReceiveWithoutEdge(app: App, s: Sched, p: Packet)
    requires Inv(app, s) && Deliverable(app, p) && !app[p.dest.device].inputs[p.dest.pin].usesEdge
    ensures OnReceive(app, s, p).Ok?
    ensures var s' := OnReceive(app, s, p).value;
            var i := p.dest.device;
            var handler := app[i].inputs[p.dest.pin].handler;
            && OthersUntouched(s, s', i) && Followed(s, s', i, s.rtcChecked, s.rtcOffset)
            && s'.devs[i] == Shown(app[i], handler(s.devs[i].state, [], [], p.payload).0, s.devs[i].edges)
  {
    var i := p.dest.device;
    assert Listed(s, i);
    var s' := OnReceive(app, s, p).value;
    forall j: nat | j != i ensures Untouched(s, s', j) {
    }
  }

  /** A send runs the handler of the lowest ready pin of the device at the head of the list, and on nothing else;
      the message it makes is that pin's, from that device. The device leaves the head of the list, for its tail if it
      still wants to send. */
  lemma SendTakesLowestPin(app: App, thread: Word, s: Sched, pin: nat)
    requires WellFormed(app) && Inv(app, s) && s.queue != []
    requires Bit(s.devs[s.queue[0]].flags, pin) && forall j: nat | j < pin :: !Bit(s.devs[s.queue[0]].flags, j)
    ensures s.queue[0] < |app| && pin < |app[s.queue[0]].outputs| && OnSend(app, thread, s).Ok?
    ensures var (s', sent) := OnSend(app, thread, s).value;
            var i := s.queue[0];
            var output := app[i].outputs[pin];
            var (doSend, state, payload) := output.handler(s.devs[i].state);
            && OthersUntouched(s, s', i)
            && s'.devs[i] == Shown(app[i], state, s.devs[i].edges)
            && Followed(s.(queue := s.queue[1..]), s', i, s.rtcChecked, s.rtcOffset)
            && sent == (if doSend then Message(Address(thread, i, pin), output, payload) else Declined(payload))
  {
    var i := s.queue[0];
    HeadWantsSend(app, s);
    assert Current(app, s, i);
    SendKeepsInv(app, thread, s);
    SelectedPinExists(app[i], s.devs[i].state);
    LowestOneIsLowest(s.devs[i].flags, pin);
    assert pin == LowestOne(s.devs[i].flags);
    DistinctTail(s.queue);
    var s' := OnSend(app, thread, s).value.0;
    forall j: nat | j != i ensures Untouched(s, s', j) {
    }
  }

  /** The device d places on from the offset, going round. */
  function Ahead(n: nat, offset: nat, d: nat): nat
    requires offset < n
    ensures Ahead(n, offset, d) < n
  {
    (offset + d) % n
  }

  lemma AheadNext(n: nat, offset: nat, d: nat)
    requires offset < n
    ensures Ahead(n, offset, 0) == offset
    ensures Ahead(n, NextOffset(n, offset), d) == Ahead(n, offset, d + 1)
  {
    ModUnique(offset, n, 0, offset);
    var x := NextOffset(n, offset) + d;
    var q := x / n;
    assert x == n * q + x % n;
    if offset + 1 == n {
      assert offset + d + 1 == n * (q + 1) + x % n;
      ModUnique(offset + d + 1, n, q + 1, x % n);
    }
  }

  lemma AddMore(checked: Word, k: nat)
    requires k < WORD_LIMIT
    ensures Add(Add(checked, 1), k) == Add(checked, k + 1)
    ensures Add(checked, 0) == checked
  {
    AheadNext(WORD_LIMIT, checked, k);
    if checked + 1 == WORD_LIMIT { ModUnique(WORD_LIMIT, WORD_LIMIT, 1, 0); }
  }

  lemma {:induction false} SweepFindsFirst(devs: seq<DevView>, checked: Word, offset: nat, chunk: nat, d: nat)
    requires offset < |devs| && d < chunk < WORD_LIMIT
    requires WantsCompute(devs[Ahead(|devs|, offset, d)].flags)
    requires forall e: nat | e < d :: !WantsCompute(devs[Ahead(|devs|, offset, e)].flags)
    ensures Sweep(devs, checked, offset, chunk)
         == SweepResult(Some(Ahead(|devs|, offset, d)), Add(checked, d + 1), Ahead(|devs|, offset, d + 1))
    decreases chunk
  {
    var n := |devs|;
    AheadNext(n, offset, d);
    AheadNext(n, offset, 0);
    AheadNext(n, NextOffset(n, offset), 0);
    if d > 0 {
      assert !WantsCompute(devs[Ahead(n, offset, 0)].flags);
      var next := NextOffset(n, offset);
      AheadNext(n, offset, d - 1);
      AddMore(checked, d);
      forall e: nat | e < d - 1 ensures !WantsCompute(devs[Ahead(n, next, e)].flags) {
        AheadNext(n, offset, e);
      }
      SweepFindsFirst(devs, Add(checked, 1), next, chunk - 1, d - 1);
    }
  }

  lemma {:induction false} SweepFindsNothing(devs: seq<DevView>, checked: Word, offset: nat, chunk: nat)
    requires offset < |devs| && chunk < WORD_LIMIT
    requires forall e: nat | e < chunk :: !WantsCompute(devs[Ahead(|devs|, offset, e)].flags)
    ensures Sweep(devs, checked, offset, chunk)
         == SweepResult(None, Add(checked, chunk), Ahead(|devs|, offset, chunk))
    decreases chunk
  {
    var n := |devs|;
    AheadNext(n, offset, 0);
    AddMore(checked, 0);
    if chunk > 0 {
      assert !WantsCompute(devs[Ahead(n, offset, 0)].flags);
      var next := NextOffset(n, offset);
      AheadNext(n, offset, chunk - 1);
      AddMore(checked, chunk - 1);
      forall e: nat | e < chunk - 1 ensures !WantsCompute(devs[Ahead(n, next, e)].flags) {
        AheadNext(n, offset, e);
        assert !WantsCompute(devs[Ahead(n, offset, e + 1)].flags);
      }
      SweepFindsNothing(devs, Add(checked, 1), next, chunk - 1);
    }
  }

  /** An idle call computes the first device from the offset on that wants to, if it is among the next 32, and goes on
      from the one after it. */
  lemma IdleComputesFirst(app: App, s: Sched, d: nat)
    requires Inv(app, s) && d < 32
    requires WantsCompute(s.devs[Ahead(|app|, s.rtcOffset, d)].flags)
    requires forall e: nat | e < d :: !WantsCompute(s.devs[Ahead(|app|, s.rtcOffset, e)].flags)
    ensures OnIdle(app, s).0 && IdleComputes(s) == Some(Ahead(|app|, s.rtcOffset, d))
    ensures var s' := OnIdle(app, s).1;
            var i := Ahead(|app|, s.rtcOffset, d);
            && OthersUntouched(s, s', i)
            && s'.devs[i] == Shown(app[i], app[i].computeHandler(s.devs[i].state), s.devs[i].edges)
            && Followed(s, s', i, Add(s.rtcChecked, d + 1), Ahead(|app|, s.rtcOffset, d + 1))
  {
    SweepFindsFirst(s.devs, s.rtcChecked, s.rtcOffset, IDLE_SWEEP_CHUNK_SIZE, d);
    var (more, s') := OnIdle(app, s);
    if !more { GivingUpMeansNoCompute(app, s); }
    var i := Ahead(|app|, s.rtcOffset, d);
    assert Listed(s, i);
    forall j: nat | j != i ensures Untouched(s, s', j) {
    }
  }

  /** With none among the next 32 that wants to compute, an idle call runs no handler: it goes on 32 devices further,
      or gives up if the count has reached the number of devices. */
  lemma IdleMovesOn(app: App, s: Sched)
    requires Inv(app, s)
    requires forall e: nat | e < 32 :: !WantsCompute(s.devs[Ahead(|app|, s.rtcOffset, e)].flags)
    ensures IdleComputes(s) == None
    ensures OnIdle(app, s) == if s.rtcChecked >= |app| then (false, s)
            else (true, Sched(s.devs, s.queue, Add(s.rtcChecked, 32), Ahead(|app|, s.rtcOffset, 32)))
  {
    SweepFindsNothing(s.devs, s.rtcChecked, s.rtcOffset, IDLE_SWEEP_CHUNK_SIZE);
  }

  // ----- passes over all devices -----

  /** The devices below n that want to send, in order. */
  function ReadyList(devs: seq<DevView>, n: nat): seq<nat>
    requires n <= |devs|
  {
    if n == 0 then [] else ReadyList(devs, n - 1) + if WantsSend(devs[n - 1].flags) then [n - 1] else []
  }

  lemma {:induction false} ReadyListSame(a: seq<DevView>, b: seq<DevView>, n: nat)
    requires n <= |a| && n <= |b| && forall k | 0 <= k < n :: a[k].flags == b[k].flags
    ensures ReadyList(a, n) == ReadyList(b, n)
  {
    if n > 0 { ReadyListSame(a, b, n - 1); }
  }

  lemma {:induction false} ReadyListBelow(devs: seq<DevView>, n: nat)
    requires n <= |devs|
    ensures forall i | i in ReadyList(devs, n) :: i < n
  {
    if n > 0 { ReadyListBelow(devs, n - 1); }
  }

  /** A device once softswitch_init has come to it. */
  function Initialised(d: Device, v: DevView): DevView {
    Shown(d, d.initHandler(v.state), v.edges)
  }

  lemma InitAt(app: App, s: Sched, i: nat)
    requires i < |app| == |s.devs| && s.queue == ReadyList(s.devs, i)
    ensures var s1 := InitDevice(app, s, i);
            && s1 == s.(devs := s.devs[i := Initialised(app[i], s.devs[i])], queue := s1.queue)
            && s1.queue == ReadyList(s1.devs, i + 1)
  {
    ReadyListSame(s.devs, InitDevice(app, s, i).devs, i);
  }

  lemma {:induction false} InitPass(app: App, s: Sched, i: nat)
    requires i <= |app| == |s.devs| && s.queue == ReadyList(s.devs, i)
    ensures var s' := InitFrom(app, s, i);
            && |s'.devs| == |app| && s'.queue == ReadyList(s'.devs, |app|)
            && (s'.rtcChecked, s'.rtcOffset) == (s.rtcChecked, s.rtcOffset)
            && forall k | 0 <= k < |app| :: s'.devs[k] == if k < i then s.devs[k] else Initialised(app[k], s.devs[k])
    decreases |app| - i
  {
    if i < |app| {
      InitAt(app, s, i);
      InitPass(app, InitDevice(app, s, i), i + 1);
    }
  }

  /** softswitch_init initialises every device once, and lists those that then want to send, in order. */
  lemma InitDoesAll(app: App, s: Sched)
    requires |app| == |s.devs|
    ensures var s' := Init(app, s);
            && |s'.devs| == |app| && s'.queue == ReadyList(s'.devs, |app|)
            && (s'.rtcChecked, s'.rtcOffset) == (s.rtcChecked, s.rtcOffset)
            && forall k | 0 <= k < |app| :: s'.devs[k] == Initialised(app[k], s.devs[k])
  {
    InitPass(app, s.(queue := []), 0);
  }

  /** A device once softswitch_on_hardware_idle has come to it. */
  function HardwareIdled(d: Device, v: DevView): DevView {
    match d.onHardwareIdleHandler
    case None => v
    case Some(handler) => Shown(d, handler(v.state), v.edges)
  }

  /** Some device from i on wants to compute once its idle handler has run. */
  ghost predicate AnyComputes(app: App, devs: seq<DevView>, i: nat)
    requires |app| == |devs|
  {
    exists k :: i <= k < |app| && WantsCompute(HardwareIdled(app[k], devs[k]).flags)
  }

  lemma AnyComputesSplits(app: App, devs: seq<DevView>, devs1: seq<DevView>, i: nat)
    requires i < |app| == |devs| == |devs1| && devs1[i + 1..] == devs[i + 1..]
    ensures AnyComputes(app, devs, i)
            <==> WantsCompute(HardwareIdled(app[i], devs[i]).flags) || AnyComputes(app, devs1, i + 1)
  {
    assert forall k | i < k < |app| :: devs[i + 1..][k - i - 1] == devs[k] && devs1[i + 1..][k - i - 1] == devs1[k];
  }

  lemma HardwareIdleAt(app: App, s: Sched, i: nat) returns (s1: Sched)
    requires i < |app| == |s.devs| && s.queue == ReadyList(s.devs, i) && s.devs[i].flags == 0
    ensures s1.devs == s.devs[i := HardwareIdled(app[i], s.devs[i])] && s1.queue == ReadyList(s1.devs, i + 1)
    ensures HardwareIdleFrom(app, s, i) == HardwareIdleFrom(app, s1, i + 1)
    ensures s1.rtcOffset == s.rtcOffset
    ensures s1.rtcChecked == if WantsCompute(s1.devs[i].flags) then 0 else s.rtcChecked
  {
    ReadyListBelow(s.devs, i);
    assert i !in s.queue;
    s1 := if app[i].onHardwareIdleHandler.None? then s
          else UpdateRTS(app, SetState(s, i, app[i].HardwareIdle(s.devs[i].state)), i);
    ReadyListSame(s.devs, s1.devs, i);
  }

  lemma {:induction false} HardwareIdlePass(app: App, s: Sched, i: nat)
    requires i <= |app| == |s.devs| && s.queue == ReadyList(s.devs, i)
    requires forall k | i <= k < |app| :: s.devs[k].flags == 0
    ensures HardwareIdleFrom(app, s, i).Ok?
    ensures var s' := HardwareIdleFrom(app, s, i).value;
            && |s'.devs| == |app| && s'.queue == ReadyList(s'.devs, |app|)
            && s'.rtcOffset == s.rtcOffset
            && s'.rtcChecked == (if AnyComputes(app, s.devs, i) then 0 else s.rtcChecked)
            && forall k | 0 <= k < |app| :: s'.devs[k] == if k < i then s.devs[k] else HardwareIdled(app[k], s.devs[k])
    decreases |app| - i
  {
    if i < |app| {
      var s1 := HardwareIdleAt(app, s, i);
      AnyComputesSplits(app, s.devs, s1.devs, i);
      HardwareIdlePass(app, s1, i + 1);
    }
  }

  /** From a quiet state, a hardware-idle step runs every device's handler once, and lists those that then want to
      send, in order. */
  lemma HardwareIdleDoesAll(app: App, s: Sched)
    requires |app| == |s.devs| && AllQuiet(s)
    ensures OnHardwareIdle(app, s).Ok?
    ensures var s' := OnHardwareIdle(app, s).value;
            && |s'.devs| == |app| && s'.queue == ReadyList(s'.devs, |app|)
            && s'.rtcOffset == s.rtcOffset
            && s'.rtcChecked == (if AnyComputes(app, s.devs, 0) then 0 else s.rtcChecked)
            && forall k | 0 <= k < |app| :: s'.devs[k] == HardwareIdled(app[k], s.devs[k])
  {
    HardwareIdlePass(app, s.(queue := []), 0);
  }
}

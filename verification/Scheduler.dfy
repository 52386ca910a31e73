/** What one thread's softswitch computes at each event, as functions on the thread's state:
    the devices, the ready-to-send list as a sequence of device indices, and the round-robin
    position of the search for a device that wants to compute. The Checked functions add the checks of
    the list that a build with assertions makes. */
module Scheduler {
  import opened Words
  import opened Outcomes
  import opened Devices

  datatype DevView = DevView(state: Blob, edges: seq<seq<Blob>>, flags: Word)

  datatype Sched = Sched(devs: seq<DevView>, queue: seq<nat>, rtcChecked: Word, rtcOffset: nat)

  /** The devices of a thread. */
  type App = seq<Device>

  // ----- the ready-to-send list -----

  /** q without its first occurrence of i, in the same order. */
  function Without(q: seq<nat>, i: nat): seq<nat> {
    if q == [] then []
    else if q[0] == i then q[1..]
    else [q[0]] + Without(q[1..], i)
  }

  /** softswitch_UpdateRTS: ask the device for its flags and move it on or off the list if they say so. */
  function UpdateRTS(app: App, s: Sched, i: nat): Sched
    requires i < |app| == |s.devs|
  {
    var flags := app[i].Ready(s.devs[i].state);
    var readyBefore := WantsSend(s.devs[i].flags);
    var readyNow := WantsSend(flags);
    Sched(
      s.devs[i := s.devs[i].(flags := flags)],
      if readyBefore == readyNow then s.queue
      else if readyNow then s.queue + [i]
      else Without(s.queue, i),
      if WantsCompute(flags) then 0 else s.rtcChecked,
      s.rtcOffset)
  }

  /** Bringing device i's flags up to date takes it off the list. */
  predicate Removes(app: App, s: Sched, i: nat)
    requires i < |app| == |s.devs|
  {
    WantsSend(s.devs[i].flags) && !WantsSend(app[i].Ready(s.devs[i].state))
  }

  /** What rts_sanity asks of the flags: every device on the list has a send bit. */
  predicate Sane(s: Sched) {
    forall k | 0 <= k < |s.queue| :: s.queue[k] < |s.devs| && WantsSend(s.devs[s.queue[k]].flags)
  }

  /** softswitch_UpdateRTS after it has written the new flags, and before it changes the list. */
  function Marked(app: App, s: Sched, i: nat): Sched
    requires i < |app| == |s.devs|
  {
    UpdateRTS(app, s, i).(queue := s.queue)
  }

  /** A check of the list fails: on entry to UpdateRTS, or on entry to or exit from the append or removal it makes. */
  predicate SanityFails(app: App, s: Sched, i: nat)
    requires i < |app| == |s.devs|
  {
    var marked := Marked(app, s, i);
    var updated := UpdateRTS(app, s, i);
    !Sane(s) || (WantsSend(s.devs[i].flags) != WantsSend(marked.devs[i].flags) && !(Sane(marked) && Sane(updated)))
  }

  function SetState(s: Sched, i: nat, state: Blob): Sched
    requires i < |s.devs|
  {
    s.(devs := s.devs[i := s.devs[i].(state := state)])
  }

  // ----- softswitch_init -----

  function InitDevice(app: App, s: Sched, i: nat): Sched
    requires i < |app| == |s.devs|
  {
    var state := app[i].Initialise(s.devs[i].state);
    var flags := app[i].Ready(state);
    s.(devs := s.devs[i := s.devs[i].(state := state, flags := flags)],
       queue := if WantsSend(flags) then s.queue + [i] else s.queue)
  }

  function InitFrom(app: App, s: Sched, i: nat): Sched
    requires i <= |app| == |s.devs|
    decreases |app| - i
  {
    if i == |app| then s else InitFrom(app, InitDevice(app, s, i), i + 1)
  }

  function Init(app: App, s: Sched): Sched
    requires |app| == |s.devs|
  {
    InitFrom(app, s.(queue := []), 0)
  }

  // ----- softswitch_onReceive -----

  /** The device and pin exist, and so does the edge when the pin needs it. */
  predicate Deliverable(app: App, p: Packet) {
    p.dest.device < |app|
    && (var d := app[p.dest.device];
        !d.isExternal && p.dest.pin < |d.inputs|
        && (var pin := d.inputs[p.dest.pin]; pin.usesEdge ==> FindEdge(pin.sources, p.source).Some?))
  }

  /** Every input pin has one edge state for each of its sources. */
  predicate EdgesFit(app: App, s: Sched) {
    && |app| == |s.devs|
    && forall i | 0 <= i < |app| ::
         && |s.devs[i].edges| == |app[i].inputs|
         && forall k | 0 <= k < |app[i].inputs| :: |s.devs[i].edges[k]| == |app[i].inputs[k].sources|
  }

  /** The device after its receive handler has run, before its flags are brought up to date. */
  function Handled(d: Device, v: DevView, p: Packet): DevView
    requires |v.edges| == |d.inputs| && p.dest.pin < |d.inputs|
    requires |v.edges[p.dest.pin]| == |d.inputs[p.dest.pin].sources|
  {
    var pin := d.inputs[p.dest.pin];
    var edge := FindEdge(pin.sources, p.source);
    FindEdgeFinds(pin.sources, p.source);
    if pin.usesEdge && edge.Some? then
      var k := edge.value;
      var (state, edgeState) := pin.Receive(v.state, pin.sources[k].properties, v.edges[p.dest.pin][k], p.payload);
      v.(state := state, edges := v.edges[p.dest.pin := v.edges[p.dest.pin][k := edgeState]])
    else
      v.(state := pin.Receive(v.state, [], [], p.payload).0)
  }

  function OnReceive(app: App, s: Sched, p: Packet): Outcome<Sched>
    requires EdgesFit(app, s)
  {
    if !Deliverable(app, p) then AssertFailed
    else Ok(UpdateRTS(app, Delivered(app, s, p), p.dest.device))
  }

  /** The state once the receive handler has run. */
  function Delivered(app: App, s: Sched, p: Packet): Sched
    requires EdgesFit(app, s) && Deliverable(app, p)
  {
    var i := p.dest.device;
    s.(devs := s.devs[i := Handled(app[i], s.devs[i], p)])
  }

  /** softswitch_onReceive in a build with or without assertions. */
  function CheckedReceive(app: App, asserts: bool, s: Sched, p: Packet): Outcome<Sched>
    requires EdgesFit(app, s)
  {
    if asserts && Deliverable(app, p) && SanityFails(app, Delivered(app, s, p), p.dest.device) then AssertFailed
    else OnReceive(app, s, p)
  }

  // ----- softswitch_onSend -----

  /** Nothing: nobody was ready. Declined: the send handler said no. */
  datatype Prepared = Nothing | Declined(payload: Blob) | Message(source: Address, pin: OutputPin, payload: Blob)

  function OnSend(app: App, thread: Word, s: Sched): Outcome<(Sched, Prepared)>
    requires |app| == |s.devs|
  {
    if s.queue == [] then Ok((s, Nothing))
    else
      var i := s.queue[0];
      if i >= |app| || s.devs[i].flags == 0 then AssertFailed
      else
        var pin := LowestOne(s.devs[i].flags);
        if pin >= |app[i].outputs| then AssertFailed
        else
          var output := app[i].outputs[pin];
          var (doSend, state, payload) := output.Send(s.devs[i].state);
          var popped := s.(queue := s.queue[1..], devs := s.devs[i := s.devs[i].(state := state, flags := 0)]);
          Ok((UpdateRTS(app, popped, i),
              if doSend then Message(Address(thread, i, pin), output, payload) else Declined(payload)))
  }

  // ----- softswitch_onIdle -----

  const IDLE_SWEEP_CHUNK_SIZE: nat := 32

  datatype SweepResult = SweepResult(found: Option<nat>, checked: Word, offset: nat)

  function NextOffset(n: nat, offset: nat): nat {
    if offset + 1 >= n then 0 else offset + 1
  }

  /** Look at up to chunk devices from offset on, stopping after the first that wants to compute. */
  function Sweep(devs: seq<DevView>, checked: Word, offset: nat, chunk: nat): (r: SweepResult)
    requires offset < |devs|
    ensures r.found.Some? ==> r.found.value < |devs|
    decreases chunk
  {
    if chunk == 0 then SweepResult(None, checked, offset)
    else
      var next := NextOffset(|devs|, offset);
      if WantsCompute(devs[offset].flags) then SweepResult(Some(offset), Add(checked, 1), next)
      else Sweep(devs, Add(checked, 1), next, chunk - 1)
  }

  /** Whether there may be more idle work, and the new state. */
  function OnIdle(app: App, s: Sched): (bool, Sched)
    requires |app| == |s.devs| && s.rtcOffset < |s.devs|
  {
    if s.rtcChecked >= |app| then (false, s)
    else
      var r := Sweep(s.devs, s.rtcChecked, s.rtcOffset, IDLE_SWEEP_CHUNK_SIZE);
      var swept := s.(rtcChecked := r.checked, rtcOffset := r.offset);
      match r.found
      case None => (true, swept)
      case Some(i) =>
        (true, UpdateRTS(app, SetState(swept, i, app[i].Compute(s.devs[i].state)), i))
  }

  /** The device that an idle call computes. */
  function IdleComputes(s: Sched): (found: Option<nat>)
    requires s.rtcOffset < |s.devs|
    ensures found.Some? ==> found.value < |s.devs|
  {
    if s.rtcChecked >= |s.devs| then None else Sweep(s.devs, s.rtcChecked, s.rtcOffset, IDLE_SWEEP_CHUNK_SIZE).found
  }

  /** The state once the compute handler of device i has run. */
  function Computed(app: App, s: Sched, i: nat): Sched
    requires i < |app| == |s.devs|
  {
    SetState(s, i, app[i].Compute(s.devs[i].state))
  }

  /** softswitch_onIdle in a build with or without assertions. */
  function CheckedIdle(app: App, asserts: bool, s: Sched): Outcome<(bool, Sched)>
    requires |app| == |s.devs| && s.rtcOffset < |s.devs|
  {
    var found := IdleComputes(s);
    if asserts && found.Some? && SanityFails(app, Computed(app, s, found.value), found.value) then AssertFailed
    else Ok(OnIdle(app, s))
  }

  // ----- softswitch_on_hardware_idle -----

  function HardwareIdleFrom(app: App, s: Sched, i: nat): Outcome<Sched>
    requires i <= |app| == |s.devs|
    decreases |app| - i
  {
    if i == |app| then Ok(s)
    else if s.devs[i].flags != 0 || i in s.queue then AssertFailed
    else if app[i].onHardwareIdleHandler.None? then HardwareIdleFrom(app, s, i + 1)
    else HardwareIdleFrom(app, UpdateRTS(app, SetState(s, i, app[i].HardwareIdle(s.devs[i].state)), i), i + 1)
  }

  function OnHardwareIdle(app: App, s: Sched): Outcome<Sched>
    requires |app| == |s.devs|
  {
    HardwareIdleFrom(app, s.(queue := []), 0)
  }
}

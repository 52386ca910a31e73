/** A thread's context and devices on the heap: the intrusive ready-to-send list and the event handlers,
    each proved to compute what Scheduler says. */
module ThreadContext {
  import opened Words
  import opened Outcomes
  import opened Devices
  import opened Scheduler
  import opened SchedulerProofs

  class DeviceContext {
    const index: nat
    const device: Device
    var state: Blob
    var edges: seq<seq<Blob>>
    var rtsFlags: Word
    var prev: DeviceContext?
    var next: DeviceContext?

    constructor (index: nat, device: Device, state: Blob, edges: seq<seq<Blob>>)
      ensures this.index == index && this.device == device
      ensures View() == DevView(state, edges, 0) && prev == null && next == null
    {
      this.index, this.device := index, device;
      this.state, this.edges, this.rtsFlags := state, edges, 0;
      this.prev, this.next := null, null;
    }

    ghost function View(): DevView
      reads this`state, this`edges, this`rtsFlags
    {
      DevView(state, edges, rtsFlags)
    }
  }

  class PThreadContext {
    const threadId: Word
    /** Assertions are compiled in. */
    const asserts: bool
    ghost const app: App
    const devices: seq<DeviceContext>
    var rtsHead: DeviceContext?
    var rtsTail: DeviceContext?
    var rtcChecked: Word
    var rtcOffset: nat
    /** The devices on the ready-to-send list, from head to tail. */
    ghost var queue: seq<nat>
    /** What this context and its devices hold, as Scheduler sees it. */
    ghost var model: Sched

    constructor (threadId: Word, asserts: bool, devices: seq<DeviceContext>, ghost app: App)
      requires |devices| == |app|
      requires forall k | 0 <= k < |devices| :: devices[k].index == k && devices[k].device == app[k]
      ensures this.devices == devices && this.app == app && this.threadId == threadId && this.asserts == asserts
      ensures Valid() && model.queue == [] && model.rtcChecked == 0 && model.rtcOffset == 0
    {
      this.threadId, this.asserts, this.devices, this.app := threadId, asserts, devices, app;
      rtsHead, rtsTail, rtcChecked, rtcOffset, queue := null, null, 0, 0, [];
      new;
      model := Sched(seq(|devices|, k requires 0 <= k < |devices| reads this, devices => devices[k].View()), [], 0, 0);
      forall k: nat ensures MirrorAt(k) {
      }
    }

    ghost predicate Wired() {
      && |devices| == |app|
      && forall k | 0 <= k < |devices| :: devices[k].index == k && devices[k].device == app[k]
    }

    ghost function Node(q: seq<nat>, k: int): DeviceContext? {
      if 0 <= k < |q| && q[k] < |devices| then devices[q[k]] else null
    }

    /** The k-th device of q is linked to its neighbours in q. */
    ghost predicate LinkedAt(q: seq<nat>, k: nat)
      reads devices`prev, devices`next
    {
      k < |q| ==>
        && q[k] < |devices|
        && devices[q[k]].next == Node(q, k + 1)
        && devices[q[k]].prev == Node(q, k - 1)
    }

    ghost predicate Chained(q: seq<nat>)
      reads devices`prev, devices`next
    {
      Distinct(q) && forall k: nat :: LinkedAt(q, k)
    }

    /** The pointers spell out the queue; nothing is said of the links of devices that are not on it. */
    ghost predicate Linked()
      reads this`rtsHead, this`rtsTail, this`queue, devices`prev, devices`next
    {
      && Wired()
      && Chained(queue)
      && rtsHead == Node(queue, 0)
      && rtsTail == Node(queue, |queue| - 1)
    }

    ghost predicate Owns(dev: DeviceContext) {
      dev.index < |devices| && devices[dev.index] == dev
    }

    ghost predicate MirrorAt(k: nat)
      reads this`model, devices`state, devices`edges, devices`rtsFlags
    {
      k < |devices| ==> k < |model.devs| && model.devs[k] == devices[k].View()
    }

    ghost predicate Mirrors()
      reads this`model, devices`state, devices`edges, devices`rtsFlags
    {
      |model.devs| == |devices| && forall k: nat :: MirrorAt(k)
    }

    ghost predicate Valid()
      reads this, devices
    {
      && Linked() && Mirrors()
      && model.queue == queue && model.rtcChecked == rtcChecked && model.rtcOffset == rtcOffset
    }

    // ----- the list -----

    method RtsIsOnList(dev: DeviceContext) returns (found: bool)
      requires Linked() && Owns(dev)
      ensures found <==> dev.index in queue
    {
      var curr := rtsHead;
      ghost var k: nat := 0;
      assert LinkedAt(queue, 0);
      while curr != null
        invariant 0 <= k <= |queue| && curr == Node(queue, k)
        invariant dev.index !in queue[..k]
        decreases |queue| - k
      {
        assert LinkedAt(queue, k) && LinkedAt(queue, k + 1);
        if curr == dev {
          return true;
        }
        curr := curr.next;
        k := k + 1;
      }
      assert LinkedAt(queue, k) && queue[..k] == queue;
      return false;
    }

    /** rts_sanity: walk the list and check its flags and its links. */
    method RtsSanity() returns (ok: bool)
      requires Linked()
      ensures ok <==> AllReady()
    {
      if rtsHead == null {
        assert LinkedAt(queue, 0);
        return true;
      }
      var curr := rtsHead;
      ghost var k: nat := 0;
      assert LinkedAt(queue, 0) && LinkedAt(queue, |queue| - 1);
      ok := rtsTail != null;
      while curr != null && ok
        invariant k <= |queue| && curr == Node(queue, k)
        invariant ok <==> forall j: nat | j < k :: ListedReady(j)
        decreases |queue| - k, ok
      {
        assert LinkedAt(queue, k) && LinkedAt(queue, k + 1);
        assert k > 0 ==> LinkedAt(queue, k - 1);
        ok := WantsSend(curr.rtsFlags)
          && ((curr.prev == null && rtsHead == curr) || (curr.prev != null && curr.prev.next == curr))
          && ((curr.next == null && rtsTail == curr) || (curr.next != null && curr.next.prev == curr));
        assert ListedReady(k) <==> ok;
        curr := curr.next;
        k := k + 1;
      }
      assert ok ==> LinkedAt(queue, k);
    }

    /** The check as compiled: nothing without assertions. */
    method CheckList() returns (ok: bool)
      requires Linked()
      ensures ok <==> (asserts ==> AllReady())
    {
      ok := true;
      if asserts {
        ok := RtsSanity();
      }
    }

    ghost predicate ListedReady(k: nat)
      reads this`queue, devices`rtsFlags
    {
      k < |queue| ==> queue[k] < |devices| && WantsSend(devices[queue[k]].rtsFlags)
    }

    ghost predicate AllReady()
      reads this`queue, devices`rtsFlags
    {
      forall k: nat :: ListedReady(k)
    }

    /** Every listed device has a send bit, but nothing is said of device i. */
    ghost predicate ReadyBut(i: nat)
      reads this`queue, devices`rtsFlags
    {
      forall k: nat :: (k < |queue| && queue[k] == i) || ListedReady(k)
    }

    /** The pointer writes of an append. */
    method LinkLast(dev: DeviceContext)
      requires Linked() && Owns(dev) && dev.index !in queue
      modifies this`rtsHead, this`rtsTail, this`queue, devices`prev, devices`next
      ensures Linked() && queue == old(queue) + [dev.index]
    {
      ghost var last := |queue| - 1;
      assert last >= 0 ==> LinkedAt(queue, last);
      dev.prev := rtsTail;
      dev.next := null;
      if rtsTail == null {
        rtsHead := dev;
      } else {
        rtsTail.next := dev;
      }
      rtsTail := dev;
      queue := queue + [dev.index];
      AppendKeeps(old(queue), dev.index);
      forall k: nat ensures LinkedAt(queue, k) {
        assert old(LinkedAt(queue, k));
        assert last >= 0 ==> Apart(old(queue), k, last);
      }
    }

    twostate lemma AppendedReady(dev: DeviceContext)
      requires Owns(dev) && queue == old(queue) + [dev.index]
      requires forall d | d in devices :: d.rtsFlags == old(d.rtsFlags)
      ensures AllReady() <==> old(AllReady()) && WantsSend(dev.rtsFlags)
    {
      var n := |old(queue)|;
      assert ListedReady(n) <==> WantsSend(dev.rtsFlags);
      forall k: nat | k < n ensures ListedReady(k) <==> old(ListedReady(k)) {
      }
      if AllReady() {
        forall k: nat ensures old(ListedReady(k)) {
          assert ListedReady(k);
        }
      }
      if old(AllReady()) && WantsSend(dev.rtsFlags) {
        forall k: nat ensures ListedReady(k) {
          assert old(ListedReady(k));
        }
      }
    }

    /** rts_append: false when one of its checks of the list fails. */
    method RtsAppend(dev: DeviceContext) returns (ok: bool)
      requires Linked() && Owns(dev) && dev.index !in queue
      modifies this`rtsHead, this`rtsTail, this`queue, devices`prev, devices`next
      ensures Linked()
      ensures ok <==> (asserts ==> old(AllReady()) && WantsSend(dev.rtsFlags))
      ensures ok ==> queue == old(queue) + [dev.index]
      ensures old(AllReady()) && WantsSend(dev.rtsFlags) ==> AllReady()
    {
      ok := CheckList();
      if !ok {
        return;
      }
      var listed := RtsIsOnList(dev);
      LinkLast(dev);
      AppendedReady(dev);
      ok := CheckList();
      ok := ok && !(asserts && listed);
    }

    lemma EndsWithout(q: seq<nat>, at: nat, r: seq<nat>)
      requires at < |q| && r == q[..at] + q[at + 1..]
      ensures Node(r, 0) == Node(q, if at == 0 then 1 else 0)
      ensures Node(r, |r| - 1) == Node(q, if at == |q| - 1 then at - 1 else |q| - 1)
    {
    }

    /** Joining the neighbours of the device at a position takes it out of the list. */
    twostate lemma Unlinked(at: nat)
      requires Wired() && old(Chained(queue)) && queue == old(queue) && at < |queue|
      requires forall j: nat | j < |devices| ::
        devices[j].next == if at > 0 && j == queue[at - 1] then Node(queue, at + 1) else old(devices[j].next)
      requires forall j: nat | j < |devices| ::
        devices[j].prev == if at + 1 < |queue| && j == queue[at + 1] then Node(queue, at - 1) else old(devices[j].prev)
      ensures Chained(queue[..at] + queue[at + 1..])
    {
      var q, r := queue, queue[..at] + queue[at + 1..];
      assert Distinct(r) by {
        WithoutAt(q, q[at], at);
        WithoutKeeps(q, q[at]);
      }
      forall k: nat ensures LinkedAt(r, k) {
        var m: nat := if k < at then k else k + 1;
        assert at > 0 ==> Apart(q, m, at - 1);
        assert Apart(q, m, at + 1);
        assert old(LinkedAt(q, m));
        assert old(LinkedAt(q, if k + 1 < at then k + 1 else k + 2));
      }
    }

    /** The pointer writes of a removal. */
    method Unlink(dev: DeviceContext, ghost at: nat)
      requires Linked() && Owns(dev) && at < |queue| && queue[at] == dev.index
      modifies this`rtsHead, this`rtsTail, devices`prev, devices`next
      ensures rtsHead == Node(queue, if at == 0 then 1 else 0)
      ensures rtsTail == Node(queue, if at == |queue| - 1 then at - 1 else |queue| - 1)
      ensures forall j: nat | j < |devices| ::
        devices[j].next == if at > 0 && j == queue[at - 1] then Node(queue, at + 1) else old(devices[j].next)
      ensures forall j: nat | j < |devices| ::
        devices[j].prev == if at + 1 < |queue| && j == queue[at + 1] then Node(queue, at - 1) else old(devices[j].prev)
    {
      assert LinkedAt(queue, at) && LinkedAt(queue, at + 1);
      assert at > 0 ==> LinkedAt(queue, at - 1);
      assert (rtsHead == dev <==> at == 0) by { assert LinkedAt(queue, 0); }
      assert (rtsTail == dev <==> at == |queue| - 1) by { assert LinkedAt(queue, |queue| - 1); }
      if rtsHead == dev {
        rtsHead := dev.next;
      } else {
        dev.prev.next := dev.next;
      }
      if rtsTail == dev {
        rtsTail := dev.prev;
      } else {
        dev.next.prev := dev.prev;
      }
    }

    /** Take a device out of the list. */
    method Unlist(dev: DeviceContext)
      requires Linked() && Owns(dev) && dev.index in queue
      modifies this`rtsHead, this`rtsTail, this`queue, devices`prev, devices`next
      ensures Linked() && queue == Without(old(queue), dev.index)
    {
      ghost var at: nat :| at < |queue| && queue[at] == dev.index;
      ghost var q, r := queue, queue[..at] + queue[at + 1..];
      Unlink(dev, at);
      EndsWithout(q, at, r);
      assert rtsHead == Node(r, 0) && rtsTail == Node(r, |r| - 1);
      Unlinked(at);
      queue := r;
      WithoutAt(q, dev.index, at);
    }

    twostate lemma RemovedReady(at: nat)
      requires at < |old(queue)| && queue == old(queue)[..at] + old(queue)[at + 1..] && old(Distinct(queue))
      requires forall d | d in devices :: d.rtsFlags == old(d.rtsFlags)
      ensures old(ReadyBut(queue[at])) ==> AllReady()
    {
      if old(ReadyBut(queue[at])) {
        forall k: nat ensures ListedReady(k) {
          var m: nat := if k < at then k else k + 1;
          assert old(Apart(queue, m, at));
          assert old((m < |queue| && queue[m] == queue[at]) || ListedReady(m));
        }
      }
    }

    lemma ReadyForAll(i: nat)
      requires AllReady()
      ensures ReadyBut(i)
    {
    }

    /** rts_remove: false when its check of the list on entry fails, and then the list is as it was. */
    method RtsRemove(dev: DeviceContext) returns (ok: bool)
      requires Linked() && Owns(dev) && dev.index in queue
      modifies this`rtsHead, this`rtsTail, this`queue, devices`prev, devices`next
      ensures Linked()
      ensures ok <==> (asserts ==> old(AllReady()))
      ensures queue == if ok then Without(old(queue), dev.index) else old(queue)
      ensures ok && old(ReadyBut(dev.index)) ==> AllReady()
    {
      ok := CheckList();
      if !ok {
        return;
      }
      var listed := RtsIsOnList(dev);
      ghost var at: nat :| at < |queue| && queue[at] == dev.index;
      assert AllReady() ==> ReadyBut(dev.index);
      Unlist(dev);
      WithoutAt(old(queue), dev.index, at);
      RemovedReady(at);
      ok := CheckList();
      ok := ok && (asserts ==> listed);
    }

    /** The pointer writes of a pop. */
    method UnlinkFirst() returns (head: DeviceContext?)
      requires Linked()
      modifies this`rtsHead, this`rtsTail, this`queue, devices`prev, devices`next
      ensures Linked()
      ensures old(queue) == [] ==> head == null && queue == []
      ensures old(queue) != [] ==> head == Node(old(queue), 0) && queue == old(queue)[1..]
    {
      assert LinkedAt(queue, 0) && LinkedAt(queue, 1);
      head := rtsHead;
      if head != null {
        var next := head.next;
        if next != null {
          next.prev := null;
        } else {
          rtsTail := null;
        }
        rtsHead := next;
        DistinctTail(queue);
        queue := queue[1..];
        forall k: nat ensures LinkedAt(queue, k) {
          assert old(LinkedAt(queue, k + 1));
          assert Apart(old(queue), k + 1, 1);
        }
      }
    }

    twostate lemma PoppedReady()
      requires queue == if old(queue) == [] then [] else old(queue)[1..]
      requires forall d | d in devices :: d.rtsFlags == old(d.rtsFlags)
      ensures old(AllReady()) ==> AllReady()
    {
      if old(AllReady()) {
        forall k: nat ensures ListedReady(k) {
          assert old(ListedReady(k + 1));
        }
      }
    }

    /** rts_pop: its checks of the list fail only on entry. */
    method RtsPop() returns (head: DeviceContext?, ok: bool)
      requires Linked()
      modifies this`rtsHead, this`rtsTail, this`queue, devices`prev, devices`next
      ensures Linked()
      ensures ok <==> (asserts ==> old(AllReady()))
      ensures ok && old(queue) == [] ==> head == null && queue == []
      ensures ok && old(queue) != [] ==> head == Node(old(queue), 0) && queue == old(queue)[1..]
      ensures ok && old(AllReady()) ==> AllReady()
    {
      head := null;
      ok := CheckList();
      if !ok {
        return;
      }
      assert LinkedAt(queue, 0);
      var first := rtsHead == null || rtsHead.prev == null;
      head := UnlinkFirst();
      PoppedReady();
      ok := CheckList();
      ok := ok && first;
    }

    method IsRTSReady() returns (ready: bool)
      requires Linked()
      ensures ready <==> queue != []
    {
      assert LinkedAt(queue, 0);
      ready := rtsHead != null;
    }

    // ----- events -----

    /** Move a device on or off the list when it starts or stops being ready. */
    method Requeue(dev: DeviceContext, anyReadyPrev: bool, anyReadyNow: bool) returns (ok: bool)
      requires Linked() && Owns(dev) && (dev.index in queue <==> anyReadyPrev)
      requires anyReadyNow == WantsSend(dev.rtsFlags) && ReadyBut(dev.index)
      modifies this`rtsHead, this`rtsTail, this`queue, devices`prev, devices`next
      ensures Linked()
      ensures ok <==> !(asserts && anyReadyPrev && !anyReadyNow)
      ensures ok ==> AllReady()
      ensures queue == if anyReadyPrev == anyReadyNow || !ok then old(queue)
                       else if anyReadyNow then old(queue) + [dev.index]
                       else Without(old(queue), dev.index)
    {
      ListReadyExactly(dev);
      if anyReadyPrev == anyReadyNow {
        return true;
      }
      if anyReadyNow {
        ok := RtsAppend(dev);
      } else {
        ok := RtsRemove(dev);
      }
    }

    lemma ListReadyExactly(dev: DeviceContext)
      requires Owns(dev) && ReadyBut(dev.index)
      ensures AllReady() <==> (dev.index in queue ==> WantsSend(dev.rtsFlags))
    {
      if dev.index in queue {
        var k: nat :| k < |queue| && queue[k] == dev.index;
        assert ListedReady(k) <==> WantsSend(dev.rtsFlags);
      }
      if dev.index in queue ==> WantsSend(dev.rtsFlags) {
        forall k: nat ensures ListedReady(k) {
          assert (k < |queue| && queue[k] == dev.index) || ListedReady(k);
        }
      }
    }

    /** The writes of softswitch_UpdateRTS to the flags and the list. */
    method SetFlags(dev: DeviceContext, flags: Word) returns (ok: bool)
      requires Linked() && Owns(dev) && (dev.index in queue <==> WantsSend(dev.rtsFlags)) && AllReady()
      modifies this`rtsHead, this`rtsTail, this`queue, devices`prev, devices`next, dev`rtsFlags
      ensures Linked() && dev.rtsFlags == flags
      ensures ok <==> !(asserts && old(WantsSend(dev.rtsFlags)) && !WantsSend(flags))
      ensures ok ==> AllReady()
      ensures queue == if old(WantsSend(dev.rtsFlags)) == WantsSend(flags) || !ok then old(queue)
                       else if WantsSend(flags) then old(queue) + [dev.index]
                       else Without(old(queue), dev.index)
    {
      var sane := CheckList();
      var anyReadyPrev := WantsSend(dev.rtsFlags);
      var listed := RtsIsOnList(dev);
      ReadyForAll(dev.index);
      dev.rtsFlags := flags;
      OthersStayReady(dev.index);
      ok := Requeue(dev, anyReadyPrev, WantsSend(flags));
      ok := ok && sane && (asserts ==> anyReadyPrev == listed);
    }

    /** softswitch_UpdateRTS: false when one of its assertions fails, with the new flags written. */
    method UpdateRTS(dev: DeviceContext) returns (ok: bool)
      requires Valid() && Owns(dev) && Listed(model, dev.index) && AllReady()
      modifies this, devices
      ensures Valid()
      ensures ok <==> !(asserts && Removes(app, old(model), dev.index))
      ensures model == if ok then Scheduler.UpdateRTS(app, old(model), dev.index)
                       else Marked(app, old(model), dev.index)
      ensures ok ==> AllReady()
    {
      assert MirrorAt(dev.index);
      var flags := dev.device.Ready(dev.state);
      if WantsCompute(flags) {
        rtcChecked := 0;
      }
      ok := SetFlags(dev, flags);
      model := if ok then Scheduler.UpdateRTS(app, model, dev.index) else Marked(app, model, dev.index);
      forall k: nat ensures MirrorAt(k) {
        assert old(MirrorAt(k));
      }
    }

    /** A change of one device's fields leaves the others on the list as ready as they were. */
    twostate lemma OthersStayReady(i: nat)
      requires queue == old(queue) && i < |devices|
      requires Wired() && forall j: nat | j < |devices| && j != i :: devices[j].rtsFlags == old(devices[j].rtsFlags)
      ensures old(ReadyBut(i)) ==> ReadyBut(i)
    {
      if old(ReadyBut(i)) {
        forall k: nat ensures (k < |queue| && queue[k] == i) || ListedReady(k) {
          assert old((k < |queue| && queue[k] == i) || ListedReady(k));
        }
      }
    }

    /** Write a device's fields: what its handler, or the softswitch around it, does to them. */
    method Write(dev: DeviceContext, state: Blob, edges: seq<seq<Blob>>, flags: Word)
      requires Linked() && Mirrors() && Owns(dev)
      modifies this`model, dev`state, dev`edges, dev`rtsFlags
      ensures Valid()
      ensures model == Sched(old(model).devs[dev.index := DevView(state, edges, flags)], queue, rtcChecked, rtcOffset)
      ensures old(AllReady()) && (dev.index in queue ==> WantsSend(flags)) ==> AllReady()
    {
      dev.state, dev.edges, dev.rtsFlags := state, edges, flags;
      model := Sched(model.devs[dev.index := DevView(state, edges, flags)], queue, rtcChecked, rtcOffset);
      forall k: nat ensures MirrorAt(k) {
        assert old(MirrorAt(k));
      }
      StaysReady(dev);
    }

    twostate lemma StaysReady(dev: DeviceContext)
      requires queue == old(queue) && Wired() && Owns(dev)
      requires forall j: nat | j < |devices| && j != dev.index :: devices[j].rtsFlags == old(devices[j].rtsFlags)
      ensures old(AllReady()) && (dev.index in queue ==> WantsSend(dev.rtsFlags)) ==> AllReady()
    {
      if old(AllReady()) {
        assert old(ReadyBut(dev.index));
        OthersStayReady(dev.index);
        ListReadyExactly(dev);
      }
    }

    lemma InvIsReady()
      requires Valid() && Inv(app, model)
      ensures AllReady()
    {
      forall k: nat ensures ListedReady(k) {
        if k < |queue| {
          assert queue[k] in queue && LinkedAt(queue, k) && MirrorAt(queue[k]) && Listed(model, queue[k]);
        }
      }
    }

    /** The receive handler, on the edge that the packet came along if the pin needs it: false, and nothing changed,
        when that edge is not there. */
    method Handle(dev: DeviceContext, packet: Packet) returns (found: bool)
      requires Valid() && WellFormed(app) && Inv(app, model) && Owns(dev)
      requires dev.index == packet.dest.device && !dev.device.isExternal && packet.dest.pin < |dev.device.inputs|
      modifies this`model, dev`state, dev`edges, dev`rtsFlags
      ensures Valid() && (found <==> Deliverable(app, packet))
      ensures model == if found then Delivered(app, old(model), packet) else old(model)
      ensures found ==> AllReady()
    {
      assert MirrorAt(dev.index) && Listed(model, dev.index);
      InvIsReady();
      var pin := dev.device.inputs[packet.dest.pin];
      var edges := dev.edges;
      var result;
      if pin.usesEdge {
        var edge := LookUpEdge(pin.sources, packet.source);
        if edge.None? {
          return false;
        }
        FindEdgeFinds(pin.sources, packet.source);
        var k := edge.value;
        result := pin.Receive(dev.state, pin.sources[k].properties, edges[packet.dest.pin][k], packet.payload);
        edges := edges[packet.dest.pin := edges[packet.dest.pin][k := result.1]];
      } else {
        result := pin.Receive(dev.state, [], [], packet.payload);
      }
      Write(dev, result.0, edges, dev.rtsFlags);
      return true;
    }

    /** softswitch_onReceive: false when one of its assertions fails, and if the packet could not be delivered then
        nothing has changed. */
    method OnReceive(packet: Packet) returns (ok: bool)
      requires Valid() && WellFormed(app) && Inv(app, model)
      modifies this, devices
      ensures Valid()
      ensures ok <==> CheckedReceive(app, asserts, old(model), packet).Ok?
      ensures ok ==> CheckedReceive(app, asserts, old(model), packet).value == model
      ensures !Deliverable(app, packet) ==> model == old(model)
    {
      if packet.dest.device >= |devices| {
        return false;
      }
      var dev := devices[packet.dest.device];
      if dev.device.isExternal || packet.dest.pin >= |dev.device.inputs| {
        return false;
      }
      ReceiveKeepsInv(app, asserts, model, packet);
      ok := Handle(dev, packet);
      if ok {
        DeliveredQueue(app, old(model), packet);
        ok := UpdateRTS(dev);
      }
    }

    /** The part of softswitch_onSend after the pop: run the handler of the lowest ready pin. */
    method SendFrom(dev: DeviceContext) returns (sent: Prepared)
      requires Linked() && Mirrors() && Owns(dev) && dev.index !in queue && AllReady()
      requires dev.rtsFlags != 0 && LowestOne(dev.rtsFlags) < |dev.device.outputs|
      modifies this, devices
      ensures Valid()
      ensures var pin := old(LowestOne(dev.rtsFlags));
              var output := dev.device.outputs[pin];
              var (doSend, state, payload) := output.Send(old(dev.state));
              var fired := DevView(state, old(dev.edges), 0);
              && sent == (if doSend then Message(Address(threadId, dev.index, pin), output, payload)
                          else Declined(payload))
              && model == Scheduler.UpdateRTS(app,
                            old(Sched(model.devs[dev.index := fired], queue, rtcChecked, rtcOffset)), dev.index)
    {
      var pinIndex := RightMostOne(dev.rtsFlags);
      var pin := dev.device.outputs[pinIndex];
      var result := pin.Send(dev.state);
      sent := if result.0 then Message(Address(threadId, dev.index, pinIndex), pin, result.2) else Declined(result.2);
      Write(dev, result.1, dev.edges, 0);
      var ok := UpdateRTS(dev);
      assert ok;
    }

    /** softswitch_onSend: none of its assertions fails. */
    method OnSend() returns (sent: Prepared)
      requires Valid() && WellFormed(app) && Inv(app, model)
      modifies this, devices
      ensures Valid()
      ensures Scheduler.OnSend(app, threadId, old(model)) == Ok((model, sent))
    {
      SendKeepsInv(app, threadId, model);
      InvIsReady();
      assert LinkedAt(queue, 0);
      var dev, ok := RtsPop();
      assert ok;
      if dev == null {
        return Nothing;
      }
      assert MirrorAt(dev.index);
      DistinctTail(old(queue));
      sent := SendFrom(dev);
    }

    /** The loop of softswitch_onIdle: look for a device that wants to compute, for at most one chunk. */
    method SweepChunk() returns (dev: DeviceContext, found: bool)
      requires Linked() && Mirrors() && rtcOffset < |devices|
      modifies this`rtcOffset, this`rtcChecked
      ensures var r := Sweep(model.devs, old(rtcChecked), old(rtcOffset), IDLE_SWEEP_CHUNK_SIZE);
              && rtcChecked == r.checked && rtcOffset == r.offset
              && found == r.found.Some? && (found ==> Owns(dev) && dev.index == r.found.value)
    {
      dev := devices[rtcOffset];
      var i := 0;
      while i < IDLE_SWEEP_CHUNK_SIZE
        invariant 0 <= i <= IDLE_SWEEP_CHUNK_SIZE && rtcOffset < |devices|
        invariant Sweep(model.devs, old(rtcChecked), old(rtcOffset), IDLE_SWEEP_CHUNK_SIZE)
               == Sweep(model.devs, rtcChecked, rtcOffset, IDLE_SWEEP_CHUNK_SIZE - i)
      {
        assert MirrorAt(rtcOffset);
        dev := devices[rtcOffset];
        rtcOffset := rtcOffset + 1;
        rtcChecked := Add(rtcChecked, 1);
        if rtcOffset >= |devices| {
          rtcOffset := 0;
        }
        if WantsCompute(dev.rtsFlags) {
          return dev, true;
        }
        i := i + 1;
      }
      return dev, false;
    }

    /** Store the state a handler has left, then bring the flags up to date. */
    method Finish(dev: DeviceContext, state: Blob) returns (ok: bool)
      requires Linked() && Mirrors() && Owns(dev) && (dev.index in queue <==> WantsSend(dev.rtsFlags)) && AllReady()
      modifies this, devices
      ensures Valid()
      ensures var s := Scheduler.SetState(old(Sched(model.devs, queue, rtcChecked, rtcOffset)), dev.index, state);
              && (ok <==> !(asserts && Removes(app, s, dev.index)))
              && model == (if ok then Scheduler.UpdateRTS(app, s, dev.index) else Marked(app, s, dev.index))
      ensures ok ==> AllReady()
    {
      assert MirrorAt(dev.index);
      Write(dev, state, dev.edges, dev.rtsFlags);
      ok := UpdateRTS(dev);
    }

    /** softswitch_onIdle: whether it met its assertions, and whether to look again. */
    method OnIdle() returns (ok: bool, more: bool)
      requires Valid() && Inv(app, model)
      modifies this, devices
      ensures Valid()
      ensures ok <==> CheckedIdle(app, asserts, old(model)).Ok?
      ensures ok ==> CheckedIdle(app, asserts, old(model)).value == (more, model)
    {
      IdleKeepsInv(app, asserts, model);
      if rtcChecked >= |devices| {
        return true, false;
      }
      InvIsReady();
      var dev, found := SweepChunk();
      more, ok := true, true;
      if found {
        assert MirrorAt(dev.index) && Listed(model, dev.index);
        ok := Finish(dev, dev.device.Compute(dev.state));
      } else {
        Resync();
      }
    }

    /** Bring the ghost model back in step with the fields of the context itself. */
    ghost method Resync()
      requires Linked() && Mirrors()
      modifies this`model
      ensures Valid() && model == old(Sched(model.devs, queue, rtcChecked, rtcOffset))
    {
      model := Sched(model.devs, queue, rtcChecked, rtcOffset);
      forall k: nat ensures MirrorAt(k) {
        assert old(MirrorAt(k));
      }
    }

    method ClearList()
      requires Valid()
      modifies this`rtsHead, this`rtsTail, this`queue, this`model
      ensures Valid() && model == old(model).(queue := [])
    {
      rtsHead, rtsTail, queue := null, null, [];
      Resync();
    }

    /** One turn of the loop of softswitch_on_hardware_idle. */
    method HardwareIdleDevice(i: nat) returns (ok: bool)
      requires Valid() && i < |devices| && AllReady()
      modifies this, devices
      ensures Valid() && AllReady()
      ensures HardwareIdleFrom(app, old(model), i) == if ok then HardwareIdleFrom(app, model, i + 1) else AssertFailed
    {
      assert MirrorAt(i);
      var dev := devices[i];
      var listed := RtsIsOnList(dev);
      ok := dev.rtsFlags == 0 && !listed;
      if ok && dev.device.onHardwareIdleHandler.Some? {
        var updated := Finish(dev, dev.device.HardwareIdle(dev.state));
        assert updated;
      }
    }

    /** The loop of softswitch_on_hardware_idle. */
    method HardwareIdleDevices() returns (ok: bool)
      requires Valid() && AllReady()
      modifies this, devices
      ensures Valid()
      ensures HardwareIdleFrom(app, old(model), 0) == if ok then Ok(model) else AssertFailed
    {
      for i := 0 to |devices|
        invariant Valid() && AllReady()
        invariant HardwareIdleFrom(app, old(model), 0) == HardwareIdleFrom(app, model, i)
      {
        ok := HardwareIdleDevice(i);
        if !ok {
          return;
        }
      }
      return true;
    }

    /** softswitch_on_hardware_idle: false when one of its own two assertions fails; no check of the list does. */
    method OnHardwareIdle() returns (ok: bool)
      requires Valid()
      modifies this, devices
      ensures Valid()
      ensures Scheduler.OnHardwareIdle(app, old(model)) == if ok then Ok(model) else AssertFailed
    {
      ClearList();
      ok := HardwareIdleDevices();
    }

    ghost predicate ListedBelow(i: nat)
      reads this`model
    {
      forall k | 0 <= k < |model.queue| :: model.queue[k] < i
    }

    /** One turn of the loop of softswitch_init; no check of the list fails. */
    method InitDevice(i: nat)
      requires Valid() && i < |devices| && ListedBelow(i) && AllReady()
      modifies this, devices
      ensures Valid() && ListedBelow(i + 1) && AllReady()
      ensures InitFrom(app, old(model), i) == InitFrom(app, model, i + 1)
    {
      assert MirrorAt(i) && i !in queue;
      var dev := devices[i];
      var state := dev.device.Initialise(dev.state);
      var flags := dev.device.Ready(state);
      Write(dev, state, dev.edges, flags);
      if WantsSend(flags) {
        assert MirrorAt(i);
        ListFirst(dev);
      }
    }

    /** A device that softswitch_init puts on the list. */
    method ListFirst(dev: DeviceContext)
      requires Valid() && Owns(dev) && dev.index !in queue && AllReady() && WantsSend(dev.rtsFlags)
      modifies this`rtsHead, this`rtsTail, this`queue, this`model, devices`prev, devices`next
      ensures Valid() && AllReady() && model == old(model).(queue := old(model).queue + [dev.index])
    {
      var ok := RtsAppend(dev);
      assert ok;
      Resync();
    }

    /** The loop of softswitch_init. */
    method InitDevices()
      requires Valid() && model.queue == []
      modifies this, devices
      ensures Valid() && InitFrom(app, old(model), 0) == model
    {
      for i := 0 to |devices|
        invariant Valid() && ListedBelow(i) && AllReady()
        invariant InitFrom(app, old(model), 0) == InitFrom(app, model, i)
      {
        InitDevice(i);
      }
    }

    /** softswitch_init. */
    method Init()
      requires Valid()
      modifies this, devices
      ensures Valid() && model == Scheduler.Init(app, old(model))
    {
      ClearList();
      InitDevices();
    }
  }
}

/** The invariant of a thread's scheduler, and that every event keeps it. */
module SchedulerProofs {
  import opened Words
  import opened Outcomes
  import opened Devices
  import opened Scheduler

  // ----- the invariant -----

  ghost predicate Apart(q: seq<nat>, i: nat, j: nat) {
    i < |q| && j < |q| && i != j ==> q[i] != q[j]
  }

  ghost predicate Distinct(q: seq<nat>) {
    forall i: nat, j: nat :: Apart(q, i, j)
  }

  /** Device i is on the list exactly when it wants to send. */
  ghost predicate Listed(s: Sched, i: nat)
    requires i < |s.devs|
  {
    i in s.queue <==> WantsSend(s.devs[i].flags)
  }

  /** The flags of device i are what its handler says of its state. */
  ghost predicate Current(app: App, s: Sched, i: nat)
    requires i < |app| == |s.devs|
  {
    s.devs[i].flags == app[i].Ready(s.devs[i].state)
  }

  /** The device k places before the offset, going round. */
  function Back(n: nat, offset: nat, k: nat): nat
    requires offset < n && 1 <= k <= n
  {
    if k <= offset then offset - k else offset - k + n
  }

  /** The last rtcChecked devices before the offset, and at most all of them, do not want to compute;
      but nothing is said of the excepted device. */
  ghost predicate SweptBut(s: Sched, except: int) {
    forall k: nat | 1 <= k <= s.rtcChecked && k <= |s.devs| && s.rtcOffset < |s.devs| ::
      var i := Back(|s.devs|, s.rtcOffset, k);
      i == except || !WantsCompute(s.devs[i].flags)
  }

  ghost predicate QueueInv(s: Sched) {
    && Distinct(s.queue)
    && (forall k | 0 <= k < |s.queue| :: s.queue[k] < |s.devs|)
    && (forall i: nat | i < |s.devs| :: Listed(s, i))
  }

  ghost predicate Inv(app: App, s: Sched) {
    && EdgesFit(app, s)
    && |app| < WORD_LIMIT
    && s.rtcOffset < |app|
    && QueueInv(s)
    && (forall i: nat | i < |app| :: Current(app, s, i))
    && SweptBut(s, -1)
  }

  /** All of Inv except what UpdateRTS(i) is about to bring up to date. */
  ghost predicate Stale(app: App, s: Sched, i: nat) {
    && EdgesFit(app, s)
    && |app| < WORD_LIMIT
    && i < |app|
    && s.rtcOffset < |app|
    && QueueInv(s)
    && (forall j: nat | j < |app| && j != i :: Current(app, s, j))
    && SweptBut(s, i)
  }

  ghost predicate WellFormed(app: App) {
    forall i | 0 <= i < |app| :: PinsDeclared(app[i]) && SourcesSorted(app[i])
  }

  // ----- the list operations -----

  lemma DistinctTail(q: seq<nat>)
    requires Distinct(q) && q != []
    ensures Distinct(q[1..]) && q[0] !in q[1..]
    ensures forall x: nat :: x in q <==> x == q[0] || x in q[1..]
  {
    forall i: nat, j: nat ensures Apart(q[1..], i, j) {
      assert Apart(q, i + 1, j + 1);
    }
    forall j: nat | j < |q| - 1 ensures q[1..][j] != q[0] {
      assert Apart(q, 0, j + 1);
    }
  }

  lemma {:induction false} WithoutAt(q: seq<nat>, i: nat, k: nat)
    requires Distinct(q) && k < |q| && q[k] == i
    ensures Without(q, i) == q[..k] + q[k + 1..]
  {
    if k > 0 {
      assert Apart(q, 0, k);
      DistinctTail(q);
      WithoutAt(q[1..], i, k - 1);
      assert q == [q[0]] + q[1..];
    }
  }

  /** Removing a device keeps the others, in the same order. */
  lemma WithoutKeeps(q: seq<nat>, i: nat)
    requires Distinct(q) && i in q
    ensures Distinct(Without(q, i)) && |Without(q, i)| == |q| - 1
    ensures forall x: nat :: x in Without(q, i) <==> x in q && x != i
  {
    var k: nat :| k < |q| && q[k] == i;
    WithoutAt(q, i, k);
    var r := Without(q, i);
    forall a: nat, b: nat ensures Apart(r, a, b) {
      assert Apart(q, if a < k then a else a + 1, if b < k then b else b + 1);
    }
    forall x: nat ensures x in r <==> x in q && x != i {
      if x in q && x != i {
        var m :| 0 <= m < |q| && q[m] == x;
        assert x == if m < k then r[m] else r[m - 1];
      }
      if x in r {
        var m: nat :| m < |r| && r[m] == x;
        assert Apart(q, k, if m < k then m else m + 1);
      }
    }
  }

  lemma AppendKeeps(q: seq<nat>, i: nat)
    requires Distinct(q) && i !in q
    ensures Distinct(q + [i])
    ensures forall x: nat :: x in q + [i] <==> x in q || x == i
  {
    forall a: nat, b: nat ensures Apart(q + [i], a, b) {
      assert Apart(q, a, b);
    }
  }

  lemma UpdateQueue(app: App, s: Sched, i: nat)
    requires i < |app| == |s.devs| && QueueInv(s)
    ensures QueueInv(UpdateRTS(app, s, i))
  {
    assert Listed(s, i);
    var s' := UpdateRTS(app, s, i);
    var before, now := WantsSend(s.devs[i].flags), WantsSend(s'.devs[i].flags);
    if before && !now {
      WithoutKeeps(s.queue, i);
      forall k | 0 <= k < |s'.queue| ensures s'.queue[k] < |s'.devs| {
        assert s'.queue[k] in s.queue;
      }
    } else if !before && now {
      AppendKeeps(s.queue, i);
    }
    forall j: nat | j < |s.devs| ensures Listed(s', j) {
      assert Listed(s, j);
    }
  }

  /** UpdateRTS repairs everything a handler may have broken. */
  lemma UpdateRestores(app: App, s: Sched, i: nat)
    requires Stale(app, s, i)
    ensures Inv(app, UpdateRTS(app, s, i))
  {
    var s' := UpdateRTS(app, s, i);
    UpdateQueue(app, s, i);
    forall j: nat | j < |app| ensures Current(app, s', j) {
      if j != i { assert Current(app, s, j); }
    }
  }

  // ----- the check of the list in builds with assertions -----

  lemma QueueIsSane(s: Sched)
    requires QueueInv(s)
    ensures Sane(s)
  {
    forall k | 0 <= k < |s.queue| ensures s.queue[k] < |s.devs| && WantsSend(s.devs[s.queue[k]].flags) {
      assert Listed(s, s.queue[k]);
    }
  }

  /** UpdateRTS writes the new flags before it changes the list. The check made at that point, on entry to
      rts_append or rts_remove, fails exactly when the device is about to be removed; no other check fails. */
  lemma SanityFailsOnRemoval(app: App, s: Sched, i: nat)
    requires i < |app| == |s.devs| && QueueInv(s)
    ensures Sane(s) && Sane(UpdateRTS(app, s, i))
    ensures Sane(Marked(app, s, i)) <==> !Removes(app, s, i)
    ensures SanityFails(app, s, i) <==> Removes(app, s, i)
  {
    var marked := Marked(app, s, i);
    QueueIsSane(s);
    UpdateQueue(app, s, i);
    QueueIsSane(UpdateRTS(app, s, i));
    assert Listed(s, i);
    if Removes(app, s, i) {
      var k :| 0 <= k < |s.queue| && s.queue[k] == i;
      assert !WantsSend(marked.devs[marked.queue[k]].flags);
    }
  }

  // ----- events -----

  lemma HandledFits(d: Device, v: DevView, p: Packet)
    requires |v.edges| == |d.inputs| && p.dest.pin < |d.inputs|
    requires forall k | 0 <= k < |d.inputs| :: |v.edges[k]| == |d.inputs[k].sources|
    ensures var v' := Handled(d, v, p);
            && v'.flags == v.flags && |v'.edges| == |d.inputs|
            && forall k | 0 <= k < |d.inputs| :: |v'.edges[k]| == |d.inputs[k].sources|
  {
    FindEdgeFinds(d.inputs[p.dest.pin].sources, p.source);
  }

  lemma DeliveredQueue(app: App, s: Sched, p: Packet)
    requires Inv(app, s) && Deliverable(app, p)
    ensures Stale(app, Delivered(app, s, p), p.dest.device)
  {
    var i := p.dest.device;
    HandledFits(app[i], s.devs[i], p);
    var s1 := Delivered(app, s, p);
    forall j: nat | j < |app| ensures Listed(s1, j) && (j != i ==> Current(app, s1, j)) {
      assert Listed(s, j) && Current(app, s, j);
    }
  }

  lemma DeliveryKeepsInv(app: App, s: Sched, p: Packet)
    requires Inv(app, s)
    ensures OnReceive(app, s, p).Ok? <==> Deliverable(app, p)
    ensures OnReceive(app, s, p).Ok? ==> Inv(app, OnReceive(app, s, p).value)
  {
    if Deliverable(app, p) {
      DeliveredQueue(app, s, p);
      UpdateRestores(app, Delivered(app, s, p), p.dest.device);
    }
  }

  /** The device was on the list, and its receive handler leaves it with nothing to send. */
  predicate ReceiveRemoves(app: App, s: Sched, p: Packet)
    requires EdgesFit(app, s)
  {
    Deliverable(app, p) && Removes(app, Delivered(app, s, p), p.dest.device)
  }

  /** A receive fails an assertion exactly when the packet's device, pin or edge is not there or, in a build with
      assertions, its handler takes the device off the list; otherwise the invariant is kept. */
  lemma ReceiveKeepsInv(app: App, asserts: bool, s: Sched, p: Packet)
    requires Inv(app, s)
    ensures CheckedReceive(app, asserts, s, p).AssertFailed?
            <==> !Deliverable(app, p) || (asserts && ReceiveRemoves(app, s, p))
    ensures CheckedReceive(app, asserts, s, p).Ok? ==>
              CheckedReceive(app, asserts, s, p) == OnReceive(app, s, p) && Inv(app, OnReceive(app, s, p).value)
  {
    DeliveryKeepsInv(app, s, p);
    if Deliverable(app, p) {
      DeliveredQueue(app, s, p);
      SanityFailsOnRemoval(app, Delivered(app, s, p), p.dest.device);
    }
  }

  lemma PopKeeps(app: App, s: Sched, state: Blob)
    requires Inv(app, s) && s.queue != []
    ensures var i := s.queue[0];
            Stale(app, s.(queue := s.queue[1..], devs := s.devs[i := s.devs[i].(state := state, flags := 0)]), i)
  {
    var i := s.queue[0];
    var s1 := s.(queue := s.queue[1..], devs := s.devs[i := s.devs[i].(state := state, flags := 0)]);
    DistinctTail(s.queue);
    forall j: nat | j < |app| ensures Listed(s1, j) && (j != i ==> Current(app, s1, j)) {
      assert Listed(s, j) && Current(app, s, j);
    }
  }

  /** A send never fails; with nobody on the list it does nothing. */
  lemma SendKeepsInv(app: App, thread: Word, s: Sched)
    requires WellFormed(app) && Inv(app, s)
    ensures OnSend(app, thread, s).Ok? && Inv(app, OnSend(app, thread, s).value.0)
    ensures s.queue == [] ==> OnSend(app, thread, s).value == (s, Nothing)
    ensures s.queue != [] ==> s.queue[0] < |app|
  {
    if s.queue != [] {
      var i := s.queue[0];
      assert i in s.queue && Listed(s, i) && Current(app, s, i);
      SelectedPinExists(app[i], s.devs[i].state);
      var pin := LowestOne(s.devs[i].flags);
      var (doSend, state, payload) := app[i].outputs[pin].Send(s.devs[i].state);
      PopKeeps(app, s, state);
      UpdateRestores(app, s.(queue := s.queue[1..], devs := s.devs[i := s.devs[i].(state := state, flags := 0)]), i);
    }
  }

  lemma {:induction false} SweepExtends(s: Sched, chunk: nat)
    requires 0 < |s.devs| < WORD_LIMIT && s.rtcOffset < |s.devs| && SweptBut(s, -1)
    ensures var r := Sweep(s.devs, s.rtcChecked, s.rtcOffset, chunk);
            && r.offset < |s.devs|
            && SweptBut(s.(rtcChecked := r.checked, rtcOffset := r.offset), if r.found.Some? then r.found.value else -1)
            && (r.found.Some? ==> WantsCompute(s.devs[r.found.value].flags))
    decreases chunk
  {
    if chunk > 0 {
      var n := |s.devs|;
      var next := NextOffset(n, s.rtcOffset);
      var s1 := s.(rtcChecked := Add(s.rtcChecked, 1), rtcOffset := next);
      var found := WantsCompute(s.devs[s.rtcOffset].flags);
      var except := if found then s.rtcOffset else -1;
      forall k: nat | 1 <= k <= s1.rtcChecked && k <= n
        ensures Back(n, next, k) == except || !WantsCompute(s.devs[Back(n, next, k)].flags)
      {
        if k == 1 {
          assert Back(n, next, 1) == s.rtcOffset;
        } else {
          assert Back(n, next, k) == Back(n, s.rtcOffset, k - 1);
        }
      }
      assert SweptBut(s1, except);
      if !found { SweepExtends(s1, chunk - 1); }
    }
  }

  lemma IdleCallKeepsInv(app: App, s: Sched)
    requires Inv(app, s)
    ensures Inv(app, OnIdle(app, s).1)
  {
    if s.rtcChecked < |app| {
      SweepExtends(s, IDLE_SWEEP_CHUNK_SIZE);
      var r := Sweep(s.devs, s.rtcChecked, s.rtcOffset, IDLE_SWEEP_CHUNK_SIZE);
      var swept := s.(rtcChecked := r.checked, rtcOffset := r.offset);
      forall j: nat | j < |app| ensures Listed(swept, j) && Current(app, swept, j) {
        assert Listed(s, j) && Current(app, s, j);
      }
      if r.found.Some? {
        var i := r.found.value;
        var s1 := SetState(swept, i, app[i].Compute(s.devs[i].state));
        forall j: nat | j < |app| ensures Listed(s1, j) && (j != i ==> Current(app, s1, j)) {
          assert Listed(s, j) && Current(app, s, j);
        }
        UpdateRestores(app, s1, i);
      }
    }
  }

  lemma ComputedQueue(app: App, s: Sched, i: nat)
    requires Inv(app, s) && i < |app|
    ensures QueueInv(Computed(app, s, i))
  {
    forall j: nat | j < |app| ensures Listed(Computed(app, s, i), j) {
      assert Listed(s, j);
    }
  }

  /** The device computed was on the list, and its handler leaves it with nothing to send. */
  predicate IdleRemoves(app: App, s: Sched)
    requires |app| == |s.devs| && s.rtcOffset < |s.devs|
  {
    var found := IdleComputes(s);
    found.Some? && Removes(app, Computed(app, s, found.value), found.value)
  }

  /** An idle call fails an assertion exactly when, in a build with assertions, the compute handler it runs takes its
      device off the list; otherwise the invariant is kept. */
  lemma IdleKeepsInv(app: App, asserts: bool, s: Sched)
    requires Inv(app, s)
    ensures CheckedIdle(app, asserts, s).AssertFailed? <==> asserts && IdleRemoves(app, s)
    ensures CheckedIdle(app, asserts, s).Ok? ==>
              CheckedIdle(app, asserts, s).value == OnIdle(app, s) && Inv(app, OnIdle(app, s).1)
  {
    IdleCallKeepsInv(app, s);
    var found := IdleComputes(s);
    if found.Some? {
      ComputedQueue(app, s, found.value);
      SanityFailsOnRemoval(app, Computed(app, s, found.value), found.value);
    }
  }

  /** softswitch_onIdle gives up only when no device wants to compute. */
  lemma GivingUpMeansNoCompute(app: App, s: Sched)
    requires Inv(app, s) && !OnIdle(app, s).0
    ensures OnIdle(app, s).1 == s
    ensures forall i | 0 <= i < |app| :: !WantsCompute(s.devs[i].flags)
  {
    var n := |app|;
    forall i | 0 <= i < n ensures !WantsCompute(s.devs[i].flags) {
      var k := if i < s.rtcOffset then s.rtcOffset - i else s.rtcOffset - i + n;
      assert Back(n, s.rtcOffset, k) == i;
    }
  }

  // ----- hardware idle -----

  ghost predicate AllQuiet(s: Sched) {
    forall i | 0 <= i < |s.devs| :: s.devs[i].flags == 0
  }

  lemma HeadWantsSend(app: App, s: Sched)
    requires Inv(app, s) && s.queue != []
    ensures s.queue[0] < |s.devs| && WantsSend(s.devs[s.queue[0]].flags)
  {
    assert s.queue[0] in s.queue && Listed(s, s.queue[0]);
  }

  lemma QuietMeansEmptyQueue(app: App, s: Sched)
    requires Inv(app, s) && AllQuiet(s)
    ensures s.queue == []
  {
    if s.queue != [] {
      HeadWantsSend(app, s);
    }
  }

  lemma {:induction false} HardwareIdleFromKeepsInv(app: App, s: Sched, i: nat)
    requires Inv(app, s) && i <= |app|
    requires forall j | i <= j < |app| :: s.devs[j].flags == 0
    ensures HardwareIdleFrom(app, s, i).Ok? && Inv(app, HardwareIdleFrom(app, s, i).value)
    decreases |app| - i
  {
    if i < |app| {
      assert Listed(s, i);
      if app[i].onHardwareIdleHandler.Some? {
        var s1 := SetState(s, i, app[i].HardwareIdle(s.devs[i].state));
        forall j: nat | j < |app| ensures Listed(s1, j) && (j != i ==> Current(app, s1, j)) {
          assert Listed(s, j) && Current(app, s, j);
        }
        UpdateRestores(app, s1, i);
        HardwareIdleFromKeepsInv(app, UpdateRTS(app, s1, i), i + 1);
      } else {
        HardwareIdleFromKeepsInv(app, s, i + 1);
      }
    }
  }

  lemma {:induction false} HardwareIdleFromFails(app: App, s: Sched, i: nat, j: nat)
    requires i <= j < |app| == |s.devs| && s.devs[j].flags != 0
    ensures HardwareIdleFrom(app, s, i).AssertFailed?
    decreases |app| - i
  {
    if s.devs[i].flags == 0 && i !in s.queue {
      if app[i].onHardwareIdleHandler.Some? {
        var s1 := SetState(s, i, app[i].HardwareIdle(s.devs[i].state));
        HardwareIdleFromFails(app, UpdateRTS(app, s1, i), i + 1, j);
      } else {
        HardwareIdleFromFails(app, s, i + 1, j);
      }
    }
  }

  /** The pass over all devices meets its own checks exactly when it starts with every flag clear,
      and it re-establishes the invariant from an empty list. */
  lemma HardwareIdleNeedsQuiet(app: App, s: Sched)
    requires Inv(app, s)
    ensures OnHardwareIdle(app, s).Ok? <==> AllQuiet(s)
    ensures AllQuiet(s) ==> Inv(app, OnHardwareIdle(app, s).value)
  {
    if AllQuiet(s) {
      QuietMeansEmptyQueue(app, s);
      assert s == s.(queue := []);
      HardwareIdleFromKeepsInv(app, s, 0);
    } else {
      var j :| 0 <= j < |app| && s.devs[j].flags != 0;
      HardwareIdleFromFails(app, s.(queue := []), 0, j);
    }
  }

  // ----- initialisation -----

  /** The first i devices are initialised and listed as they should be. */
  ghost predicate InitInv(app: App, s: Sched, i: nat) {
    && EdgesFit(app, s) && i <= |app|
    && Distinct(s.queue)
    && (forall k | 0 <= k < |s.queue| :: s.queue[k] < i)
    && (forall j: nat | j < i :: Listed(s, j) && Current(app, s, j))
  }

  lemma {:induction false} InitFromKeeps(app: App, s: Sched, i: nat)
    requires InitInv(app, s, i)
    ensures InitInv(app, InitFrom(app, s, i), |app|)
    ensures var s' := InitFrom(app, s, i); s'.rtcChecked == s.rtcChecked && s'.rtcOffset == s.rtcOffset
    decreases |app| - i
  {
    if i < |app| {
      var s1 := InitDevice(app, s, i);
      assert i !in s.queue;
      AppendKeeps(s.queue, i);
      forall j: nat | j < i + 1 ensures Listed(s1, j) && Current(app, s1, j) {
        if j < i { assert Listed(s, j) && Current(app, s, j); }
      }
      InitFromKeeps(app, s1, i + 1);
    }
  }

  /** The context as it is linked into the program: any device states, the compute search at its start. */
  ghost predicate Boot(app: App, s: Sched) {
    && EdgesFit(app, s)
    && 0 < |app| < WORD_LIMIT
    && s.rtcChecked == 0 && s.rtcOffset == 0
  }

  lemma InitEstablishesInv(app: App, s: Sched)
    requires Boot(app, s)
    ensures Inv(app, Init(app, s))
  {
    var s0 := s.(queue := []);
    InitFromKeeps(app, s0, 0);
    var s' := Init(app, s);
    forall i: nat | i < |app| ensures Listed(s', i) && Current(app, s', i) {
    }
  }

  // ----- every run of events -----

  datatype Event = Receive(packet: Packet) | Send | Idle | HardwareIdle

  function Step(app: App, thread: Word, asserts: bool, s: Sched, e: Event): Outcome<Sched>
    requires EdgesFit(app, s) && s.rtcOffset < |app|
  {
    match e
    case Receive(p) => CheckedReceive(app, asserts, s, p)
    case Send => var (s', sent) :- OnSend(app, thread, s); Ok(s')
    case Idle => var (more, s') :- CheckedIdle(app, asserts, s); Ok(s')
    case HardwareIdle => OnHardwareIdle(app, s)
  }

  /** What the callers of the event guarantee. */
  ghost predicate Allowed(app: App, s: Sched, e: Event) {
    match e
    case Receive(p) => Deliverable(app, p)
    case HardwareIdle => AllQuiet(s)
    case _ => true
  }

  /** An event takes a device off the list otherwise than by sending from it. */
  predicate Unlists(app: App, s: Sched, e: Event)
    requires EdgesFit(app, s) && s.rtcOffset < |app|
  {
    match e
    case Receive(p) => ReceiveRemoves(app, s, p)
    case Idle => IdleRemoves(app, s)
    case _ => false
  }

  /** An event that its caller may make fails an assertion exactly when the build has assertions and a receive or
      compute handler takes its device off the list. Otherwise the invariant is kept, and the build makes no
      difference to the result. */
  lemma StepKeepsInv(app: App, thread: Word, asserts: bool, s: Sched, e: Event)
    requires WellFormed(app) && Inv(app, s) && Allowed(app, s, e)
    ensures Step(app, thread, asserts, s, e).AssertFailed? <==> asserts && Unlists(app, s, e)
    ensures var r := Step(app, thread, asserts, s, e);
            r.Ok? ==> r == Step(app, thread, false, s, e) && Inv(app, r.value)
  {
    match e
    case Receive(p) => ReceiveKeepsInv(app, asserts, s, p);
    case Send => SendKeepsInv(app, thread, s);
    case Idle => IdleKeepsInv(app, asserts, s);
    case HardwareIdle => HardwareIdleNeedsQuiet(app, s);
  }
}

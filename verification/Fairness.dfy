/** Runs of a thread's scheduler: the invariant in every reachable state, bounded waiting on the
    ready-to-send list, and fairness of the round-robin compute search. A build with assertions makes the same
    runs, up to the first assertion that fails (SchedulerProofs.StepKeepsInv). */
module Fairness {
  import opened Words
  import opened Outcomes
  import opened Devices
  import opened Scheduler
  import opened SchedulerProofs

  // ----- runs -----

  ghost predicate AllowedRun(app: App, thread: Word, s: Sched, events: seq<Event>)
    requires WellFormed(app) && Inv(app, s)
    decreases |events|
  {
    events == [] ||
    (Allowed(app, s, events[0]) &&
     (StepKeepsInv(app, thread, false, s, events[0]);
      AllowedRun(app, thread, Step(app, thread, false, s, events[0]).value, events[1..])))
  }

  /** The state after a run; the invariant holds there, and so at every point of a run. */
  ghost function After(app: App, thread: Word, s: Sched, events: seq<Event>): (r: Sched)
    requires WellFormed(app) && Inv(app, s) && AllowedRun(app, thread, s, events)
    ensures Inv(app, r)
    decreases |events|
  {
    if events == [] then s else After(app, thread, Next(app, thread, s, events[0]), events[1..])
  }

  ghost function Next(app: App, thread: Word, s: Sched, e: Event): (r: Sched)
    requires WellFormed(app) && Inv(app, s) && Allowed(app, s, e)
    ensures Inv(app, r)
  {
    StepKeepsInv(app, thread, false, s, e);
    Step(app, thread, false, s, e).value
  }

  ghost function Start(app: App, boot: Sched): (r: Sched)
    requires Boot(app, boot)
    ensures Inv(app, r)
  {
    InitEstablishesInv(app, boot);
    Init(app, boot)
  }

  /** From power-up, after any events: a device is on the list exactly when its current state wants to send,
      the list has no duplicates, and the devices last looked at do not want to compute. */
  lemma {:induction false} ReachableStates(app: App, thread: Word, boot: Sched, events: seq<Event>)
    requires WellFormed(app) && Boot(app, boot) && AllowedRun(app, thread, Start(app, boot), events)
    ensures var s := After(app, thread, Start(app, boot), events);
            && |s.devs| == |app| && Distinct(s.queue)
            && (forall i: nat :: i in s.queue <==> i < |app| && WantsSend(app[i].readyToSendHandler(s.devs[i].state)))
            && (forall i: nat | i < |app| :: s.devs[i].flags == app[i].readyToSendHandler(s.devs[i].state))
            && SweptBut(s, -1)
  {
    var s := After(app, thread, Start(app, boot), events);
    forall i: nat ensures i in s.queue <==> i < |app| && WantsSend(app[i].readyToSendHandler(s.devs[i].state)) {
      if i < |app| { assert Listed(s, i) && Current(app, s, i); }
    }
    forall i: nat | i < |app| ensures s.devs[i].flags == app[i].readyToSendHandler(s.devs[i].state) {
      assert Current(app, s, i);
    }
  }

  // ----- bounded waiting on the ready-to-send list -----

  function Position(q: seq<nat>, d: nat): nat
    requires d in q
  {
    if q[0] == d then 0 else 1 + Position(q[1..], d)
  }

  lemma {:induction false} PositionIs(q: seq<nat>, d: nat)
    requires d in q
    ensures Position(q, d) < |q| && q[Position(q, d)] == d
  {
    if q[0] != d { PositionIs(q[1..], d); }
  }

  lemma {:induction false} PositionAppend(q: seq<nat>, i: nat, d: nat)
    requires d in q
    ensures Position(q + [i], d) == Position(q, d)
  {
    if q[0] != d {
      assert (q + [i])[1..] == q[1..] + [i];
      PositionAppend(q[1..], i, d);
    }
  }

  lemma {:induction false} PositionWithout(q: seq<nat>, i: nat, d: nat)
    requires d in q && d != i
    ensures d in Without(q, i) && Position(Without(q, i), d) <= Position(q, d)
  {
    if q[0] != i && q[0] != d {
      PositionWithout(q[1..], i, d);
    }
  }

  lemma UpdatePosition(app: App, s: Sched, i: nat, d: nat)
    requires i < |app| == |s.devs| && QueueInv(s)
    requires d in s.queue && d in UpdateRTS(app, s, i).queue
    ensures Position(UpdateRTS(app, s, i).queue, d) <= Position(s.queue, d)
  {
    PositionAppend(s.queue, i, d);
    if d != i {
      PositionWithout(s.queue, i, d);
    } else {
      assert Listed(s, i);
      if i in s.queue { WithoutKeeps(s.queue, i); }
    }
  }

  /** A sender leaves the head; if it stays ready it goes to the tail, and nobody else moves otherwise. */
  lemma SenderGoesLast(app: App, thread: Word, s: Sched)
    requires WellFormed(app) && Inv(app, s) && s.queue != []
    ensures OnSend(app, thread, s).Ok?
    ensures var s' := OnSend(app, thread, s).value.0;
            var i := s.queue[0];
            i < |s'.devs| && s'.queue == s.queue[1..] + if WantsSend(s'.devs[i].flags) then [i] else []
  {
    SendKeepsInv(app, thread, s);
  }

  /** The device that an event pops off the list, if it is a send. */
  function Pops(s: Sched, e: Event): Option<nat> {
    if e == Send && s.queue != [] then Some(s.queue[0]) else None
  }

  ghost predicate WaitsThrough(app: App, thread: Word, s: Sched, events: seq<Event>, d: nat)
    requires WellFormed(app) && Inv(app, s) && AllowedRun(app, thread, s, events)
    decreases |events|
  {
    && d in s.queue
    && (events == [] ||
        (Pops(s, events[0]) != Some(d) && WaitsThrough(app, thread, Next(app, thread, s, events[0]), events[1..], d)))
  }

  function Sends(events: seq<Event>): nat {
    if events == [] then 0 else (if events[0] == Send then 1 else 0) + Sends(events[1..])
  }

  lemma WaitThroughUpdate(app: App, s: Sched, s1: Sched, i: nat, d: nat)
    requires Inv(app, s) && i < |app| == |s1.devs| && s1.queue == s.queue
    requires forall j: nat | j < |app| :: s1.devs[j].flags == s.devs[j].flags
    requires d in s.queue && d in UpdateRTS(app, s1, i).queue
    ensures Position(UpdateRTS(app, s1, i).queue, d) <= Position(s.queue, d)
  {
    forall j: nat | j < |app| ensures Listed(s1, j) {
      assert Listed(s, j);
    }
    UpdatePosition(app, s1, i, d);
  }

  lemma WaitThroughReceive(app: App, s: Sched, p: Packet, d: nat)
    requires Inv(app, s) && Deliverable(app, p)
    requires d in s.queue && d in OnReceive(app, s, p).value.queue
    ensures Position(OnReceive(app, s, p).value.queue, d) <= Position(s.queue, d)
  {
    var i := p.dest.device;
    HandledFits(app[i], s.devs[i], p);
    WaitThroughUpdate(app, s, s.(devs := s.devs[i := Handled(app[i], s.devs[i], p)]), i, d);
  }

  lemma WaitThroughSend(app: App, thread: Word, s: Sched, d: nat)
    requires WellFormed(app) && Inv(app, s) && d in s.queue && s.queue[0] != d
    ensures OnSend(app, thread, s).Ok?
    ensures var q := OnSend(app, thread, s).value.0.queue; d in q && Position(q, d) + 1 == Position(s.queue, d)
  {
    SenderGoesLast(app, thread, s);
    PositionAppend(s.queue[1..], s.queue[0], d);
    assert s.queue[1..] + [] == s.queue[1..];
  }

  lemma WaitThroughIdle(app: App, s: Sched, d: nat)
    requires Inv(app, s) && d in s.queue && d in OnIdle(app, s).1.queue
    ensures Position(OnIdle(app, s).1.queue, d) <= Position(s.queue, d)
  {
    if s.rtcChecked < |app| {
      var r := Sweep(s.devs, s.rtcChecked, s.rtcOffset, IDLE_SWEEP_CHUNK_SIZE);
      if r.found.Some? {
        var i := r.found.value;
        var swept := s.(rtcChecked := r.checked, rtcOffset := r.offset);
        WaitThroughUpdate(app, s, SetState(swept, i, app[i].Compute(s.devs[i].state)), i, d);
      }
    }
  }

  lemma WaitOneStep(app: App, thread: Word, s: Sched, e: Event, d: nat)
    requires WellFormed(app) && Inv(app, s) && Allowed(app, s, e)
    requires d in s.queue && d in Next(app, thread, s, e).queue && Pops(s, e) != Some(d)
    ensures Position(Next(app, thread, s, e).queue, d) + (if e == Send then 1 else 0) <= Position(s.queue, d)
  {
    match e
    case Receive(p) => WaitThroughReceive(app, s, p, d);
    case Send => WaitThroughSend(app, thread, s, d);
    case Idle => WaitThroughIdle(app, s, d);
    case HardwareIdle =>
      QuietMeansEmptyQueue(app, s);
      assert false;
  }

  /** A device that stays ready waits for at most as many sends as there are devices before it,
      whatever receives, computes and sends happen meanwhile. */
  lemma {:induction false} BoundedWaiting(app: App, thread: Word, s: Sched, events: seq<Event>, d: nat)
    requires WellFormed(app) && Inv(app, s) && AllowedRun(app, thread, s, events)
    requires WaitsThrough(app, thread, s, events, d)
    ensures d in After(app, thread, s, events).queue
    ensures Position(After(app, thread, s, events).queue, d) + Sends(events) <= Position(s.queue, d)
    decreases |events|
  {
    if events != [] {
      var next := Next(app, thread, s, events[0]);
      WaitOneStep(app, thread, s, events[0], d);
      BoundedWaiting(app, thread, next, events[1..], d);
    }
  }

  lemma {:induction false} DistinctBelow(q: seq<nat>, n: nat)
    requires Distinct(q) && forall k | 0 <= k < |q| :: q[k] < n
    ensures |q| <= n
    decreases n
  {
    if q != [] {
      assert q[0] < n;
      if n - 1 in q {
        WithoutKeeps(q, n - 1);
        var rest := Without(q, n - 1);
        forall k | 0 <= k < |rest| ensures rest[k] < n - 1 {
          assert rest[k] in rest;
        }
        DistinctBelow(rest, n - 1);
      } else {
        forall k | 0 <= k < |q| ensures q[k] < n - 1 {
          assert q[k] in q;
        }
        DistinctBelow(q, n - 1);
      }
    }
  }

  /** So a ready device is popped by one of the next numDevices sends. */
  lemma {:induction false} PoppedWithinNumDevices(app: App, thread: Word, s: Sched, events: seq<Event>, d: nat)
    requires WellFormed(app) && Inv(app, s) && AllowedRun(app, thread, s, events)
    requires WaitsThrough(app, thread, s, events, d)
    ensures Sends(events) < |app|
  {
    BoundedWaiting(app, thread, s, events, d);
    PositionIs(s.queue, d);
    DistinctBelow(s.queue, |app|);
  }

  // ----- the compute search -----

  function Distance(n: nat, offset: nat, d: nat): nat
    requires offset < n && d < n
  {
    if d >= offset then d - offset else d + n - offset
  }

  /** The sweep never passes a device that wants to compute. */
  lemma {:induction false} SweepApproaches(devs: seq<DevView>, checked: Word, offset: nat, chunk: nat, d: nat)
    requires offset < |devs| && d < |devs| && WantsCompute(devs[d].flags)
    ensures var r := Sweep(devs, checked, offset, chunk);
            r.offset < |devs| &&
            (r.found == Some(d) ||
             Distance(|devs|, r.offset, d) + (if chunk > 0 then 1 else 0) <= Distance(|devs|, offset, d))
    decreases chunk
  {
    if chunk > 0 && !WantsCompute(devs[offset].flags) {
      SweepApproaches(devs, Add(checked, 1), NextOffset(|devs|, offset), chunk - 1, d);
    }
  }

  /** The device whose compute handler an event runs. */
  function Computes(app: App, s: Sched, e: Event): Option<nat>
    requires |app| == |s.devs| && s.rtcOffset < |s.devs|
  {
    if e == Idle then IdleComputes(s) else None
  }

  ghost predicate Starves(app: App, thread: Word, s: Sched, events: seq<Event>, d: nat)
    requires WellFormed(app) && Inv(app, s) && AllowedRun(app, thread, s, events)
    decreases |events|
  {
    && d < |app| && WantsCompute(s.devs[d].flags)
    && (events == [] ||
        (Computes(app, s, events[0]) != Some(d) &&
         Starves(app, thread, Next(app, thread, s, events[0]), events[1..], d)))
  }

  function Idles(events: seq<Event>): nat {
    if events == [] then 0 else (if events[0] == Idle then 1 else 0) + Idles(events[1..])
  }

  lemma OtherEventsKeepOffset(app: App, thread: Word, s: Sched, e: Event, d: nat)
    requires WellFormed(app) && Inv(app, s) && Allowed(app, s, e) && e != Idle
    requires d < |app| && s.devs[d].flags != 0
    ensures Next(app, thread, s, e).rtcOffset == s.rtcOffset
  {
    if e == Send { SendKeepsInv(app, thread, s); }
  }

  lemma IdleApproaches(app: App, s: Sched, d: nat)
    requires Inv(app, s) && d < |app| && WantsCompute(s.devs[d].flags) && Computes(app, s, Idle) != Some(d)
    ensures OnIdle(app, s).0
    ensures OnIdle(app, s).1.rtcOffset < |app|
    ensures Distance(|app|, OnIdle(app, s).1.rtcOffset, d) + 1 <= Distance(|app|, s.rtcOffset, d)
  {
    if !OnIdle(app, s).0 {
      GivingUpMeansNoCompute(app, s);
    }
    SweepApproaches(s.devs, s.rtcChecked, s.rtcOffset, IDLE_SWEEP_CHUNK_SIZE, d);
  }

  /** A device that keeps wanting to compute is computed by one of the next numDevices idle calls, so after at most
      numDevices - 1 other computes, whatever other events happen meanwhile. */
  lemma {:induction false} ComputeIsFair(app: App, thread: Word, s: Sched, events: seq<Event>, d: nat)
    requires WellFormed(app) && Inv(app, s) && AllowedRun(app, thread, s, events)
    requires Starves(app, thread, s, events, d)
    ensures Idles(events) <= Distance(|app|, s.rtcOffset, d) < |app|
    decreases |events|
  {
    if events != [] {
      var next := Next(app, thread, s, events[0]);
      ComputeIsFair(app, thread, next, events[1..], d);
      if events[0] == Idle {
        IdleApproaches(app, s, d);
      } else {
        OtherEventsKeepOffset(app, thread, s, events[0], d);
      }
    }
  }

  /** k idle calls in a row, each asking to be called again and none running a handler. */
  ghost predicate Fruitless(app: App, s: Sched, k: nat)
    requires Inv(app, s)
    decreases k
  {
    k == 0 ||
    (OnIdle(app, s).0 && Computes(app, s, Idle).None? &&
     (IdleCallKeepsInv(app, s); Fruitless(app, OnIdle(app, s).1, k - 1)))
  }

  lemma {:induction false} FruitlessSweep(devs: seq<DevView>, checked: Word, offset: nat, chunk: nat)
    requires offset < |devs| && checked + chunk < WORD_LIMIT
    requires Sweep(devs, checked, offset, chunk).found.None?
    ensures Sweep(devs, checked, offset, chunk).checked == checked + chunk
    decreases chunk
  {
    if chunk > 0 { FruitlessSweep(devs, Add(checked, 1), NextOffset(|devs|, offset), chunk - 1); }
  }

  /** At most ceil(numDevices / 32) idle calls in a row ask to be called again without running a handler, as long as
      the counter of devices checked cannot wrap within a chunk. */
  lemma {:induction false} FruitlessIdlesEnd(app: App, s: Sched, k: nat)
    requires Inv(app, s) && Fruitless(app, s, k) && |app| + IDLE_SWEEP_CHUNK_SIZE <= WORD_LIMIT
    ensures k > 0 ==> s.rtcChecked + 32 * (k - 1) < |app|
    ensures k <= (|app| + 31) / 32
    decreases k
  {
    if k > 0 {
      FruitlessSweep(s.devs, s.rtcChecked, s.rtcOffset, IDLE_SWEEP_CHUNK_SIZE);
      IdleCallKeepsInv(app, s);
      FruitlessIdlesEnd(app, OnIdle(app, s).1, k - 1);
    }
  }

  ghost predicate NoneComputes(s: Sched) {
    forall i | 0 <= i < |s.devs| :: !WantsCompute(s.devs[i].flags)
  }

  lemma {:induction false} EmptySweep(devs: seq<DevView>, checked: Word, offset: nat, chunk: nat)
    requires offset < |devs| && (checked + chunk < WORD_LIMIT || checked + chunk == WORD_LIMIT)
    requires forall i | 0 <= i < |devs| :: !WantsCompute(devs[i].flags)
    ensures Sweep(devs, checked, offset, chunk).found.None?
    ensures Sweep(devs, checked, offset, chunk).checked
         == if checked + chunk == WORD_LIMIT && chunk > 0 then 0 else checked + chunk
    decreases chunk
  {
    if chunk == 1 && checked + 1 == WORD_LIMIT {
      assert Add(checked, 1) == 0;
    } else if chunk > 0 {
      EmptySweep(devs, Add(checked, 1), NextOffset(|devs|, offset), chunk - 1);
    }
  }

  lemma MultipleOf32(x: Word)
    requires x % 32 == 0
    ensures x + 32 <= WORD_LIMIT && (x + 32) % 32 == 0
  {
  }

  /** Nothing wants to compute, and the counter is about to wrap sooner or later. */
  ghost predicate WillWrap(app: App, s: Sched) {
    && Inv(app, s) && |app| + IDLE_SWEEP_CHUNK_SIZE > WORD_LIMIT
    && NoneComputes(s) && s.rtcChecked % 32 == 0
  }

  lemma WrapsOn(app: App, s: Sched)
    requires WillWrap(app, s)
    ensures OnIdle(app, s).0 && Computes(app, s, Idle).None?
    ensures OnIdle(app, s).1.devs == s.devs && OnIdle(app, s).1.rtcChecked % 32 == 0
  {
    MultipleOf32(s.rtcChecked);
    EmptySweep(s.devs, s.rtcChecked, s.rtcOffset, IDLE_SWEEP_CHUNK_SIZE);
    assert s.rtcChecked < |app|;
  }

  lemma StillWraps(app: App, s: Sched)
    requires WillWrap(app, s)
    ensures WillWrap(app, OnIdle(app, s).1)
  {
    WrapsOn(app, s);
    IdleCallKeepsInv(app, s);
  }

  /** Among k idle calls in a row one gives up or runs a handler. */
  ghost predicate GivesUpBefore(app: App, s: Sched, k: nat)
    requires Inv(app, s)
  {
    !Fruitless(app, s, k)
  }

  lemma OneMoreFruitless(app: App, s: Sched, k: nat)
    requires Inv(app, s) && OnIdle(app, s).0 && Computes(app, s, Idle).None?
    requires Inv(app, OnIdle(app, s).1) && !GivesUpBefore(app, OnIdle(app, s).1, k)
    ensures !GivesUpBefore(app, s, k + 1)
  {
  }

  /** With more devices than that the counter would wrap to zero, and an idle thread never give up. */
  lemma {:induction false} IdleForever(app: App, s: Sched, k: nat)
    requires WillWrap(app, s)
    ensures !GivesUpBefore(app, s, k)
    decreases k
  {
    if k > 0 {
      WrapsOn(app, s);
      StillWraps(app, s);
      IdleForever(app, OnIdle(app, s).1, k - 1);
      OneMoreFruitless(app, s, k - 1);
    }
  }

  /** A thread on which nothing wants to compute stops looking exactly when the counter cannot wrap. */
  lemma IdleEndsExactlyWhen(app: App, s: Sched)
    requires Inv(app, s) && NoneComputes(s) && s.rtcChecked == 0
    ensures (exists k: nat :: GivesUpBefore(app, s, k)) <==> |app| + IDLE_SWEEP_CHUNK_SIZE <= WORD_LIMIT
  {
    if |app| + IDLE_SWEEP_CHUNK_SIZE <= WORD_LIMIT {
      var k := (|app| + 31) / 32 + 1;
      if !GivesUpBefore(app, s, k) { FruitlessIdlesEnd(app, s, k); }
    } else {
      forall k: nat ensures !GivesUpBefore(app, s, k) {
        IdleForever(app, s, k);
      }
    }
  }
}

/** The main loop keeps its invariant, fails an assertion in exactly one situation, and blocks only when there is
    nothing left to do. */
module MainProofs {
  import opened Words
  import opened Outcomes
  import opened Devices
  import opened HostRing
  import opened Scheduler
  import opened SchedulerProofs
  import opened MainLoop

  ghost predicate MainInv(app: App, m: Main) {
    && Inv(app, m.sched)
    && |m.host| <= CAPACITY
    && (m.todo > 0 ==> !m.isApp)
    && m.todo == |m.targets|
  }

  /** What the mailbox hardware promises a turn that goes on from the idle search to the wait: only this thread takes
      messages or fills the send slot; waiting returns when a message can be received or sent; the idle call returns
      either system-wide idleness, which no waiting message allows, or a message. */
  ghost predicate HardwareOk(app: App, m: Main, e: Inputs)
    requires Shaped(app, m)
  {
    !RunsIdle(app, m, e) ==>
      && (e.canRecvBefore ==> e.canRecvAfter)
      && (e.canSendBefore ==> e.canSendAfter)
      && (WantToSend(m) ==> e.canRecvAfter || e.canSendAfter)
      && (!WantToSend(m) ==> IdleCallOk(e))
  }

  ghost predicate IdleCallOk(e: Inputs) {
    if e.systemIdle then !e.canRecvBefore else e.canRecvAfter
  }

  /** The hardware behaves, and what arrives is addressed to a pin and edge that exist. */
  ghost predicate InputsOk(app: App, m: Main, e: Inputs)
    requires Shaped(app, m)
  {
    HardwareOk(app, m, e) && (e.canRecvAfter ==> Deliverable(app, e.packet))
  }

  /** With nothing to send and no compute bit anywhere, every flag is clear. */
  lemma QuietWhenNothingWanted(app: App, s: Sched)
    requires Inv(app, s) && s.queue == []
    ensures AllQuiet(s) <==> forall i | 0 <= i < |app| :: !WantsCompute(s.devs[i].flags)
  {
    forall i: nat | i < |app| ensures !WantsSend(s.devs[i].flags) {
      assert Listed(s, i);
    }
  }

  lemma AfterHandlerKeepsInv(app: App, m: Main, sched: Sched, pushed: seq<HostMsg>)
    requires MainInv(app, m) && Inv(app, sched)
    ensures MainInv(app, AfterHandler(m, sched, pushed))
  {
    PushesKept(m.host, pushed);
  }

  lemma PrepareKeepsInv(c: Config, app: App, m: Main, e: Inputs)
    requires WellFormed(app) && MainInv(app, m) && m.todo == 0
    ensures Prepare(c, app, m, e).Ok?
    ensures var m' := Prepare(c, app, m, e).value;
            && Inv(app, m'.sched) && |m'.host| <= CAPACITY
            && (if m'.todo > 0 && m'.isApp then m'.targets == [] else m'.todo == |m'.targets|)
  {
    SendKeepsInv(app, c.thread, m.sched);
    PushesKept(m.host, e.pushed);
  }

  /** A turn with something to receive or to send meets every assertion, except that in a build with assertions the
      handler of a received packet must not take its device off the list. */
  lemma TransferKeepsInv(c: Config, app: App, m: Main, e: Inputs)
    requires WellFormed(app) && MainInv(app, m) && InputsOk(app, m, e)
    requires !RunsIdle(app, m, e) && (WantToSend(m) || e.canRecvAfter)
    ensures Transfer(c, app, m, e).AssertFailed?
            <==> c.asserts && PrefersRecv(c, m, e) && ReceiveRemoves(app, m.sched, e.packet)
    ensures Transfer(c, app, m, e).Ok? ==> MainInv(app, Transfer(c, app, m, e).value)
  {
    var m1 := MakeSpace(m);
    if PrefersRecv(c, m, e) {
      ReceiveKeepsInv(app, c.asserts, m1.sched, e.packet);
      if Transfer(c, app, m, e).Ok? {
        AfterHandlerKeepsInv(app, m1, OnReceive(app, m1.sched, e.packet).value, e.pushed);
      }
    } else if m.host == [] && m1.todo == 0 {
      PrepareKeepsInv(c, app, m1, e);
    }
  }

  /** There is nothing to send, a packet was already waiting, so that the idle search was skipped, and some device
      still wants to compute. */
  ghost predicate QuietFails(app: App, m: Main, e: Inputs)
    requires |app| == |m.sched.devs|
  {
    !WantToSend(m) && e.canRecvBefore && exists i :: 0 <= i < |app| && WantsCompute(m.sched.devs[i].flags)
  }

  /** A turn gets as far as receiving a packet. */
  predicate Receives(c: Config, app: App, m: Main, e: Inputs)
    requires Shaped(app, m)
  {
    !RunsIdle(app, m, e) && (WantToSend(m) || !e.systemIdle) && PrefersRecv(c, m, e)
  }

  /** The build has assertions, and the turn blocks with compute work left over, or the handler that it runs to compute
      a device, or to receive a packet, takes its device off the list. */
  ghost predicate TurnFails(c: Config, app: App, m: Main, e: Inputs)
    requires Shaped(app, m)
  {
    c.asserts && (QuietFails(app, m, e)
                  || (RunsIdle(app, m, e) && IdleRemoves(app, m.sched))
                  || (Receives(c, app, m, e) && ReceiveRemoves(app, m.sched, e.packet)))
  }

  /** A build without assertions never goes wrong. In a build with them a turn fails one exactly in the three situations
      of TurnFails. Otherwise the invariant is kept. */
  lemma IterateKeepsInv(c: Config, app: App, m: Main, e: Inputs)
    requires WellFormed(app) && MainInv(app, m) && InputsOk(app, m, e)
    ensures Iterate(c, app, m, e).AssertFailed? <==> TurnFails(c, app, m, e)
    ensures Iterate(c, app, m, e).Ok? ==> MainInv(app, Iterate(c, app, m, e).value)
  {
    if RunsIdle(app, m, e) {
      IdleKeepsInv(app, c.asserts, m.sched);
      if Iterate(c, app, m, e).Ok? { AfterHandlerKeepsInv(app, m, OnIdle(app, m.sched).1, e.pushed); }
    } else if WantToSend(m) {
      TransferKeepsInv(c, app, m, e);
    } else {
      IterateQuietKeepsInv(c, app, m, e);
    }
  }

  lemma NoRemovalFromEmpty(app: App, s: Sched, p: Packet)
    requires Inv(app, s) && s.queue == []
    ensures !ReceiveRemoves(app, s, p)
  {
    if Deliverable(app, p) {
      assert Listed(s, p.dest.device);
      HandledFits(app[p.dest.device], s.devs[p.dest.device], p);
    }
  }

  lemma IterateQuietKeepsInv(c: Config, app: App, m: Main, e: Inputs)
    requires WellFormed(app) && MainInv(app, m) && InputsOk(app, m, e) && !WantToSend(m) && !RunsIdle(app, m, e)
    ensures Iterate(c, app, m, e).AssertFailed? <==> c.asserts && QuietFails(app, m, e)
    ensures !ReceiveRemoves(app, m.sched, e.packet)
    ensures Iterate(c, app, m, e).Ok? ==> MainInv(app, Iterate(c, app, m, e).value)
  {
    NoRemovalFromEmpty(app, m.sched, e.packet);
    QuietWhenNothingWanted(app, m.sched);
    if !e.canRecvBefore { GivingUpMeansNoCompute(app, m.sched); }
    if e.systemIdle {
      HardwareIdleNeedsQuiet(app, m.sched);
      AfterHandlerKeepsInv(app, m, OnHardwareIdle(app, m.sched).value, e.pushed);
    } else {
      TransferKeepsInv(c, app, m, e);
    }
  }

  /** When the loop blocks having looked for idle work, there is nothing left to do: no device wants to send or
      compute, no host message is pending and no multicast is half delivered; and from there a system-wide idle
      step meets every check and re-establishes the invariant. */
  lemma BlocksOnlyWhenQuiet(app: App, m: Main, e: Inputs)
    requires MainInv(app, m) && !WantToSend(m) && !e.canRecvBefore && !RunsIdle(app, m, e)
    ensures m.sched.queue == [] && AllQuiet(m.sched) && m.host == [] && m.targets == []
    ensures OnHardwareIdle(app, m.sched).Ok? && Inv(app, OnHardwareIdle(app, m.sched).value)
  {
    GivingUpMeansNoCompute(app, m.sched);
    QuietWhenNothingWanted(app, m.sched);
    HardwareIdleNeedsQuiet(app, m.sched);
  }
}

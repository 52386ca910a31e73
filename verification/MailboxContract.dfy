/** The emulated mailbox gives the main loop what it relies on, in every turn and from turn to turn. */
module MailboxContract {
  import opened Outcomes
  import opened Devices
  import opened Scheduler
  import opened SchedulerProofs
  import opened MainLoop
  import opened MainProofs
  import opened Multicast
  import opened Persistence
  import M = MailboxMonitor
  import Mailbox

  const CAN_SEND: M.Wait := M.Until(true, false)
  const CAN_RECV: M.Wait := M.Until(false, true)

  /** Steps of all threads during which this one neither receives nor sends. */
  ghost predicate Meanwhile(s: M.State, steps: seq<M.Step>) {
    && M.IsSchedule(s, steps) && M.Execute(s, steps).Ok?
    && forall k | 0 <= k < |steps| :: M.LeavesReady(steps[k])
  }

  /** What the mailbox goes through in a turn. before: until the turn looks whether it can receive and send; asleep and
      awake: from then until it looks again, in two parts if it has to wait; section: while it receives or sends. */
  datatype Passage = Passage(before: seq<M.Step>, asleep: seq<M.Step>, awake: seq<M.Step>, section: seq<M.Step>)

  ghost predicate LooksTrue(s: M.State, canRecv: bool, canSend: bool) {
    canRecv == Mailbox.CanRecv(s.mbox) && canSend == Mailbox.CanSend(s.mbox)
  }

  /** The turn looks at the mailbox in the states where the passage takes it; if it wants to send it waits in between,
      and otherwise it makes the idle call, which is the hardware's own. */
  ghost predicate Waits(m: Main, e: Inputs, s: M.State, p: Passage) {
    && Meanwhile(s, p.asleep)
    && (var woken := M.Execute(s, p.asleep).value;
        && Meanwhile(woken, p.awake)
        && (if WantToSend(m) then p.awake != [] && M.EndsWait(woken, p.awake[0], M.Until(true, true))
            else IdleCallOk(e))
        && LooksTrue(M.Execute(woken, p.awake).value, e.canRecvAfter, e.canSendAfter))
  }

  ghost function AfterWait(s: M.State, p: Passage): M.State
    requires Meanwhile(s, p.asleep) && Meanwhile(M.Execute(s, p.asleep).value, p.awake)
  {
    M.Execute(M.Execute(s, p.asleep).value, p.awake).value
  }

  lemma MeanwhileKeeps(s: M.State, steps: seq<M.Step>)
    requires M.MonitorInv(s) && Meanwhile(s, steps)
    ensures var s' := M.Execute(s, steps).value;
            && M.MonitorInv(s')
            && (Mailbox.CanRecv(s.mbox) ==> Mailbox.CanRecv(s'.mbox))
            && (Mailbox.CanSend(s.mbox) ==> Mailbox.CanSend(s'.mbox))
  {
    M.RunKeepsInv(s, steps);
    if Mailbox.CanRecv(s.mbox) { M.ReadyStays(s, steps, CAN_RECV); }
    if Mailbox.CanSend(s.mbox) { M.ReadyStays(s, steps, CAN_SEND); }
  }

  /** In one turn the two looks are as MainProofs.HardwareOk says, whatever other threads do before, during and after
      the wait. */
  lemma MailboxMeetsContract(app: App, m: Main, e: Inputs, s: M.State, p: Passage)
    requires Shaped(app, m) && M.MonitorInv(s) && LooksTrue(s, e.canRecvBefore, e.canSendBefore)
    requires !RunsIdle(app, m, e) ==> Waits(m, e, s, p)
    ensures HardwareOk(app, m, e)
    ensures !RunsIdle(app, m, e) ==> M.MonitorInv(AfterWait(s, p))
  {
    if !RunsIdle(app, m, e) {
      var woken := M.Execute(s, p.asleep).value;
      MeanwhileKeeps(s, p.asleep);
      MeanwhileKeeps(woken, p.awake);
      if WantToSend(m) { M.WaitedForHolds(woken, p.awake, M.Until(true, true)); }
    }
  }

  // ----- runs -----

  /** While a turn receives or sends, the mailbox is received from or sent into only if the turn does that. */
  ghost predicate Section(c: Config, app: App, m: Main, e: Inputs, m': Main, s: M.State, steps: seq<M.Step>)
    requires Shaped(app, m)
  {
    && M.IsSchedule(s, steps) && M.Execute(s, steps).Ok?
    && (SlotUses(m'.out) == SlotUses(m.out) ==> forall k | 0 <= k < |steps| :: M.StepLeaves(steps[k], CAN_SEND))
    && (!Receives(c, app, m, e) ==> forall k | 0 <= k < |steps| :: M.StepLeaves(steps[k], CAN_RECV))
  }

  /** A run of the main loop, its looks taken from a run of the mailbox that starts in s. The packets received exist,
      and no assertion fails. */
  ghost predicate Observed(c: Config, app: App, m: Main, s: M.State, turns: seq<Inputs>, path: seq<Passage>)
    decreases |turns|
  {
    turns == [] ||
    (path != [] && Shaped(app, m) &&
     (var e, p := turns[0], path[0];
      && Meanwhile(s, p.before) && Iterate(c, app, m, e).Ok? && (e.canRecvAfter ==> Deliverable(app, e.packet))
      && (var m', looked := Iterate(c, app, m, e).value, M.Execute(s, p.before).value;
          && LooksTrue(looked, e.canRecvBefore, e.canSendBefore)
          && (if RunsIdle(app, m, e) then Observed(c, app, m', looked, turns[1..], path[1..])
              else
                && Waits(m, e, looked, p) && Section(c, app, m, e, m', AfterWait(looked, p), p.section)
                && Observed(c, app, m', M.Execute(AfterWait(looked, p), p.section).value, turns[1..], path[1..])))))
  }

  /** What a look has shown is still so when the turn is over, unless the turn has used it up. */
  lemma SectionKeeps(c: Config, app: App, m: Main, e: Inputs, m': Main, s: M.State, steps: seq<M.Step>)
    requires Shaped(app, m) && M.MonitorInv(s) && Section(c, app, m, e, m', s, steps)
    requires !RunsIdle(app, m, e) && LooksTrue(s, e.canRecvAfter, e.canSendAfter)
    ensures var s' := M.Execute(s, steps).value;
            && M.MonitorInv(s')
            && (SendLeft(app, m, e, m') ==> Mailbox.CanSend(s'.mbox))
            && (RecvLeft(c, app, m, e) ==> Mailbox.CanRecv(s'.mbox))
  {
    M.RunKeepsInv(s, steps);
    if SendLeft(app, m, e, m') { M.ReadyStays(s, steps, CAN_SEND); }
    if RecvLeft(c, app, m, e) { M.ReadyStays(s, steps, CAN_RECV); }
  }

  /** Every run of the main loop over the emulated mailbox keeps to what is assumed of the hardware, turn by turn, and
      each turn finds what the one before has left. */
  lemma {:induction false} MailboxMeetsContractInRuns(
      c: Config, app: App, m: Main, s: M.State, canSend: bool, canRecv: bool, turns: seq<Inputs>, path: seq<Passage>)
    requires WellFormed(app) && MainInv(app, m) && M.MonitorInv(s) && Observed(c, app, m, s, turns, path)
    requires (canSend ==> Mailbox.CanSend(s.mbox)) && (canRecv ==> Mailbox.CanRecv(s.mbox))
    ensures GoodRun(c, app, m, turns) && Persistent(c, app, m, canSend, canRecv, turns)
    decreases |turns|
  {
    if turns != [] {
      var e, p := turns[0], path[0];
      var looked := M.Execute(s, p.before).value;
      MeanwhileKeeps(s, p.before);
      MailboxMeetsContract(app, m, e, looked, p);
      var m' := Turn(c, app, m, e);
      var next := looked;
      if !RunsIdle(app, m, e) {
        SectionKeeps(c, app, m, e, m', AfterWait(looked, p), p.section);
        next := M.Execute(AfterWait(looked, p), p.section).value;
      }
      MailboxMeetsContractInRuns(c, app, m', next, SendLeft(app, m, e, m'), RecvLeft(c, app, m, e),
                                 turns[1..], path[1..]);
    }
  }

  /** From power-up of thread and mailbox. */
  lemma {:induction false} MailboxAllowsRealRuns(
      c: Config, app: App, m: Main, mbox: Mailbox.Mbox, threads: nat, turns: seq<Inputs>, path: seq<Passage>)
    requires WellFormed(app) && MainInv(app, m) && Mailbox.Initial(mbox)
    requires Observed(c, app, m, M.Begin(mbox, threads), turns, path)
    ensures RealRun(c, app, m, turns)
  {
    M.BeginInv(mbox, threads);
    MailboxMeetsContractInRuns(c, app, m, M.Begin(mbox, threads), true, false, turns, path);
  }
}

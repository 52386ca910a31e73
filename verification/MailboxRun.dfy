/** The mailbox object shared by threads: the steps of MailboxMonitor made with the methods of TinselMbox, in any
    interleaving. */
module MailboxRun {
  import opened Words
  import opened Outcomes
  import opened Devices
  import opened Mailbox
  import opened MailboxMonitor
  import opened TinselMbox

  class Monitor {
    const mbox: TinselMbox
    var threads: seq<Thread>
    /** The mailbox and the threads as MailboxMonitor sees them, with the record of the run. */
    ghost var model: State

    ghost predicate Valid()
      reads this, mbox, mbox.slots
    {
      model.mbox == mbox.View() && model.threads == threads
    }

    constructor (mbox: TinselMbox, count: nat)
      requires Initial(mbox.View())
      ensures this.mbox == mbox && Valid() && model == Begin(mbox.View(), count)
    {
      this.mbox, threads, model := mbox, seq(count, _ => Running), Begin(mbox.View(), count);
    }

    /** Record what a section has done to the mailbox, and wake the threads if it notified them. */
    method Finish(notify: bool, ghost next: State)
      requires next.mbox == mbox.View() && next.threads == if notify then NotifyAll(threads) else threads
      modifies this
      ensures Valid() && model == next
    {
      if notify {
        threads := NotifyAll(threads);
      }
      model := next;
    }

    method PullNow() returns (ok: bool)
      requires Valid() && Mailbox.Inv(model.mbox) && model.mbox.sendActive
      modifies this, mbox`sendActive, mbox.slots
      ensures ok <==> PullStep(old(model)).Ok?
      ensures ok ==> Valid() && Ok(model) == PullStep(old(model))
    {
      var message;
      ok, message := mbox.NetPull();
      if ok { Finish(true, PullStep(model).value); }
    }

    method PushNow(thread: Word, data: Blob, random: nat) returns (ok: bool)
      requires Valid() && Mailbox.Inv(model.mbox) && model.mbox.numSlotsEmpty > 0
      modifies this, mbox`numSlotsEmpty, mbox`numSlotsFull, mbox.slots
      ensures ok <==> PushStep(old(model), thread, data, random).Ok?
      ensures ok ==> Valid() && Ok(model) == PushStep(old(model), thread, data, random)
    {
      var slot;
      ok, slot := mbox.NetPush(thread, data, random);
      if ok { Finish(true, PushStep(model, thread, data, random).value); }
    }

    /** A section of the program's side. */
    method ProgramSection(op: Op, random: nat) returns (ok: bool)
      requires Valid() && !op.TryPull? && !op.TryPush? && |model.held| == |model.mbox.slots|
      modifies this, mbox, mbox.slots
      ensures ok <==> Perform(old(model), op, random).Ok?
      ensures ok ==> Valid() && Ok(model) == Perform(old(model), op, random)
    {
      var notify, slot := false, 0;
      match op {
        case DoRecv => ok, slot := mbox.MboxRecv();
        case DoAlloc(i) => ok, notify := mbox.MboxAlloc(i);
        case DoSetLen(length) => ok := mbox.MboxSetLen(length);
        case DoSend(address, i) =>
          ok := mbox.MboxSend(address, i);
          notify := true;
        case DoWrite(i, buffer) =>
          ok := i < mbox.slots.Length;
          if ok { mbox.SetSlot(i, mbox.slots[i].(buffer := buffer)); }
      }
      if ok { Finish(notify, Perform(model, op, random).value); }
    }

    /** One whole section of a running thread. */
    method Act(op: Op, random: nat) returns (ok: bool)
      requires Valid() && Mailbox.Inv(model.mbox) && |model.held| == |model.mbox.slots|
      modifies this, mbox, mbox.slots
      ensures ok <==> Perform(old(model), op, random).Ok?
      ensures ok ==> Valid() && Ok(model) == Perform(old(model), op, random)
    {
      match op {
        case TryPull =>
          ok := true;
          if mbox.sendActive { ok := PullNow(); }
        case TryPush(thread, data) =>
          ok := thread == mbox.myThreadId && |data| <= mbox.bytesPerMsg;
          if ok && mbox.numSlotsEmpty > 0 { ok := PushNow(thread, data, random); }
        case _ =>
          ok := ProgramSection(op, random);
      }
    }

    /** The condition of a wait, looked at under the lock. */
    method Look(on: Wait) returns (satisfied: bool)
      requires Valid() && Mailbox.Inv(model.mbox)
      ensures satisfied == Satisfied(model.mbox, on)
    {
      match on {
        case Until(send, recv) =>
          var ok, canSend := mbox.MboxCanSend();
          var canRecv := mbox.MboxCanRecv();
          satisfied := (send && canSend) || (recv && canRecv);
        case ToPull => satisfied := mbox.sendActive;
        case ToPush(_, _) => satisfied := mbox.numSlotsEmpty > 0;
      }
    }

    /** The condition variable: go on if the condition holds, otherwise sleep. */
    method GoOnOrPark(t: nat, on: Wait, random: nat) returns (ok: bool)
      requires Valid() && Mailbox.Inv(model.mbox) && t < |threads|
      modifies this, mbox, mbox.slots
      ensures ok <==> ProceedOrPark(old(model), t, on, random).Ok?
      ensures ok ==> Valid() && Ok(model) == ProceedOrPark(old(model), t, on, random)
    {
      var satisfied := Look(on);
      ok := true;
      threads := threads[t := if satisfied then Running else Parked(on)];
      model := model.(threads := threads);
      if satisfied {
        match on {
          case Until(_, _) =>
          case ToPull => ok := PullNow();
          case ToPush(thread, data) => ok := PushNow(thread, data, random);
        }
      }
    }

    method Step(step: Step) returns (ok: bool)
      requires Valid() && MonitorInv(model) && Enabled(model, step)
      modifies this, mbox, mbox.slots
      ensures ok <==> Apply(old(model), step).Ok?
      ensures ok ==> Valid() && MonitorInv(model) && Ok(model) == Apply(old(model), step)
    {
      StepKeepsInv(model, step);
      match step {
        case Act(_, op, random) => ok := Act(op, random);
        case Enter(t, on, random) =>
          ok := (on.Until? ==> on.send || on.recv)
             && (on.ToPush? ==> on.thread == mbox.myThreadId && |on.data| <= mbox.bytesPerMsg);
          if ok { ok := GoOnOrPark(t, on, random); }
        case Resume(t, random) => ok := GoOnOrPark(t, threads[t].on, random);
        case Spurious(t) =>
          threads := threads[t := Woken(threads[t].on)];
          model := model.(threads := threads);
          ok := true;
      }
    }

    /** Any interleaving, up to the first assertion that fails. Wherever it stops nobody who could go on is left
        asleep, and messages are conserved. */
    method Run(steps: seq<MailboxMonitor.Step>) returns (ok: bool)
      requires Valid() && MonitorInv(model) && IsSchedule(model, steps)
      modifies this, mbox, mbox.slots
      ensures ok <==> Execute(old(model), steps).Ok?
      ensures ok ==> Valid() && MonitorInv(model) && Ok(model) == Execute(old(model), steps)
      ensures ok ==> forall t | 0 <= t < |threads| && threads[t].Parked? :: !Satisfied(mbox.View(), threads[t].on)
    {
      ghost var end := Execute(model, steps);
      for k := 0 to |steps|
        invariant Valid() && MonitorInv(model)
        invariant IsSchedule(model, steps[k..]) && end == Execute(model, steps[k..])
      {
        assert steps[k..][1..] == steps[k + 1..];
        ok := Step(steps[k]);
        if !ok {
          return;
        }
      }
      ok := true;
      forall t | 0 <= t < |threads| && threads[t].Parked? ensures !Satisfied(mbox.View(), threads[t].on) {
        assert NotLost(model, t);
      }
    }
  }
}

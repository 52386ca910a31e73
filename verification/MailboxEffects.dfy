/** What the steps of threads sharing a mailbox do, said thread by thread and record by record: when a wait ends, what
    the thread that ends it then does, and what the program's sections leave behind. */
module MailboxEffects {
  import opened Words
  import opened Outcomes
  import opened Devices
  import opened Mailbox
  import opened MailboxMonitor

  // ----- conditions -----

  ghost predicate SomeSlot(m: Mbox, status: Status) {
    exists i :: 0 <= i < |m.slots| && m.slots[i].status == status
  }

  /** What the conditions on the counters and on the send register say of the slots. */
  lemma ConditionsAre(m: Mbox, on: Wait)
    requires Mailbox.Inv(m)
    ensures CanSend(m) <==> !SomeSlot(m, HardwareSend)
    ensures CanRecv(m) <==> SomeSlot(m, HardwareFull)
    ensures Satisfied(m, on) <==>
      match on
      case Until(send, recv) => (send && !SomeSlot(m, HardwareSend)) || (recv && SomeSlot(m, HardwareFull))
      case ToPull => SomeSlot(m, HardwareSend)
      case ToPush(_, _) => SomeSlot(m, HardwareEmpty)
    ensures WaitOk(m, on) <==>
      && on != Until(false, false)
      && (on.ToPush? ==> on.thread == m.threadId && |on.data| <= m.bytesPerMsg)
  {
    CountBounds(m.slots, HardwareEmpty);
    CountBounds(m.slots, HardwareFull);
    if m.sendActive { assert SendSlotRight(m, m.sendSlot); }
    if SomeSlot(m, HardwareSend) {
      var i :| 0 <= i < |m.slots| && m.slots[i].status == HardwareSend;
      assert SendSlotRight(m, i);
    }
  }

  // ----- sections -----

  ghost predicate SameProgram(s: State, s': State) {
    s'.lengthSet == s.lengthSet && s'.held == s.held && s'.sent == s.sent && s'.received == s.received
  }

  ghost predicate SameNetwork(s: State, s': State) {
    s'.accepted == s.accepted && s'.origins == s.origins && s'.pulled == s.pulled
  }

  ghost predicate SameRecords(s: State, s': State) {
    SameProgram(s, s') && SameNetwork(s, s')
  }

  /** A pull: the network takes the message in the send register, its buffer cut at the length in the register, for the
      address in the register; and the register is free. */
  ghost predicate Pulls(s: State, s': State) {
    && s.mbox.sendActive && !s'.mbox.sendActive
    && s.mbox.sendSlot < |s.mbox.slots| == |s'.mbox.slots|
    && s.mbox.sendLength <= |s.mbox.slots[s.mbox.sendSlot].buffer|
    && s'.pulled == s.pulled
         + [Outgoing(s.mbox.sendAddress, s.mbox.slots[s.mbox.sendSlot].buffer[..s.mbox.sendLength])]
    && s'.mbox.slots[s.mbox.sendSlot] == s.mbox.slots[s.mbox.sendSlot].(status := SoftwareOwned)
    && s'.accepted == s.accepted && s'.origins == s.origins && SameProgram(s, s')
  }

  /** A push: some empty slot now holds the message, and what was behind it in the buffer. */
  ghost predicate Pushes(s: State, s': State, data: Blob, i: nat) {
    && i < |s.mbox.slots| && |data| <= |s.mbox.slots[i].buffer| && s.mbox.slots[i].status == HardwareEmpty
    && s'.mbox.slots == s.mbox.slots[i := Slot(HardwareFull, data + s.mbox.slots[i].buffer[|data|..])]
    && s'.accepted == s.accepted + multiset{data}
    && i < |s.origins| && s'.origins == s.origins[i := data]
    && s'.pulled == s.pulled && SameProgram(s, s')
  }

  /** The thread has done what it waited to be able to do. */
  ghost predicate Did(s: State, s': State, on: Wait) {
    match on
    case Until(_, _) => s'.mbox == s.mbox && SameRecords(s, s')
    case ToPull => Pulls(s, s')
    case ToPush(_, data) => exists i :: Pushes(s, s', data, i)
  }

  lemma PullDoes(s: State)
    requires MonitorInv(s) && PullStep(s).Ok? && s.mbox.sendActive
    ensures Pulls(s, PullStep(s).value)
  {
    PullKeepsInv(s.mbox);
  }

  lemma PushDoes(s: State, thread: Word, data: Blob, start: nat) returns (i: nat)
    requires MonitorInv(s) && s.mbox.numSlotsEmpty > 0 && PushStep(s, thread, data, start).Ok?
    ensures Pushes(s, PushStep(s, thread, data, start).value, data, i)
  {
    PushKeepsInv(s.mbox, thread, data, start);
    i := Push(s.mbox, thread, data, start).value.1;
  }

  /** What a section of the program leaves behind, in terms of what it was asked: the length set, the buffer written,
      the message sent, which is that buffer at that length, and the buffer received. */
  lemma ProgramSectionDoes(s: State, t: nat, op: Op, start: nat)
    requires MonitorInv(s) && Enabled(s, Act(t, op, start)) && Perform(s, op, start).Ok?
    ensures var s' := Perform(s, op, start).value;
      match op
      case DoSetLen(length) =>
        s'.mbox == s.mbox.(sendLength := length) && s' == s.(mbox := s'.mbox, lengthSet := length)
      case DoWrite(i, buffer) =>
        && i < |s.mbox.slots| && i < |s.held| && s'.mbox.slots == s.mbox.slots[i := Slot(SoftwareOwned, buffer)]
        && s' == s.(mbox := s.mbox.(slots := s'.mbox.slots), held := s.held[i := buffer])
      case DoSend(address, i) =>
        && i < |s.held| && s.lengthSet == s.mbox.sendLength && s'.mbox.sendActive && s'.mbox.sendSlot == i
        && s'.sent == s.sent + [Outgoing(address, Cut(s.held[i], s.lengthSet))]
        && s'.lengthSet == s.lengthSet && s'.held == s.held && s'.received == s.received && SameNetwork(s, s')
      case DoRecv =>
        (exists i ::
          && 0 <= i < |s.mbox.slots| && i < |s.held| && i < |s.origins| && s.mbox.slots[i].status == HardwareFull
          && s'.mbox.slots == s.mbox.slots[i := s.mbox.slots[i].(status := SoftwareOwned)]
          && s'.received == s.received + [Delivery(s.origins[i], s.mbox.slots[i].buffer)]
          && s'.held == s.held[i := s.mbox.slots[i].buffer])
        && s'.threads == s.threads && s'.lengthSet == s.lengthSet && s'.sent == s.sent && SameNetwork(s, s')
      case DoAlloc(i) =>
        && i < |s.mbox.slots| && s'.mbox.slots == s.mbox.slots[i := s.mbox.slots[i].(status := HardwareEmpty)]
        && SameRecords(s, s')
      case TryPull => if s.mbox.sendActive then Pulls(s, s') else s' == s
      case TryPush(_, data) => if s.mbox.numSlotsEmpty > 0 then exists i :: Pushes(s, s', data, i) else s' == s
  {
    match op
    case DoSetLen(length) => SetLenSets(s.mbox, length);
    case DoWrite(i, buffer) => WriteKeepsInv(s.mbox, i, buffer);
    case DoSend(address, i) => SendKeepsInv(s.mbox, address, i);
    case DoRecv =>
      RecvKeepsInv(s.mbox);
      var i := Recv(s.mbox).value.1;
      assert s.mbox.slots[i].status == HardwareFull;
    case DoAlloc(i) => AllocKeepsInv(s.mbox, i);
    case TryPull => if s.mbox.sendActive { PullDoes(s); }
    case TryPush(thread, data) =>
      if s.mbox.numSlotsEmpty > 0 { var i := PushDoes(s, thread, data, start); }
  }

  /** The argument of the last mboxSetLen among these steps, or else the length before them. */
  function LastLength(length: Word, steps: seq<Step>): Word {
    if steps == [] then length
    else if steps[|steps| - 1].Act? && steps[|steps| - 1].op.DoSetLen? then steps[|steps| - 1].op.length
    else LastLength(length, steps[..|steps| - 1])
  }

  lemma {:induction false} LastLengthFrom(length: Word, steps: seq<Step>)
    requires steps != []
    ensures LastLength(length, steps)
         == LastLength(if steps[0].Act? && steps[0].op.DoSetLen? then steps[0].op.length else length, steps[1..])
  {
    var n := |steps|;
    if n > 1 {
      assert steps[1..][|steps[1..]| - 1] == steps[n - 1];
      if !(steps[n - 1].Act? && steps[n - 1].op.DoSetLen?) {
        assert steps[1..][..n - 2] == steps[..n - 1][1..];
        LastLengthFrom(length, steps[..n - 1]);
      }
    } else {
      assert steps[..n - 1] == [] && steps[1..] == [];
    }
  }

  lemma StepLength(s: State, step: Step)
    requires MonitorInv(s) && Enabled(s, step) && Apply(s, step).Ok?
    ensures Apply(s, step).value.lengthSet == if step.Act? && step.op.DoSetLen? then step.op.length else s.lengthSet
  {
  }

  /** In every run the length at which messages go out is the one last set: the register holds it, and a message is
      sent and pulled at it (ProgramSectionDoes, Pulls). */
  lemma {:induction false} LengthIsLastSet(s: State, steps: seq<Step>, end: State)
    requires MonitorInv(s) && IsSchedule(s, steps) && Execute(s, steps) == Ok(end)
    ensures end.lengthSet == LastLength(s.lengthSet, steps) == end.mbox.sendLength
    decreases |steps|
  {
    if steps != [] {
      StepKeepsInv(s, steps[0]);
      StepLength(s, steps[0]);
      LastLengthFrom(s.lengthSet, steps);
      LengthIsLastSet(Apply(s, steps[0]).value, steps[1..], end);
    }
  }

  // ----- waits -----

  /** Other threads are only ever woken, and keep what they wait for. */
  ghost predicate OnlyWoken(s: State, s': State, u: nat) {
    u < |s.threads| == |s'.threads| ==>
      s'.threads[u] == s.threads[u] || (s.threads[u].Parked? && s'.threads[u] == Woken(s.threads[u].on))
  }

  lemma PerformWakes(s: State, op: Op, start: nat)
    requires Perform(s, op, start).Ok?
    ensures var threads := Perform(s, op, start).value.threads;
            threads == s.threads || threads == NotifyAll(s.threads)
  {
  }

  lemma ProceedWakes(s: State, on: Wait, start: nat)
    requires Proceed(s, on, start).Ok?
    ensures var threads := Proceed(s, on, start).value.threads;
            threads == s.threads || threads == NotifyAll(s.threads)
  {
  }

  lemma WakingOnlyWakes(s: State, s1: State, s': State, t: nat)
    requires |s1.threads| == |s.threads| && forall u: nat | u < |s.threads| && u != t :: s1.threads[u] == s.threads[u]
    requires s'.threads == s1.threads || s'.threads == NotifyAll(s1.threads)
    ensures |s'.threads| == |s.threads| && forall u: nat | u != t :: OnlyWoken(s, s', u)
    ensures t < |s.threads| && s1.threads[t].Running? ==> s'.threads[t].Running?
  {
  }

  lemma ParkOrProceedWakes(s: State, t: nat, on: Wait, start: nat)
    requires t < |s.threads| && ProceedOrPark(s, t, on, start).Ok?
    ensures var s' := ProceedOrPark(s, t, on, start).value;
            |s'.threads| == |s.threads| && forall u: nat | u != t :: OnlyWoken(s, s', u)
    ensures Satisfied(s.mbox, on) ==> ProceedOrPark(s, t, on, start).value.threads[t] == Running
  {
    if Satisfied(s.mbox, on) {
      var s1 := s.(threads := s.threads[t := Running]);
      ProceedWakes(s1, on, start);
      WakingOnlyWakes(s, s1, ProceedOrPark(s, t, on, start).value, t);
    }
  }

  lemma OthersOnlyWoken(s: State, step: Step)
    requires MonitorInv(s) && Enabled(s, step) && Apply(s, step).Ok?
    ensures |Apply(s, step).value.threads| == |s.threads|
    ensures forall u: nat | u != step.t :: OnlyWoken(s, Apply(s, step).value, u)
    ensures step.Act? ==> Apply(s, step).value.threads[step.t].Running?
  {
    match step
    case Act(t, op, start) =>
      PerformWakes(s, op, start);
      WakingOnlyWakes(s, s, Apply(s, step).value, t);
    case Enter(t, on, start) => ParkOrProceedWakes(s, t, on, start);
    case Resume(t, start) => ParkOrProceedWakes(s, t, s.threads[t].on, start);
    case Spurious(_) =>
  }

  /** The thread that makes the step. Acting leaves it running. Entering or resuming a wait, it looks at the condition:
      if that holds it does what it waited for and runs on, and otherwise it sleeps, with nothing changed. */
  lemma OwnThread(s: State, step: Step)
    requires MonitorInv(s) && Enabled(s, step) && Apply(s, step).Ok?
    ensures var s' := Apply(s, step).value;
      |s'.threads| == |s.threads| &&
      match step
      case Act(t, _, _) => s'.threads[t].Running?
      case Enter(t, on, _) => Looked(s, s', t, on)
      case Resume(t, _) => Looked(s, s', t, s.threads[t].on)
      case Spurious(t) => s' == s.(threads := s'.threads) && s'.threads[t] == Woken(s.threads[t].on)
  {
    OthersOnlyWoken(s, step);
    match step
    case Act(_, _, _) =>
    case Enter(t, on, start) => Looks(s, t, on, start);
    case Resume(t, start) =>
      assert WaitsRightly(s, t);
      Looks(s, t, s.threads[t].on, start);
    case Spurious(_) =>
  }

  ghost predicate Looked(s: State, s': State, t: nat, on: Wait) {
    t < |s.threads| == |s'.threads| &&
    if Satisfied(s.mbox, on) then s'.threads[t] == Running && Did(s, s', on)
    else s'.threads[t] == Parked(on) && s'.mbox == s.mbox && SameRecords(s, s')
  }

  lemma Looks(s: State, t: nat, on: Wait, start: nat)
    requires MonitorInv(s) && t < |s.threads| && WaitOk(s.mbox, on) && ProceedOrPark(s, t, on, start).Ok?
    ensures Looked(s, ProceedOrPark(s, t, on, start).value, t, on)
  {
    ParkOrProceedWakes(s, t, on, start);
    if Satisfied(s.mbox, on) {
      OneThread(s, t, Running);
      var s1 := s.(threads := s.threads[t := Running]);
      match on
      case Until(_, _) =>
      case ToPull => PullDoes(s1);
      case ToPush(thread, data) =>
        var i := PushDoes(s1, thread, data, start);
        assert Pushes(s, ProceedOrPark(s, t, on, start).value, data, i);
    }
  }

  /** A wait ends only by a step of the waiting thread itself, after it has been woken, which finds the condition true
      and does what was waited for. Until then the thread waits for the same thing; and a wait begins only by a step
      that enters it. */
  lemma WaitsEndByOwnStep(s: State, step: Step, t: nat)
    requires MonitorInv(s) && Enabled(s, step) && Apply(s, step).Ok? && t < |s.threads|
    ensures var s' := Apply(s, step).value;
      && |s'.threads| == |s.threads|
      && (!s.threads[t].Running? && s'.threads[t].Running? ==>
            step.Resume? && step.t == t && s.threads[t].Woken?
            && Satisfied(s.mbox, s.threads[t].on) && Did(s, s', s.threads[t].on))
      && (!s.threads[t].Running? && !s'.threads[t].Running? ==> s'.threads[t].on == s.threads[t].on)
      && (s.threads[t].Running? && !s'.threads[t].Running? ==>
            step.Enter? && step.t == t && s'.threads[t] == Parked(step.on) && !Satisfied(s.mbox, step.on))
  {
    OwnThread(s, step);
    OthersOnlyWoken(s, step);
    assert t != step.t ==> OnlyWoken(s, Apply(s, step).value, t);
  }

  // ----- runs -----

  /** The state before step k of a run. */
  function Before(s: State, steps: seq<Step>, k: nat): State
    requires IsSchedule(s, steps) && Execute(s, steps).Ok? && k <= |steps|
    decreases k
  {
    if k == 0 then s else Before(Apply(s, steps[0]).value, steps[1..], k - 1)
  }

  lemma {:induction false} BeforeIs(s: State, steps: seq<Step>, k: nat)
    requires MonitorInv(s) && IsSchedule(s, steps) && Execute(s, steps).Ok? && k <= |steps|
    ensures MonitorInv(Before(s, steps, k))
    ensures k < |steps| ==> Enabled(Before(s, steps, k), steps[k]) && Apply(Before(s, steps, k), steps[k]).Ok?
    decreases k
  {
    if k > 0 {
      StepKeepsInv(s, steps[0]);
      BeforeIs(Apply(s, steps[0]).value, steps[1..], k - 1);
    }
  }

  /** Step k of the run ended the wait of thread t on this condition: its own step, after being woken, with the
      condition true, and what it waited for done. */
  ghost predicate EndedWait(s: State, steps: seq<Step>, k: nat, t: nat, on: Wait)
    requires MonitorInv(s) && IsSchedule(s, steps) && Execute(s, steps).Ok?
  {
    k < |steps| && steps[k].Resume? && steps[k].t == t &&
    (BeforeIs(s, steps, k);
     var a := Before(s, steps, k);
     && a.threads[t] == Woken(on) && Satisfied(a.mbox, on) && Did(a, Apply(a, steps[k]).value, on))
  }

  lemma EndedNow(s: State, steps: seq<Step>, t: nat, on: Wait)
    requires MonitorInv(s) && IsSchedule(s, steps) && Execute(s, steps).Ok? && steps != []
    requires steps[0].Resume? && steps[0].t == t && s.threads[t] == Woken(on) && Satisfied(s.mbox, on)
    requires Did(s, Apply(s, steps[0]).value, on)
    ensures EndedWait(s, steps, 0, t, on)
  {
  }

  lemma EndedLater(s: State, steps: seq<Step>, k: nat, t: nat, on: Wait)
    requires MonitorInv(s) && IsSchedule(s, steps) && Execute(s, steps).Ok? && steps != []
    requires MonitorInv(Apply(s, steps[0]).value) && EndedWait(Apply(s, steps[0]).value, steps[1..], k, t, on)
    ensures EndedWait(s, steps, k + 1, t, on)
  {
    assert Before(s, steps, k + 1) == Before(Apply(s, steps[0]).value, steps[1..], k);
    assert steps[k + 1] == steps[1..][k];
  }

  lemma FirstStep(s: State, steps: seq<Step>)
    requires MonitorInv(s) && IsSchedule(s, steps) && Execute(s, steps).Ok? && steps != []
    ensures Enabled(s, steps[0]) && Apply(s, steps[0]).Ok? && MonitorInv(Apply(s, steps[0]).value)
    ensures var s' := Apply(s, steps[0]).value;
            IsSchedule(s', steps[1..]) && Execute(s', steps[1..]) == Execute(s, steps)
  {
    StepKeepsInv(s, steps[0]);
  }

  /** In every run: a thread that waits at some point and later runs has ended that very wait by a step of its own that
      found its condition true and did what it waited to do. So no notification, and nobody else, ends a wait for it. */
  lemma {:induction false} EveryWaitEndsProperly(s: State, steps: seq<Step>, end: State, t: nat)
    requires MonitorInv(s) && IsSchedule(s, steps) && Execute(s, steps) == Ok(end)
    requires t < |s.threads| && !s.threads[t].Running?
    requires t < |end.threads| && end.threads[t].Running?
    ensures exists k: nat :: EndedWait(s, steps, k, t, s.threads[t].on)
    decreases |steps|
  {
    assert steps != [];
    FirstStep(s, steps);
    var s' := Apply(s, steps[0]).value;
    WaitsEndByOwnStep(s, steps[0], t);
    if s'.threads[t].Running? {
      EndedNow(s, steps, t, s.threads[t].on);
    } else {
      EveryWaitEndsProperly(s', steps[1..], end, t);
      var k: nat :| EndedWait(s', steps[1..], k, t, s.threads[t].on);
      EndedLater(s, steps, k, t, s.threads[t].on);
    }
  }
}

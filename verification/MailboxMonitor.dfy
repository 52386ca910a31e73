/** Any number of threads sharing one mailbox. Each critical section is one step; a wait that cannot go on parks its
    thread, a notification wakes every parked thread, and a woken thread looks at its condition again. */
module MailboxMonitor {
  import opened Words
  import opened Outcomes
  import opened Devices
  import opened Mailbox

  /** What a thread waits for: mboxWaitUntil, a blocking netPullMessage, a blocking netPushMessage. */
  datatype Wait = Until(send: bool, recv: bool) | ToPull | ToPush(thread: Word, data: Blob)

  datatype Thread = Running | Parked(on: Wait) | Woken(on: Wait)

  /** A buffer given to the program, and the message accepted from the network that it is due to. */
  datatype Delivery = Delivery(data: Blob, buffer: Blob)

  /** The record of a run, kept from what the threads ask for and are given. lengthSet: the argument of the last
      mboxSetLen; held: what the program last wrote to, or was given in, each buffer; accepted: the messages given to
      netPushMessage and taken in; origins: the one each slot was last filled from; received: what mboxRecv has given
      to the program; sent and pulled: the messages that the program has sent and the network has taken. */
  datatype State = State(
    mbox: Mbox,
    threads: seq<Thread>,
    lengthSet: Word,
    held: seq<Blob>,
    origins: seq<Blob>,
    accepted: multiset<Blob>,
    received: seq<Delivery>,
    sent: seq<Outgoing>,
    pulled: seq<Outgoing>)

  datatype Op =
    | DoRecv
    | DoAlloc(slot: nat)
    | DoSetLen(length: Word)
    | DoSend(address: Word, slot: nat)
    | DoWrite(slot: nat, buffer: Blob)
    | TryPull
    | TryPush(thread: Word, data: Blob)

  /** start is the random number of a push. */
  datatype Step =
    | Act(t: nat, op: Op, start: nat)
    | Enter(t: nat, on: Wait, start: nat)
    | Resume(t: nat, start: nat)
    | Spurious(t: nat)

  // ----- waiting -----

  predicate Satisfied(m: Mbox, on: Wait) {
    match on
    case Until(send, recv) => (send && CanSend(m)) || (recv && CanRecv(m))
    case ToPull => m.sendActive
    case ToPush(_, _) => m.numSlotsEmpty > 0
  }

  /** What the callers of the waits owe, asserted before waiting. */
  predicate WaitOk(m: Mbox, on: Wait) {
    match on
    case Until(send, recv) => send || recv
    case ToPull => true
    case ToPush(thread, data) => thread == m.threadId && |data| <= m.bytesPerMsg
  }

  function NotifyAll(threads: seq<Thread>): seq<Thread> {
    seq(|threads|, t requires 0 <= t < |threads| => if threads[t].Parked? then Woken(threads[t].on) else threads[t])
  }

  // ----- steps -----

  function PullStep(s: State): Outcome<State> {
    var (m, message) :- Pull(s.mbox);
    Ok(s.(mbox := m, threads := NotifyAll(s.threads), pulled := s.pulled + [message]))
  }

  function PushStep(s: State, thread: Word, data: Blob, start: nat): Outcome<State> {
    var (m, i) :- Push(s.mbox, thread, data, start);
    Ok(s.(mbox := m, threads := NotifyAll(s.threads), accepted := s.accepted + multiset{data},
          origins := if i < |s.origins| then s.origins[i := data] else s.origins))
  }

  function OriginOf(s: State, i: nat): Blob {
    if i < |s.origins| then s.origins[i] else []
  }

  function RecvStep(s: State): Outcome<State> {
    var (m, i) :- Recv(s.mbox);
    Ok(s.(mbox := m, received := s.received + [Delivery(OriginOf(s, i), s.mbox.slots[i].buffer)],
          held := NowHeld(s, i, s.mbox.slots[i].buffer)))
  }

  function NowHeld(s: State, i: nat, buffer: Blob): seq<Blob> {
    if i < |s.held| then s.held[i := buffer] else s.held
  }

  function AllocStep(s: State, i: nat): Outcome<State> {
    var (m, notify) :- Alloc(s.mbox, i);
    Ok(s.(mbox := m, threads := if notify then NotifyAll(s.threads) else s.threads))
  }

  function Cut(buffer: Blob, length: nat): Blob {
    if length <= |buffer| then buffer[..length] else buffer
  }

  /** The message is what the program has put into the buffer, at the length that it has set. */
  function SendStep(s: State, address: Word, i: nat): Outcome<State> {
    var m :- Send(s.mbox, address, i);
    if i >= |s.held| then AssertFailed
    else Ok(s.(mbox := m, threads := NotifyAll(s.threads),
               sent := s.sent + [Outgoing(address, Cut(s.held[i], s.lengthSet))]))
  }

  function Perform(s: State, op: Op, start: nat): Outcome<State> {
    match op
    case DoRecv => RecvStep(s)
    case DoAlloc(i) => AllocStep(s, i)
    case DoSetLen(length) => var m :- SetLen(s.mbox, length); Ok(s.(mbox := m, lengthSet := length))
    case DoSend(address, i) => SendStep(s, address, i)
    case DoWrite(i, buffer) =>
      if i >= |s.mbox.slots| then AssertFailed
      else Ok(s.(mbox := Write(s.mbox, i, buffer), held := NowHeld(s, i, buffer)))
    case TryPull => if !s.mbox.sendActive then Ok(s) else PullStep(s)
    case TryPush(thread, data) =>
      if !WaitOk(s.mbox, ToPush(thread, data)) then AssertFailed
      else if s.mbox.numSlotsEmpty == 0 then Ok(s)
      else PushStep(s, thread, data, start)
  }

  /** The rest of a critical section whose wait is over. */
  function Proceed(s: State, on: Wait, start: nat): Outcome<State> {
    match on
    case Until(_, _) => Ok(s)
    case ToPull => PullStep(s)
    case ToPush(thread, data) => PushStep(s, thread, data, start)
  }

  function ProceedOrPark(s: State, t: nat, on: Wait, start: nat): Outcome<State>
    requires t < |s.threads|
  {
    if Satisfied(s.mbox, on) then Proceed(s.(threads := s.threads[t := Running]), on, start)
    else Ok(s.(threads := s.threads[t := Parked(on)]))
  }

  /** A running thread may do anything; but the program writes only to buffers it owns. */
  predicate Enabled(s: State, step: Step) {
    step.t < |s.threads| &&
    match step
    case Act(t, op, _) =>
      && s.threads[t].Running?
      && (op.DoWrite? ==>
            && op.slot < |s.mbox.slots| && s.mbox.slots[op.slot].status == SoftwareOwned
            && |op.buffer| == s.mbox.bytesPerMsg)
    case Enter(t, _, _) => s.threads[t].Running?
    case Resume(t, _) => s.threads[t].Woken?
    case Spurious(t) => s.threads[t].Parked?
  }

  function Apply(s: State, step: Step): Outcome<State>
    requires Enabled(s, step)
  {
    match step
    case Act(_, op, start) => Perform(s, op, start)
    case Enter(t, on, start) => if !WaitOk(s.mbox, on) then AssertFailed else ProceedOrPark(s, t, on, start)
    case Resume(t, start) => ProceedOrPark(s, t, s.threads[t].on, start)
    case Spurious(t) => Ok(s.(threads := s.threads[t := Woken(s.threads[t].on)]))
  }

  // ----- the invariant -----

  function IfFull(slot: Slot, origin: Blob): multiset<Blob> {
    if slot.status == HardwareFull then multiset{origin} else multiset{}
  }

  /** The messages waiting to be received. */
  function Waiting(slots: seq<Slot>, origins: seq<Blob>): multiset<Blob>
    requires |slots| == |origins|
  {
    if slots == [] then multiset{} else IfFull(slots[0], origins[0]) + Waiting(slots[1..], origins[1..])
  }

  function Delivered(received: seq<Delivery>): multiset<Blob> {
    if received == [] then multiset{}
    else Delivered(received[..|received| - 1]) + multiset{received[|received| - 1].data}
  }

  /** A full slot starts with the message it was filled from. */
  ghost predicate HoldsOrigin(m: Mbox, origins: seq<Blob>, i: nat) {
    i < |m.slots| && i < |origins| && m.slots[i].status == HardwareFull ==> origins[i] <= m.slots[i].buffer
  }

  ghost predicate OriginsRight(m: Mbox, origins: seq<Blob>) {
    |origins| == |m.slots| && forall i: nat :: HoldsOrigin(m, origins, i)
  }

  ghost predicate ReceivedRight(received: seq<Delivery>) {
    forall k | 0 <= k < |received| :: received[k].data <= received[k].buffer
  }

  /** A buffer that the program owns, or has sent from, is as the program left it. */
  ghost predicate HoldsWritten(m: Mbox, held: seq<Blob>, i: nat) {
    i < |m.slots| && i < |held| && m.slots[i].status in {SoftwareOwned, HardwareSend} ==> m.slots[i].buffer == held[i]
  }

  ghost predicate ProgramRight(s: State) {
    && s.mbox.sendLength == s.lengthSet
    && |s.held| == |s.mbox.slots| && forall i: nat :: HoldsWritten(s.mbox, s.held, i)
  }

  /** The message in the send register. */
  function InRegister(m: Mbox): Outgoing
    requires m.sendSlot < |m.slots|
  {
    Outgoing(m.sendAddress, Cut(m.slots[m.sendSlot].buffer, m.sendLength))
  }

  function Pending(m: Mbox): seq<Outgoing>
    requires m.sendActive ==> m.sendSlot < |m.slots|
  {
    if m.sendActive then [InRegister(m)] else []
  }

  /** Thread t is not asleep while it could go on. */
  ghost predicate NotLost(s: State, t: nat) {
    t < |s.threads| && s.threads[t].Parked? ==> !Satisfied(s.mbox, s.threads[t].on)
  }

  ghost predicate WaitsRightly(s: State, t: nat) {
    t < |s.threads| && !s.threads[t].Running? ==> WaitOk(s.mbox, s.threads[t].on)
  }

  ghost predicate Conserved(s: State) {
    && OriginsRight(s.mbox, s.origins) && ReceivedRight(s.received)
    && s.accepted == Delivered(s.received) + Waiting(s.mbox.slots, s.origins)
    && (s.mbox.sendActive ==> s.mbox.sendSlot < |s.mbox.slots|)
    && s.sent == s.pulled + Pending(s.mbox)
  }

  ghost predicate ThreadsInv(s: State) {
    forall t: nat :: NotLost(s, t) && WaitsRightly(s, t)
  }

  ghost predicate MonitorInv(s: State) {
    Mailbox.Inv(s.mbox) && ThreadsInv(s) && Conserved(s) && ProgramRight(s)
  }

  function Begin(m: Mbox, threads: nat): State {
    State(m, seq(threads, _ => Running), m.sendLength,
          seq(|m.slots|, i requires 0 <= i < |m.slots| => m.slots[i].buffer), seq(|m.slots|, _ => []),
          multiset{}, [], [], [])
  }

  // ----- threads -----

  lemma NotifiedThreads(s: State, s': State)
    requires ThreadsInv(s) && s'.threads == NotifyAll(s.threads)
    requires s'.mbox.threadId == s.mbox.threadId && s'.mbox.bytesPerMsg == s.mbox.bytesPerMsg
    ensures ThreadsInv(s')
  {
    forall t: nat ensures NotLost(s', t) && WaitsRightly(s', t) {
      assert WaitsRightly(s, t);
    }
  }

  /** A step that satisfies no new wait may leave everybody asleep. */
  lemma SleepingThreads(s: State, s': State)
    requires ThreadsInv(s) && s'.threads == s.threads
    requires s'.mbox.threadId == s.mbox.threadId && s'.mbox.bytesPerMsg == s.mbox.bytesPerMsg
    requires (CanSend(s'.mbox) ==> CanSend(s.mbox)) && (CanRecv(s'.mbox) ==> CanRecv(s.mbox))
    requires (s'.mbox.sendActive ==> s.mbox.sendActive) && (s'.mbox.numSlotsEmpty > 0 ==> s.mbox.numSlotsEmpty > 0)
    ensures ThreadsInv(s')
  {
    forall t: nat ensures NotLost(s', t) && WaitsRightly(s', t) {
      assert NotLost(s, t) && WaitsRightly(s, t);
    }
  }

  lemma OneThread(s: State, t: nat, thread: Thread)
    requires ThreadsInv(s) && t < |s.threads|
    requires !thread.Running? ==> WaitOk(s.mbox, thread.on)
    requires thread.Parked? ==> !Satisfied(s.mbox, thread.on)
    ensures ThreadsInv(s.(threads := s.threads[t := thread]))
  {
    var s' := s.(threads := s.threads[t := thread]);
    forall u: nat ensures NotLost(s', u) && WaitsRightly(s', u) {
      assert NotLost(s, u) && WaitsRightly(s, u);
    }
  }

  // ----- messages -----

  lemma {:induction false} WaitingUpdate(slots: seq<Slot>, origins: seq<Blob>, i: nat, slot: Slot, origin: Blob)
    requires i < |slots| == |origins|
    ensures Waiting(slots[i := slot], origins[i := origin]) + IfFull(slots[i], origins[i])
         == Waiting(slots, origins) + IfFull(slot, origin)
  {
    var rest, data := slots[1..], origins[1..];
    if i == 0 {
      assert slots[i := slot][1..] == rest && origins[i := origin][1..] == data;
      Swap(IfFull(slot, origin), Waiting(rest, data), IfFull(slots[0], origins[0]));
    } else {
      assert slots[i := slot][1..] == rest[i - 1 := slot] && origins[i := origin][1..] == data[i - 1 := origin];
      WaitingUpdate(rest, data, i - 1, slot, origin);
      Inner(IfFull(slots[0], origins[0]), Waiting(rest[i - 1 := slot], data[i - 1 := origin]),
            IfFull(slots[i], origins[i]), Waiting(rest, data), IfFull(slot, origin));
    }
  }

  lemma Swap(a: multiset<Blob>, b: multiset<Blob>, c: multiset<Blob>)
    ensures (a + b) + c == (c + b) + a
  {
  }

  lemma Inner(h: multiset<Blob>, a: multiset<Blob>, x: multiset<Blob>, b: multiset<Blob>, y: multiset<Blob>)
    requires a + x == b + y
    ensures (h + a) + x == (h + b) + y
  {
    assert (h + a) + x == h + (a + x);
    assert (h + b) + y == h + (b + y);
  }

  /** What a change of one slot, and of the message it was filled from, does to the messages waiting. */
  lemma Moved(s: State, m: Mbox, i: nat, origin: Blob)
    requires i < |s.mbox.slots| == |s.origins| && |m.slots| == |s.mbox.slots|
    requires m.slots == s.mbox.slots[i := m.slots[i]]
    requires s.accepted == Delivered(s.received) + Waiting(s.mbox.slots, s.origins)
    ensures s.accepted + IfFull(m.slots[i], origin)
         == Delivered(s.received) + IfFull(s.mbox.slots[i], s.origins[i]) + Waiting(m.slots, s.origins[i := origin])
  {
    var before, after := IfFull(s.mbox.slots[i], s.origins[i]), Waiting(m.slots, s.origins[i := origin]);
    WaitingUpdate(s.mbox.slots, s.origins, i, m.slots[i], origin);
    Inner(Delivered(s.received), after, before, Waiting(s.mbox.slots, s.origins), IfFull(m.slots[i], origin));
    assert Delivered(s.received) + after + before == Delivered(s.received) + before + after;
  }

  lemma MovedOut(s: State, m: Mbox, i: nat)
    requires i < |s.mbox.slots| == |s.origins| && |m.slots| == |s.mbox.slots|
    requires m.slots == s.mbox.slots[i := m.slots[i]]
    requires s.mbox.slots[i].status == HardwareFull && m.slots[i].status != HardwareFull
    requires s.accepted == Delivered(s.received) + Waiting(s.mbox.slots, s.origins)
    ensures s.accepted == Delivered(s.received) + multiset{s.origins[i]} + Waiting(m.slots, s.origins)
  {
    Moved(s, m, i, s.origins[i]);
    assert s.origins[i := s.origins[i]] == s.origins;
    assert s.accepted + multiset{} == s.accepted;
  }

  lemma MovedIn(s: State, m: Mbox, i: nat, data: Blob)
    requires i < |s.mbox.slots| == |s.origins| && |m.slots| == |s.mbox.slots|
    requires m.slots == s.mbox.slots[i := m.slots[i]]
    requires s.mbox.slots[i].status != HardwareFull && m.slots[i].status == HardwareFull
    requires s.accepted == Delivered(s.received) + Waiting(s.mbox.slots, s.origins)
    ensures s.accepted + multiset{data} == Delivered(s.received) + Waiting(m.slots, s.origins[i := data])
  {
    Moved(s, m, i, data);
    assert Delivered(s.received) + multiset{} == Delivered(s.received);
  }

  lemma SamePending(m: Mbox, m': Mbox, i: nat)
    requires SameSend(m, m') && i < |m.slots| == |m'.slots| && m'.slots == m.slots[i := m'.slots[i]]
    requires m.sendActive ==> i != m.sendSlot < |m.slots|
    ensures (m'.sendActive ==> m'.sendSlot < |m'.slots|) && Pending(m') == Pending(m)
  {
  }

  lemma OriginsHeld(m: Mbox, m': Mbox, origins: seq<Blob>, origins': seq<Blob>, i: nat)
    requires OriginsRight(m, origins) && i < |m.slots| == |m'.slots|
    requires m'.slots == m.slots[i := m'.slots[i]] && |origins'| == |origins| && origins' == origins[i := origins'[i]]
    requires m'.slots[i].status == HardwareFull ==> origins'[i] <= m'.slots[i].buffer
    ensures OriginsRight(m', origins')
  {
    forall j: nat ensures HoldsOrigin(m', origins', j) {
      assert HoldsOrigin(m, origins, j);
    }
  }

  lemma OneMoreDelivered(received: seq<Delivery>, d: Delivery)
    requires ReceivedRight(received) && d.data <= d.buffer
    ensures ReceivedRight(received + [d])
    ensures Delivered(received + [d]) == Delivered(received) + multiset{d.data}
  {
    assert (received + [d])[..|received|] == received;
  }

  ghost predicate SameSend(m: Mbox, m': Mbox) {
    && m'.sendActive == m.sendActive
    && (m.sendActive ==> m'.sendSlot == m.sendSlot && m'.sendAddress == m.sendAddress && m'.sendLength == m.sendLength)
  }

  lemma PushConserves(s: State, s': State, i: nat, data: Blob)
    requires Conserved(s) && i < |s.mbox.slots| == |s'.mbox.slots|
    requires s'.mbox.slots == s.mbox.slots[i := s'.mbox.slots[i]] && SameSend(s.mbox, s'.mbox)
    requires s.mbox.sendActive ==> s.mbox.sendSlot != i
    requires s.mbox.slots[i].status == HardwareEmpty && s'.mbox.slots[i].status == HardwareFull
    requires data <= s'.mbox.slots[i].buffer && s'.origins == s.origins[i := data]
    requires s'.accepted == s.accepted + multiset{data} && s'.received == s.received
    requires s'.sent == s.sent && s'.pulled == s.pulled
    ensures Conserved(s')
  {
    MovedIn(s, s'.mbox, i, data);
    SamePending(s.mbox, s'.mbox, i);
    OriginsHeld(s.mbox, s'.mbox, s.origins, s'.origins, i);
  }

  lemma RecvConserves(s: State, s': State, i: nat)
    requires Conserved(s) && i < |s.mbox.slots| == |s'.mbox.slots|
    requires s'.mbox.slots == s.mbox.slots[i := s'.mbox.slots[i]] && SameSend(s.mbox, s'.mbox)
    requires s.mbox.sendActive ==> s.mbox.sendSlot != i
    requires s.mbox.slots[i].status == HardwareFull && s'.mbox.slots[i].status == SoftwareOwned
    requires s'.received == s.received + [Delivery(s.origins[i], s.mbox.slots[i].buffer)]
    requires s'.accepted == s.accepted && s'.origins == s.origins && s'.sent == s.sent && s'.pulled == s.pulled
    ensures Conserved(s')
  {
    assert HoldsOrigin(s.mbox, s.origins, i);
    MovedOut(s, s'.mbox, i);
    SamePending(s.mbox, s'.mbox, i);
    OriginsHeld(s.mbox, s'.mbox, s.origins, s.origins, i);
    OneMoreDelivered(s.received, Delivery(s.origins[i], s.mbox.slots[i].buffer));
  }

  lemma Still(a: multiset<Blob>, b: multiset<Blob>)
    requires a + multiset{} == b + multiset{}
    ensures a == b
  {
    assert a + multiset{} == a && b + multiset{} == b;
  }

  /** A slot that is neither full before nor after holds no message waiting to be received. */
  lemma NotFullUpdate(s: State, m: Mbox, i: nat)
    requires Conserved(s) && i < |s.mbox.slots|
    requires |m.slots| == |s.mbox.slots| && m.slots == s.mbox.slots[i := m.slots[i]]
    requires s.mbox.slots[i].status != HardwareFull && m.slots[i].status != HardwareFull
    ensures Waiting(m.slots, s.origins) == Waiting(s.mbox.slots, s.origins)
    ensures OriginsRight(m, s.origins)
  {
    assert s.origins[i := s.origins[i]] == s.origins;
    WaitingUpdate(s.mbox.slots, s.origins, i, m.slots[i], s.origins[i]);
    Still(Waiting(m.slots, s.origins), Waiting(s.mbox.slots, s.origins));
    OriginsHeld(s.mbox, m, s.origins, s.origins, i);
  }

  /** If it is not being sent either, no message is affected. */
  lemma QuietUpdate(s: State, m: Mbox, i: nat)
    requires Conserved(s) && i < |s.mbox.slots|
    requires |m.slots| == |s.mbox.slots| && m.slots == s.mbox.slots[i := m.slots[i]]
    requires s.mbox.slots[i].status != HardwareFull && m.slots[i].status != HardwareFull
    requires m.sendActive == s.mbox.sendActive
    requires m.sendActive ==> m.sendSlot == s.mbox.sendSlot != i
    requires m.sendActive ==> m.sendAddress == s.mbox.sendAddress && m.sendLength == s.mbox.sendLength
    ensures Waiting(m.slots, s.origins) == Waiting(s.mbox.slots, s.origins)
    ensures OriginsRight(m, s.origins)
    ensures (m.sendActive ==> m.sendSlot < |m.slots|) && Pending(m) == Pending(s.mbox)
  {
    NotFullUpdate(s, m, i);
  }

  lemma ProgramStays(s: State, s': State, i: nat)
    requires ProgramRight(s) && i < |s.mbox.slots| == |s'.mbox.slots|
    requires s'.mbox.slots == s.mbox.slots[i := s'.mbox.slots[i]] && s'.mbox.sendLength == s.mbox.sendLength
    requires s'.lengthSet == s.lengthSet && |s'.held| == |s.held| && s'.held == s.held[i := s'.held[i]]
    requires s'.mbox.slots[i].status in {SoftwareOwned, HardwareSend} ==> s'.mbox.slots[i].buffer == s'.held[i]
    ensures ProgramRight(s')
  {
    forall j: nat ensures HoldsWritten(s'.mbox, s'.held, j) {
      assert HoldsWritten(s.mbox, s.held, j);
    }
  }

  // ----- each step keeps the invariant -----

  lemma PullStepKeeps(s: State)
    requires MonitorInv(s) && s.mbox.sendActive
    ensures PullStep(s).Ok? <==> s.mbox.sendLength <= s.mbox.bytesPerMsg
    ensures PullStep(s).Ok? ==> MonitorInv(PullStep(s).value)
  {
    PullKeepsInv(s.mbox);
    if s.mbox.sendLength <= s.mbox.bytesPerMsg {
      var s' := PullStep(s).value;
      var i := s.mbox.sendSlot;
      NotifiedThreads(s, s');
      NotFullUpdate(s, s'.mbox, i);
      assert HoldsWritten(s.mbox, s.held, i);
      ProgramStays(s, s', i);
      assert s.mbox.sendLength <= |s.mbox.slots[i].buffer|;
      assert s'.pulled + Pending(s'.mbox) == s'.pulled;
    }
  }

  lemma PushStepKeeps(s: State, thread: Word, data: Blob, start: nat)
    requires MonitorInv(s) && s.mbox.numSlotsEmpty > 0 && WaitOk(s.mbox, ToPush(thread, data))
    ensures PushStep(s, thread, data, start).Ok? && MonitorInv(PushStep(s, thread, data, start).value)
  {
    PushKeepsInv(s.mbox, thread, data, start);
    var s' := PushStep(s, thread, data, start).value;
    var i := Push(s.mbox, thread, data, start).value.1;
    assert SendSlotRight(s.mbox, i);
    NotifiedThreads(s, s');
    PushConserves(s, s', i, data);
    ProgramStays(s, s', i);
  }

  lemma RecvStepKeeps(s: State)
    requires MonitorInv(s)
    ensures RecvStep(s).Ok? <==> CanRecv(s.mbox)
    ensures RecvStep(s).Ok? ==> MonitorInv(RecvStep(s).value)
  {
    RecvKeepsInv(s.mbox);
    if CanRecv(s.mbox) {
      var s' := RecvStep(s).value;
      var i := Recv(s.mbox).value.1;
      assert SendSlotRight(s.mbox, i);
      SleepingThreads(s, s');
      RecvConserves(s, s', i);
      ProgramStays(s, s', i);
    }
  }

  predicate Owned(m: Mbox, i: nat) {
    i < |m.slots| && m.slots[i].status == SoftwareOwned
  }

  lemma AllocStepKeeps(s: State, i: nat)
    requires MonitorInv(s)
    ensures AllocStep(s, i).Ok? <==> Owned(s.mbox, i)
    ensures AllocStep(s, i).Ok? ==> MonitorInv(AllocStep(s, i).value)
  {
    AllocKeepsInv(s.mbox, i);
    if Owned(s.mbox, i) {
      var s' := AllocStep(s, i).value;
      assert SendSlotRight(s.mbox, i);
      if s.mbox.numSlotsEmpty == 0 {
        NotifiedThreads(s, s');
      } else {
        SleepingThreads(s, s');
      }
      QuietUpdate(s, s'.mbox, i);
      ProgramStays(s, s', i);
    }
  }

  lemma SendStepKeeps(s: State, address: Word, i: nat)
    requires MonitorInv(s)
    ensures SendStep(s, address, i).Ok? <==> CanSend(s.mbox) && Owned(s.mbox, i)
    ensures SendStep(s, address, i).Ok? ==> MonitorInv(SendStep(s, address, i).value)
  {
    SendKeepsInv(s.mbox, address, i);
    if CanSend(s.mbox) && Owned(s.mbox, i) {
      var s' := SendStep(s, address, i).value;
      NotifiedThreads(s, s');
      NotFullUpdate(s, s'.mbox, i);
      assert HoldsWritten(s.mbox, s.held, i);
      ProgramStays(s, s', i);
      assert s.pulled + [] == s.pulled;
      assert Pending(s'.mbox) == [Outgoing(address, Cut(s.held[i], s.lengthSet))];
    }
  }

  lemma SetLenStepKeeps(s: State, length: Word, start: nat)
    requires MonitorInv(s) && CanSend(s.mbox)
    ensures Perform(s, DoSetLen(length), start).Ok? && MonitorInv(Perform(s, DoSetLen(length), start).value)
  {
    SetLenSets(s.mbox, length);
    var s' := Perform(s, DoSetLen(length), start).value;
    SleepingThreads(s, s');
    forall i: nat ensures HoldsOrigin(s'.mbox, s'.origins, i) && HoldsWritten(s'.mbox, s'.held, i) {
      assert HoldsOrigin(s.mbox, s.origins, i) && HoldsWritten(s.mbox, s.held, i);
    }
  }

  lemma WriteStepKeeps(s: State, i: nat, buffer: Blob, start: nat)
    requires MonitorInv(s) && Owned(s.mbox, i) && |buffer| == s.mbox.bytesPerMsg
    ensures Perform(s, DoWrite(i, buffer), start).Ok? && MonitorInv(Perform(s, DoWrite(i, buffer), start).value)
  {
    var s' := Perform(s, DoWrite(i, buffer), start).value;
    WriteKeepsInv(s.mbox, i, buffer);
    assert SendSlotRight(s.mbox, i);
    SleepingThreads(s, s');
    QuietUpdate(s, s'.mbox, i);
    ProgramStays(s, s', i);
  }

  /** The mistakes of the program that the assertions are there to catch. */
  predicate Mistake(m: Mbox, op: Op) {
    match op
    case DoRecv => !CanRecv(m)
    case DoAlloc(i) => !Owned(m, i)
    case DoSetLen(_) => !CanSend(m)
    case DoSend(_, i) => !CanSend(m) || !Owned(m, i)
    case DoWrite(_, _) => false
    case TryPull => OverlongSend(m)
    case TryPush(thread, data) => !WaitOk(m, ToPush(thread, data))
  }

  predicate OverlongSend(m: Mbox) {
    m.sendActive && m.sendLength > m.bytesPerMsg
  }

  lemma PerformKeeps(s: State, t: nat, op: Op, start: nat)
    requires MonitorInv(s) && Enabled(s, Act(t, op, start))
    ensures Perform(s, op, start).Ok? <==> !Mistake(s.mbox, op)
    ensures Perform(s, op, start).Ok? ==> MonitorInv(Perform(s, op, start).value)
  {
    match op
    case DoRecv => RecvStepKeeps(s);
    case DoAlloc(i) => AllocStepKeeps(s, i);
    case DoSetLen(length) =>
      SetLenSets(s.mbox, length);
      if CanSend(s.mbox) { SetLenStepKeeps(s, length, start); }
    case DoSend(address, i) => SendStepKeeps(s, address, i);
    case DoWrite(i, buffer) => WriteStepKeeps(s, i, buffer, start);
    case TryPull => if s.mbox.sendActive { PullStepKeeps(s); }
    case TryPush(thread, data) =>
      if WaitOk(s.mbox, ToPush(thread, data)) && s.mbox.numSlotsEmpty > 0 { PushStepKeeps(s, thread, data, start); }
  }

  lemma ProceedOrParkKeeps(s: State, t: nat, on: Wait, start: nat)
    requires MonitorInv(s) && t < |s.threads| && WaitOk(s.mbox, on)
    ensures ProceedOrPark(s, t, on, start).AssertFailed? <==> on.ToPull? && OverlongSend(s.mbox)
    ensures ProceedOrPark(s, t, on, start).Ok? ==> MonitorInv(ProceedOrPark(s, t, on, start).value)
  {
    if Satisfied(s.mbox, on) {
      OneThread(s, t, Running);
      var s1 := s.(threads := s.threads[t := Running]);
      match on
      case Until(_, _) =>
      case ToPull => PullStepKeeps(s1);
      case ToPush(thread, data) => PushStepKeeps(s1, thread, data, start);
    } else {
      OneThread(s, t, Parked(on));
    }
  }

  /** A step fails an assertion exactly when the program has made one of the mistakes the assertions are there for:
      the counters, the send register and both searches never fail. Otherwise the invariant is kept. */
  lemma StepKeepsInv(s: State, step: Step)
    requires MonitorInv(s) && Enabled(s, step)
    ensures Apply(s, step).AssertFailed? <==>
      match step
      case Act(_, op, _) => Mistake(s.mbox, op)
      case Enter(_, on, _) => !WaitOk(s.mbox, on) || (on.ToPull? && OverlongSend(s.mbox))
      case Resume(t, _) => s.threads[t].on.ToPull? && OverlongSend(s.mbox)
      case Spurious(_) => false
    ensures Apply(s, step).Ok? ==> MonitorInv(Apply(s, step).value)
  {
    match step
    case Act(t, op, start) => PerformKeeps(s, t, op, start);
    case Enter(t, on, start) => if WaitOk(s.mbox, on) { ProceedOrParkKeeps(s, t, on, start); }
    case Resume(t, start) =>
      assert WaitsRightly(s, t);
      ProceedOrParkKeeps(s, t, s.threads[t].on, start);
    case Spurious(t) =>
      assert WaitsRightly(s, t);
      OneThread(s, t, Woken(s.threads[t].on));
  }

  // ----- every run -----

  predicate IsSchedule(s: State, steps: seq<Step>)
    decreases |steps|
  {
    steps == [] ||
    (Enabled(s, steps[0]) &&
     var next := Apply(s, steps[0]);
     next.Ok? ==> IsSchedule(next.value, steps[1..]))
  }

  function Execute(s: State, steps: seq<Step>): Outcome<State>
    requires IsSchedule(s, steps)
    decreases |steps|
  {
    if steps == [] then Ok(s) else
      var next :- Apply(s, steps[0]);
      Execute(next, steps[1..])
  }

  lemma {:induction false} RunKeepsInv(s: State, steps: seq<Step>)
    requires MonitorInv(s) && IsSchedule(s, steps) && Execute(s, steps).Ok?
    ensures MonitorInv(Execute(s, steps).value)
    decreases |steps|
  {
    if steps != [] {
      StepKeepsInv(s, steps[0]);
      RunKeepsInv(Apply(s, steps[0]).value, steps[1..]);
    }
  }

  lemma BeginInv(m: Mbox, threads: nat)
    requires Initial(m)
    ensures MonitorInv(Begin(m, threads))
  {
    InitialInv(m);
    NothingWaits(m.slots, Begin(m, threads).origins);
  }

  lemma {:induction false} NothingWaits(slots: seq<Slot>, origins: seq<Blob>)
    requires |slots| == |origins| && forall i | 0 <= i < |slots| :: slots[i].status != HardwareFull
    ensures Waiting(slots, origins) == multiset{}
  {
    if slots != [] { NothingWaits(slots[1..], origins[1..]); }
  }

  /** No lost wakeups: in every reachable state, a thread that is parked and has not been woken waits for something
      that is not so; although mboxRecv notifies nobody, and mboxAlloc only when there was no empty slot. */
  lemma {:induction false} NoLostWakeups(m: Mbox, threads: nat, steps: seq<Step>, t: nat)
    requires Initial(m) && IsSchedule(Begin(m, threads), steps) && Execute(Begin(m, threads), steps).Ok?
    ensures var s := Execute(Begin(m, threads), steps).value;
            t < |s.threads| && s.threads[t].Parked? ==> !Satisfied(s.mbox, s.threads[t].on)
  {
    BeginInv(m, threads);
    RunKeepsInv(Begin(m, threads), steps);
    assert NotLost(Execute(Begin(m, threads), steps).value, t);
  }

  /** Messages are conserved: each one accepted from the network has been received once or is in a full slot, every
      buffer received starts with the accepted message it is due to, and so does every full slot; what was sent has
      been pulled, in order, except for at most the one message still in the send register. */
  lemma {:induction false} MessagesConserved(m: Mbox, threads: nat, steps: seq<Step>)
    requires Initial(m) && IsSchedule(Begin(m, threads), steps) && Execute(Begin(m, threads), steps).Ok?
    ensures var s := Execute(Begin(m, threads), steps).value;
            && OriginsRight(s.mbox, s.origins) && ReceivedRight(s.received)
            && s.accepted == Delivered(s.received) + Waiting(s.mbox.slots, s.origins)
            && (s.mbox.sendActive ==> s.mbox.sendSlot < |s.mbox.slots|)
            && s.sent == s.pulled + Pending(s.mbox)
  {
    BeginInv(m, threads);
    RunKeepsInv(Begin(m, threads), steps);
  }

  // ----- notifications and blocking -----

  /** mboxAlloc notifies exactly when the new slot lets some wait go on; mboxRecv never does. */
  lemma NotifiesExactlyWhenNeeded(m: Mbox, i: nat)
    requires Mailbox.Inv(m)
    ensures Alloc(m, i).Ok? ==>
      (Alloc(m, i).value.1 <==> exists on :: !Satisfied(m, on) && Satisfied(Alloc(m, i).value.0, on))
    ensures Recv(m).Ok? ==> forall on :: Satisfied(Recv(m).value.0, on) ==> Satisfied(m, on)
  {
    AllocKeepsInv(m, i);
    RecvKeepsInv(m);
    if Alloc(m, i).Ok? && m.numSlotsEmpty == 0 {
      assert !Satisfied(m, ToPush(0, [])) && Satisfied(Alloc(m, i).value.0, ToPush(0, []));
    }
  }

  /** The program, the incoming thread and the outgoing thread all block together exactly when software owns every
      slot and the program waits only to receive. */
  lemma AllBlockExactlyWhen(m: Mbox, send: bool, recv: bool, thread: Word, data: Blob)
    requires Mailbox.Inv(m) && (send || recv)
    ensures !Satisfied(m, Until(send, recv)) && !Satisfied(m, ToPull) && !Satisfied(m, ToPush(thread, data))
            <==> !send && forall i | 0 <= i < |m.slots| :: m.slots[i].status == SoftwareOwned
  {
    CountBounds(m.slots, HardwareEmpty);
    CountBounds(m.slots, HardwareFull);
    forall i: nat | i < |m.slots| && !m.sendActive && m.numSlotsEmpty == 0 && m.numSlotsFull == 0
      ensures m.slots[i].status == SoftwareOwned
    {
      assert SendSlotRight(m, i);
    }
    assert m.sendActive ==> SendSlotRight(m, m.sendSlot);
  }

  /** An operation other than the one that uses up what was waited for: sending, receiving, or either. */
  predicate Leaves(op: Op, on: Wait) {
    on.Until? ==> (on.send ==> !op.DoSend?) && (on.recv ==> !op.DoRecv?)
  }

  predicate StepLeaves(step: Step, on: Wait) {
    step.Act? ==> Leaves(step.op, on)
  }

  /** Steps that neither receive nor send: all that the network's threads do. */
  predicate LeavesReady(step: Step) {
    StepLeaves(step, Until(true, true))
  }

  lemma PerformReady(s: State, op: Op, start: nat, on: Wait)
    requires MonitorInv(s) && Perform(s, op, start).Ok? && Leaves(op, on)
    requires on.Until? && Satisfied(s.mbox, on)
    ensures Satisfied(Perform(s, op, start).value.mbox, on)
  {
    if op.DoRecv? { RecvKeepsInv(s.mbox); }
    if op.DoSend? { SendKeepsInv(s.mbox, op.address, op.slot); }
    if op.DoSetLen? { SetLenSets(s.mbox, op.length); }
    if op.DoAlloc? { AllocKeepsInv(s.mbox, op.slot); }
    if op.TryPull? && s.mbox.sendActive { PullKeepsInv(s.mbox); }
    if op.TryPush? && s.mbox.numSlotsEmpty > 0 { PushKeepsInv(s.mbox, op.thread, op.data, start); }
  }

  lemma ProceedReady(s: State, t: nat, waits: Wait, start: nat, on: Wait)
    requires MonitorInv(s) && t < |s.threads| && ProceedOrPark(s, t, waits, start).Ok?
    requires on.Until? && Satisfied(s.mbox, on)
    ensures Satisfied(ProceedOrPark(s, t, waits, start).value.mbox, on)
  {
    if waits.ToPull? && s.mbox.sendActive { PullKeepsInv(s.mbox); }
    if waits.ToPush? && s.mbox.numSlotsEmpty > 0 { PushKeepsInv(s.mbox, waits.thread, waits.data, start); }
  }

  lemma ReadyStepStays(s: State, step: Step, on: Wait)
    requires MonitorInv(s) && Enabled(s, step) && Apply(s, step).Ok? && StepLeaves(step, on)
    requires on.Until? && Satisfied(s.mbox, on)
    ensures Satisfied(Apply(s, step).value.mbox, on)
  {
    match step
    case Act(_, op, start) => PerformReady(s, op, start, on);
    case Enter(t, waits, start) => ProceedReady(s, t, waits, start, on);
    case Resume(t, start) => ProceedReady(s, t, s.threads[t].on, start, on);
    case Spurious(_) =>
  }

  /** What mboxWaitUntil, mboxCanRecv or mboxCanSend has told the program stays true, whatever the other threads do,
      until the program itself uses it up by receiving or sending. */
  lemma {:induction false} ReadyStays(s: State, steps: seq<Step>, on: Wait)
    requires MonitorInv(s) && IsSchedule(s, steps) && Execute(s, steps).Ok?
    requires forall k | 0 <= k < |steps| :: StepLeaves(steps[k], on)
    requires on.Until? && Satisfied(s.mbox, on)
    ensures Satisfied(Execute(s, steps).value.mbox, on)
    decreases |steps|
  {
    if steps != [] {
      StepKeepsInv(s, steps[0]);
      ReadyStepStays(s, steps[0], on);
      ReadyStays(Apply(s, steps[0]).value, steps[1..], on);
    }
  }

  /** A step with which mboxWaitUntil returns: at once, or after having been woken. */
  predicate EndsWait(s: State, step: Step, on: Wait) {
    && on.Until? && Enabled(s, step)
    && ((step.Enter? && step.on == on) || (step.Resume? && s.threads[step.t].on == on))
    && Apply(s, step).Ok? && step.t < |Apply(s, step).value.threads|
    && Apply(s, step).value.threads[step.t].Running?
  }

  lemma WaitEndsWhenReady(s: State, step: Step, on: Wait)
    requires EndsWait(s, step, on)
    ensures Satisfied(Apply(s, step).value.mbox, on)
  {
  }

  /** When mboxWaitUntil returns, what it waited for holds, and still does after anything that the other threads go
      on to do. */
  lemma {:induction false} WaitedForHolds(s: State, steps: seq<Step>, on: Wait)
    requires MonitorInv(s) && IsSchedule(s, steps) && Execute(s, steps).Ok?
    requires steps != [] && EndsWait(s, steps[0], on)
    requires forall k | 0 < k < |steps| :: LeavesReady(steps[k])
    ensures Satisfied(Execute(s, steps).value.mbox, on)
  {
    StepKeepsInv(s, steps[0]);
    WaitEndsWhenReady(s, steps[0], on);
    ReadyStays(Apply(s, steps[0]).value, steps[1..], on);
  }
}

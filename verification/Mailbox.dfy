/** The emulated mailbox of one thread: its slots, counters and send register, and what each critical section does
    to them. Every section is one function; a failed assertion is an outcome. */
module Mailbox {
  import opened Words
  import opened Outcomes
  import opened Devices

  datatype Status = SoftwareOwned | HardwareSend | HardwareEmpty | HardwareFull

  datatype Slot = Slot(status: Status, buffer: Blob)

  /** bytesPerMsg: the size of every slot's buffer. */
  datatype Mbox = Mbox(
    threadId: Word,
    bytesPerMsg: nat,
    slots: seq<Slot>,
    numSlotsEmpty: Word,
    numSlotsFull: Word,
    sendActive: bool,
    sendAddress: Word,
    sendSlot: nat,
    sendLength: Word)

  /** A message leaving the mailbox. */
  datatype Outgoing = Outgoing(address: Word, data: Blob)

  function Count(slots: seq<Slot>, status: Status): nat {
    if slots == [] then 0 else (if slots[0].status == status then 1 else 0) + Count(slots[1..], status)
  }

  /** check_slots. */
  predicate CheckSlots(m: Mbox) {
    Count(m.slots, HardwareEmpty) == m.numSlotsEmpty && Count(m.slots, HardwareFull) == m.numSlotsFull
  }

  function Checked<T>(m: Mbox, result: T): Outcome<T> {
    if CheckSlots(m) then Ok(result) else AssertFailed
  }

  function SetStatus(m: Mbox, i: nat, status: Status): Mbox
    requires i < |m.slots|
  {
    m.(slots := m.slots[i := m.slots[i].(status := status)])
  }

  /** All slots start with software; the send registers hold anything. */
  predicate Initial(m: Mbox) {
    && m.numSlotsEmpty == 0 && m.numSlotsFull == 0 && !m.sendActive
    && 0 < |m.slots| < WORD_LIMIT
    && forall i | 0 <= i < |m.slots| :: m.slots[i].status == SoftwareOwned && |m.slots[i].buffer| == m.bytesPerMsg
  }

  // ----- the thread's side -----

  predicate CanRecv(m: Mbox) {
    m.numSlotsFull > 0
  }

  predicate CanSend(m: Mbox) {
    !m.sendActive
  }

  /** The first full slot, or the number of slots. */
  function FirstFull(slots: seq<Slot>): nat {
    if slots == [] || slots[0].status == HardwareFull then 0 else 1 + FirstFull(slots[1..])
  }

  /** mboxRecv: the new mailbox and the slot given to software. */
  function Recv(m: Mbox): (r: Outcome<(Mbox, nat)>)
    ensures r.Ok? ==> r.value.1 < |m.slots|
  {
    var i := FirstFull(m.slots);
    if !CheckSlots(m) || m.numSlotsFull == 0 || i >= |m.slots| then AssertFailed
    else
      var m' := SetStatus(m, i, SoftwareOwned).(numSlotsFull := m.numSlotsFull - 1);
      Checked(m', (m', i))
  }

  /** mboxAlloc, for the slot a buffer belongs to: the new mailbox, and whether to notify. */
  function Alloc(m: Mbox, i: nat): Outcome<(Mbox, bool)> {
    if !CheckSlots(m) || i >= |m.slots| || m.slots[i].status != SoftwareOwned then AssertFailed
    else
      var m' := SetStatus(m, i, HardwareEmpty).(numSlotsEmpty := Add(m.numSlotsEmpty, 1));
      Checked(m', (m', m'.numSlotsEmpty == 1))
  }

  /** mboxSetLen. */
  function SetLen(m: Mbox, length: Word): Outcome<Mbox> {
    if m.sendActive then AssertFailed else Ok(m.(sendLength := length))
  }

  /** mboxSend. */
  function Send(m: Mbox, address: Word, i: nat): Outcome<Mbox> {
    if m.sendActive || !CheckSlots(m) || i >= |m.slots| || m.slots[i].status != SoftwareOwned then AssertFailed
    else
      var m' := SetStatus(m, i, HardwareSend).(sendActive := true, sendAddress := address, sendSlot := i);
      Checked(m', m')
  }

  /** The program filling a buffer; nothing in the mailbox checks whose buffer it is. */
  function Write(m: Mbox, i: nat, buffer: Blob): Mbox
    requires i < |m.slots|
  {
    m.(slots := m.slots[i := m.slots[i].(buffer := buffer)])
  }

  // ----- the network's side -----

  /** netPullMessage, once a send is active. */
  function Pull(m: Mbox): Outcome<(Mbox, Outgoing)> {
    if !CheckSlots(m) || m.sendLength > m.bytesPerMsg || m.sendSlot >= |m.slots|
       || m.slots[m.sendSlot].status != HardwareSend || m.sendLength > |m.slots[m.sendSlot].buffer|
    then AssertFailed
    else
      var m' := SetStatus(m, m.sendSlot, SoftwareOwned).(sendActive := false);
      Checked(m', (m', Outgoing(m.sendAddress, m.slots[m.sendSlot].buffer[..m.sendLength])))
  }

  /** The slot at which a probe from start stops: the first empty one, going round at most left slots. */
  function Probe(slots: seq<Slot>, start: nat, left: nat): (sel: nat)
    requires slots != []
    ensures sel < |slots|
    decreases left
  {
    var sel := start % |slots|;
    if left <= 1 || slots[sel].status == HardwareEmpty then sel else Probe(slots, start + 1, left - 1)
  }

  function CopyIn(buffer: Blob, data: Blob): Blob
    requires |data| <= |buffer|
  {
    data + buffer[|data|..]
  }

  /** netPushMessage, once a slot is empty, probing from a random start: the new mailbox and the slot filled. */
  function Push(m: Mbox, thread: Word, data: Blob, start: nat): (r: Outcome<(Mbox, nat)>)
    ensures r.Ok? ==> r.value.1 < |r.value.0.slots|
  {
    if thread != m.threadId || |data| > m.bytesPerMsg || !CheckSlots(m) || m.slots == [] then AssertFailed
    else
      var sel := Probe(m.slots, start % |m.slots|, |m.slots|);
      if m.slots[sel].status != HardwareEmpty || m.numSlotsEmpty == 0 || |data| > |m.slots[sel].buffer|
      then AssertFailed
      else
        var m' := m.(slots := m.slots[sel := Slot(HardwareFull, CopyIn(m.slots[sel].buffer, data))],
                     numSlotsEmpty := m.numSlotsEmpty - 1, numSlotsFull := Add(m.numSlotsFull, 1));
        Checked(m', (m', sel))
  }

  // ----- who owns what -----

  ghost predicate SendSlotRight(m: Mbox, i: nat)
    requires i < |m.slots|
  {
    m.slots[i].status == HardwareSend <==> m.sendActive && i == m.sendSlot
  }

  /** The counters are the true counts, the send register names the one slot being sent, and buffers keep their size. */
  ghost predicate Inv(m: Mbox) {
    && 0 < |m.slots| < WORD_LIMIT
    && CheckSlots(m)
    && (m.sendActive ==> m.sendSlot < |m.slots|)
    && (forall i: nat | i < |m.slots| :: SendSlotRight(m, i))
    && (forall i | 0 <= i < |m.slots| :: |m.slots[i].buffer| == m.bytesPerMsg)
  }

  lemma {:induction false} CountUpdate(slots: seq<Slot>, i: nat, slot: Slot, status: Status)
    requires i < |slots|
    ensures Count(slots[i := slot], status) + (if slots[i].status == status then 1 else 0)
         == Count(slots, status) + (if slot.status == status then 1 else 0)
  {
    if i == 0 {
      assert slots[i := slot][1..] == slots[1..];
    } else {
      assert slots[i := slot][1..] == slots[1..][i - 1 := slot];
      CountUpdate(slots[1..], i - 1, slot, status);
    }
  }

  lemma {:induction false} CountBounds(slots: seq<Slot>, status: Status)
    ensures Count(slots, status) <= |slots|
    ensures Count(slots, status) == 0 <==> forall i | 0 <= i < |slots| :: slots[i].status != status
  {
    if slots != [] {
      CountBounds(slots[1..], status);
      forall i | 0 <= i < |slots| && Count(slots, status) == 0 ensures slots[i].status != status {
        if i > 0 { assert slots[i] == slots[1..][i - 1]; }
      }
      if forall i | 0 <= i < |slots| :: slots[i].status != status {
        forall i | 0 <= i < |slots[1..]| ensures slots[1..][i].status != status {
          assert slots[1..][i] == slots[i + 1];
        }
      }
    }
  }

  /** The scan of mboxRecv finds a full slot, the first, whenever the counter says there is one. */
  lemma {:induction false} FirstFullFinds(slots: seq<Slot>)
    requires Count(slots, HardwareFull) > 0
    ensures FirstFull(slots) < |slots| && slots[FirstFull(slots)].status == HardwareFull
    ensures forall i | 0 <= i < FirstFull(slots) :: slots[i].status != HardwareFull
  {
    if slots[0].status != HardwareFull {
      FirstFullFinds(slots[1..]);
      forall i | 0 <= i < FirstFull(slots) ensures slots[i].status != HardwareFull {
        if i > 0 { assert slots[i] == slots[1..][i - 1]; }
      }
    }
  }

  lemma WrapAround(k: nat, n: nat)
    requires 0 < n && k < 2 * n
    ensures k % n == if k < n then k else k - n
  {
    if k < n { ModUnique(k, n, 0, k); } else { ModUnique(k, n, 1, k - n); }
  }

  /** The slot d places on from the start, going round. */
  function Around(n: nat, start: nat, d: nat): nat
    requires n > 0
    ensures Around(n, start, d) < n
  {
    (start + d) % n
  }

  /** A probe passes over slots that are not empty, and stops at an empty one or when it has looked at all it may. */
  lemma {:induction false} ProbeLooks(slots: seq<Slot>, start: nat, left: nat) returns (d: nat)
    requires slots != [] && left > 0
    ensures d < left && Probe(slots, start, left) == Around(|slots|, start, d)
    ensures forall e: nat | e < d :: slots[Around(|slots|, start, e)].status != HardwareEmpty
    ensures d == left - 1 || slots[Around(|slots|, start, d)].status == HardwareEmpty
    decreases left
  {
    var n := |slots|;
    if left == 1 || slots[Around(n, start, 0)].status == HardwareEmpty {
      d := 0;
    } else {
      var d1 := ProbeLooks(slots, start + 1, left - 1);
      d := d1 + 1;
      forall e: nat | e < d ensures slots[Around(n, start, e)].status != HardwareEmpty {
        if e > 0 { assert Around(n, start, e) == Around(n, start + 1, e - 1); }
      }
      assert Around(n, start, d) == Around(n, start + 1, d1);
    }
  }

  /** Slot i is the first empty one, going round from the start. */
  ghost predicate FirstEmptyFrom(slots: seq<Slot>, start: nat, i: nat)
    requires slots != []
  {
    && i < |slots| && slots[i].status == HardwareEmpty
    && exists d: nat :: i == Around(|slots|, start, d)
         && forall e: nat | e < d :: slots[Around(|slots|, start, e)].status != HardwareEmpty
  }

  /** The probe of netPushMessage goes round from the start to the first empty slot, and finds one whenever the counter
      says there is one. */
  lemma ProbeFinds(slots: seq<Slot>, start: nat)
    requires Count(slots, HardwareEmpty) > 0 && start < |slots|
    ensures FirstEmptyFrom(slots, start, Probe(slots, start, |slots|))
  {
    var n := |slots|;
    CountBounds(slots, HardwareEmpty);
    var at :| 0 <= at < n && slots[at].status == HardwareEmpty;
    var d := ProbeLooks(slots, start, n);
    var e := if at >= start then at - start else at + n - start;
    WrapAround(start + e, n);
    assert Around(n, start, e) == at;
  }

  // ----- every critical section keeps the invariant -----

  lemma InitialInv(m: Mbox)
    requires Initial(m)
    ensures Inv(m)
  {
    CountBounds(m.slots, HardwareEmpty);
    CountBounds(m.slots, HardwareFull);
  }

  lemma StatusCounts(m: Mbox, i: nat, slot: Slot)
    requires Inv(m) && i < |m.slots|
    ensures var s := m.slots[i := slot];
            && Count(s, HardwareEmpty) == m.numSlotsEmpty
                 - (if m.slots[i].status == HardwareEmpty then 1 else 0)
                 + (if slot.status == HardwareEmpty then 1 else 0)
            && Count(s, HardwareFull) == m.numSlotsFull
                 - (if m.slots[i].status == HardwareFull then 1 else 0) + (if slot.status == HardwareFull then 1 else 0)
            && Count(s, HardwareEmpty) <= |m.slots| && Count(s, HardwareFull) <= |m.slots|
  {
    CountUpdate(m.slots, i, slot, HardwareEmpty);
    CountUpdate(m.slots, i, slot, HardwareFull);
    CountBounds(m.slots[i := slot], HardwareEmpty);
    CountBounds(m.slots[i := slot], HardwareFull);
  }

  /** A slot changes hands, and everything else about the registers stays right. */
  lemma OthersRight(m: Mbox, m': Mbox, i: nat)
    requires Inv(m) && i < |m.slots| == |m'.slots| && m'.slots == m.slots[i := m'.slots[i]]
    requires SendSlotRight(m', i) && m'.bytesPerMsg == m.bytesPerMsg && |m'.slots[i].buffer| == m.bytesPerMsg
    requires m'.sendActive ==> m'.sendSlot < |m.slots|
    requires (m'.sendActive == m.sendActive && m'.sendSlot == m.sendSlot)
          || (m'.sendActive != m.sendActive && (if m.sendActive then m.sendSlot else m'.sendSlot) == i)
    requires CheckSlots(m')
    ensures Inv(m')
  {
    forall j: nat | j < |m'.slots| ensures SendSlotRight(m', j) {
      if j != i { assert SendSlotRight(m, j); }
    }
  }

  /** mboxRecv fails exactly when nothing has been received; otherwise it gives the first full slot to software. */
  lemma RecvKeepsInv(m: Mbox)
    requires Inv(m)
    ensures Recv(m).Ok? <==> CanRecv(m)
    ensures Recv(m).Ok? ==> var (m', i) := Recv(m).value;
      && Inv(m') && i < |m.slots| && m.slots[i].status == HardwareFull
      && m'.slots == m.slots[i := Slot(SoftwareOwned, m.slots[i].buffer)]
      && m' == m.(slots := m'.slots, numSlotsFull := m.numSlotsFull - 1)
  {
    if CanRecv(m) {
      FirstFullFinds(m.slots);
      var i := FirstFull(m.slots);
      assert SendSlotRight(m, i);
      StatusCounts(m, i, Slot(SoftwareOwned, m.slots[i].buffer));
      OthersRight(m, SetStatus(m, i, SoftwareOwned).(numSlotsFull := m.numSlotsFull - 1), i);
    }
  }

  /** mboxAlloc fails exactly when software does not own the slot. */
  lemma AllocKeepsInv(m: Mbox, i: nat)
    requires Inv(m)
    ensures Alloc(m, i).Ok? <==> i < |m.slots| && m.slots[i].status == SoftwareOwned
    ensures Alloc(m, i).Ok? ==> var (m', notify) := Alloc(m, i).value;
      && Inv(m') && (notify <==> m.numSlotsEmpty == 0)
      && m'.slots == m.slots[i := Slot(HardwareEmpty, m.slots[i].buffer)]
      && m' == m.(slots := m'.slots, numSlotsEmpty := m'.numSlotsEmpty) && m'.numSlotsEmpty == m.numSlotsEmpty + 1
  {
    if i < |m.slots| && m.slots[i].status == SoftwareOwned {
      assert SendSlotRight(m, i);
      StatusCounts(m, i, Slot(HardwareEmpty, m.slots[i].buffer));
      ModUnique(m.numSlotsEmpty + 1, WORD_LIMIT, 0, m.numSlotsEmpty + 1);
      OthersRight(m, SetStatus(m, i, HardwareEmpty).(numSlotsEmpty := Add(m.numSlotsEmpty, 1)), i);
    }
  }

  /** mboxSend fails exactly when a send is active or software does not own the slot. */
  lemma SendKeepsInv(m: Mbox, address: Word, i: nat)
    requires Inv(m)
    ensures Send(m, address, i).Ok? <==> !m.sendActive && i < |m.slots| && m.slots[i].status == SoftwareOwned
    ensures Send(m, address, i).Ok? ==> var m' := Send(m, address, i).value;
      && Inv(m') && m'.slots == m.slots[i := Slot(HardwareSend, m.slots[i].buffer)]
      && m' == m.(slots := m'.slots, sendActive := true, sendAddress := address, sendSlot := i)
  {
    if !m.sendActive && i < |m.slots| && m.slots[i].status == SoftwareOwned {
      StatusCounts(m, i, Slot(HardwareSend, m.slots[i].buffer));
      OthersRight(m, SetStatus(m, i, HardwareSend).(sendActive := true, sendAddress := address, sendSlot := i), i);
    }
  }

  /** mboxSetLen fails exactly while a send is active; otherwise the register holds the length, and nothing else has
      changed. */
  lemma SetLenSets(m: Mbox, length: Word)
    ensures SetLen(m, length).Ok? <==> !m.sendActive
    ensures SetLen(m, length).Ok? ==> var m' := SetLen(m, length).value;
      && m'.sendLength == length && m' == m.(sendLength := length)
      && (Inv(m) ==> Inv(m'))
  {
    if !m.sendActive && Inv(m) {
      var m' := SetLen(m, length).value;
      forall i: nat | i < |m'.slots| ensures SendSlotRight(m', i) {
        assert SendSlotRight(m, i);
      }
    }
  }

  /** Writing changes the bytes of the one buffer, and nothing else. */
  lemma WriteKeepsInv(m: Mbox, i: nat, buffer: Blob)
    requires Inv(m) && i < |m.slots| && |buffer| == m.bytesPerMsg
    ensures Inv(Write(m, i, buffer))
    ensures Write(m, i, buffer) == m.(slots := m.slots[i := Slot(m.slots[i].status, buffer)])
  {
    assert SendSlotRight(m, i);
    StatusCounts(m, i, m.slots[i].(buffer := buffer));
    OthersRight(m, Write(m, i, buffer), i);
  }

  /** netPullMessage fails exactly when the program set too long a length; otherwise it takes the message, whole,
      and gives the slot back to software. */
  lemma PullKeepsInv(m: Mbox)
    requires Inv(m) && m.sendActive
    ensures Pull(m).Ok? <==> m.sendLength <= m.bytesPerMsg
    ensures m.slots[m.sendSlot].status == HardwareSend
    ensures Pull(m).Ok? ==> var (m', message) := Pull(m).value;
      && Inv(m') && m'.slots == m.slots[m.sendSlot := Slot(SoftwareOwned, m.slots[m.sendSlot].buffer)]
      && m' == m.(slots := m'.slots, sendActive := false)
      && message == Outgoing(m.sendAddress, m.slots[m.sendSlot].buffer[..m.sendLength])
  {
    var i := m.sendSlot;
    assert SendSlotRight(m, i);
    StatusCounts(m, i, Slot(SoftwareOwned, m.slots[i].buffer));
    OthersRight(m, SetStatus(m, i, SoftwareOwned).(sendActive := false), i);
  }

  /** netPushMessage, with a slot empty, fails exactly when the message is for another thread or too long; otherwise
      it fills the first empty slot going round from wherever it starts. */
  lemma PushKeepsInv(m: Mbox, thread: Word, data: Blob, start: nat)
    requires Inv(m) && m.numSlotsEmpty > 0
    ensures Push(m, thread, data, start).Ok? <==> thread == m.threadId && |data| <= m.bytesPerMsg
    ensures Push(m, thread, data, start).Ok? ==> var (m', i) := Push(m, thread, data, start).value;
      && Inv(m') && i < |m.slots| && m.slots[i].status == HardwareEmpty
      && FirstEmptyFrom(m.slots, start % |m.slots|, i)
      && m'.slots == m.slots[i := Slot(HardwareFull, data + m.slots[i].buffer[|data|..])]
      && m' == m.(slots := m'.slots, numSlotsEmpty := m.numSlotsEmpty - 1, numSlotsFull := m'.numSlotsFull)
      && m'.numSlotsFull == m.numSlotsFull + 1
  {
    if thread == m.threadId && |data| <= m.bytesPerMsg {
      ProbeFinds(m.slots, start % |m.slots|);
      var i := Probe(m.slots, start % |m.slots|, |m.slots|);
      assert SendSlotRight(m, i);
      var slot := Slot(HardwareFull, CopyIn(m.slots[i].buffer, data));
      StatusCounts(m, i, slot);
      ModUnique(m.numSlotsFull + 1, WORD_LIMIT, 0, m.numSlotsFull + 1);
      OthersRight(m, m.(slots := m.slots[i := slot], numSlotsEmpty := m.numSlotsEmpty - 1,
                        numSlotsFull := Add(m.numSlotsFull, 1)), i);
    }
  }
}

/** The mailbox as an object: each method is one critical section, with the scans and probes of the code, and each
    is proved to compute what Mailbox says. A method returns false where an assertion of the code fails. */
module TinselMbox {
  import opened Words
  import opened Outcomes
  import opened Devices
  import opened Mailbox

  class TinselMbox {
    const bytesPerMsg: nat
    const slots: array<Slot>
    var myThreadId: Word
    var numSlotsEmpty: Word
    var numSlotsFull: Word
    var sendActive: bool
    var sendAddress: Word
    var sendSlot: nat
    var sendLength: Word

    constructor (msgsPerThread: nat, bytesPerMsg: nat, threadId: Word)
      requires 0 < msgsPerThread < WORD_LIMIT
      ensures fresh(slots) && slots.Length == msgsPerThread && this.bytesPerMsg == bytesPerMsg
      ensures myThreadId == threadId && Mailbox.Initial(View())
    {
      this.bytesPerMsg, myThreadId := bytesPerMsg, threadId;
      slots := new Slot[msgsPerThread](_ => Slot(HardwareFull, seq(bytesPerMsg, _ => 0)));
      sendAddress, sendSlot, sendLength := 0, 0, 0;
      new;
      var ok := Init(threadId);
    }

    ghost function View(): Mbox
      reads this, slots
    {
      Mbox(myThreadId, bytesPerMsg, slots[..], numSlotsEmpty, numSlotsFull,
           sendActive, sendAddress, sendSlot, sendLength)
    }

    /** check_slots: count the slots in each state. */
    method Check() returns (ok: bool)
      ensures ok <==> CheckSlots(View())
    {
      var numEmpty, numFull := 0, 0;
      for i := 0 to slots.Length
        invariant numEmpty + Count(slots[i..], HardwareEmpty) == Count(slots[..], HardwareEmpty)
        invariant numFull + Count(slots[i..], HardwareFull) == Count(slots[..], HardwareFull)
      {
        assert slots[i..][1..] == slots[i + 1..];
        if slots[i].status == HardwareEmpty {
          numEmpty := numEmpty + 1;
        }
        if slots[i].status == HardwareFull {
          numFull := numFull + 1;
        }
      }
      ok := numEmpty == numSlotsEmpty && numFull == numSlotsFull;
    }

    /** init: whatever the slots held, software owns them all. */
    method Init(threadId: Word) returns (ok: bool)
      requires 0 < slots.Length < WORD_LIMIT
      requires forall k | 0 <= k < slots.Length :: |slots[k].buffer| == bytesPerMsg
      modifies this, slots
      ensures ok && Mailbox.Initial(View()) && myThreadId == threadId
    {
      myThreadId, numSlotsEmpty, numSlotsFull, sendActive := threadId, 0, 0, false;
      for i := 0 to slots.Length
        invariant numSlotsEmpty == numSlotsFull == 0 && !sendActive && myThreadId == threadId
        invariant forall k | 0 <= k < slots.Length :: |slots[k].buffer| == bytesPerMsg
        invariant forall k | 0 <= k < i :: slots[k].status == SoftwareOwned
      {
        slots[i] := slots[i].(status := SoftwareOwned);
      }
      InitialInv(View());
      ok := Check();
    }

    method SetSlot(i: nat, slot: Slot)
      requires i < slots.Length
      modifies slots
      ensures View() == old(View()).(slots := old(slots[..])[i := slot])
    {
      slots[i] := slot;
    }

    method FindFull() returns (i: nat)
      ensures i == FirstFull(slots[..])
    {
      i := 0;
      while i < slots.Length
        invariant i <= slots.Length && FirstFull(slots[..]) == i + FirstFull(slots[i..])
      {
        assert slots[i..][1..] == slots[i + 1..];
        if slots[i].status == HardwareFull {
          break;
        }
        i := i + 1;
      }
    }

    /** The modular probe from a random start. */
    method FindEmpty(start: nat) returns (sel: nat)
      requires slots.Length > 0
      ensures sel == Probe(slots[..], start, slots.Length)
    {
      var i := 0;
      sel := 0;
      while i < slots.Length
        invariant 0 <= i <= slots.Length
        invariant i < slots.Length ==>
          Probe(slots[..], start, slots.Length) == Probe(slots[..], start + i, slots.Length - i)
        invariant i == slots.Length ==> sel == Probe(slots[..], start, slots.Length)
      {
        sel := (i + start) % slots.Length;
        if slots[sel].status == HardwareEmpty {
          break;
        }
        i := i + 1;
      }
    }

    method MboxCanRecv() returns (can: bool)
      ensures can == CanRecv(View())
    {
      can := numSlotsFull > 0;
    }

    /** Fails if the slots and the registers disagree, which the invariant rules out. */
    method MboxCanSend() returns (ok: bool, can: bool)
      requires Mailbox.Inv(View())
      ensures ok && can == CanSend(View())
    {
      assert sendActive ==> SendSlotRight(View(), sendSlot);
      ok := Check();
      ok := ok && (!sendActive || slots[sendSlot].status == HardwareSend);
      can := !sendActive;
    }

    method MboxRecv() returns (ok: bool, i: nat)
      modifies this`numSlotsFull, slots
      ensures ok <==> Recv(old(View())).Ok?
      ensures ok ==> Recv(old(View())).value == (View(), i)
    {
      i := 0;
      ok := Check();
      if !ok || numSlotsFull == 0 {
        return false, 0;
      }
      i := FindFull();
      FirstFullFinds(slots[..]);
      var found := slots[i].status == HardwareFull;
      SetSlot(i, slots[i].(status := SoftwareOwned));
      numSlotsFull := numSlotsFull - 1;
      ok := Check();
      ok := ok && found;
    }

    method MboxAlloc(i: nat) returns (ok: bool, notify: bool)
      modifies this`numSlotsEmpty, slots
      ensures ok <==> Alloc(old(View()), i).Ok?
      ensures ok ==> Alloc(old(View()), i).value == (View(), notify)
    {
      notify := false;
      ok := Check();
      if !ok || i >= slots.Length || slots[i].status != SoftwareOwned {
        return false, false;
      }
      SetSlot(i, slots[i].(status := HardwareEmpty));
      numSlotsEmpty := Add(numSlotsEmpty, 1);
      ok := Check();
      notify := numSlotsEmpty == 1;
    }

    method MboxSetLen(byteLength: Word) returns (ok: bool)
      modifies this`sendLength
      ensures ok <==> SetLen(old(View()), byteLength).Ok?
      ensures View() == if ok then SetLen(old(View()), byteLength).value else old(View())
    {
      ok := !sendActive;
      if ok {
        sendLength := byteLength;
      }
    }

    method MboxSend(address: Word, i: nat) returns (ok: bool)
      modifies this`sendActive, this`sendAddress, this`sendSlot, slots
      ensures ok <==> Send(old(View()), address, i).Ok?
      ensures ok ==> View() == Send(old(View()), address, i).value
    {
      ok := Check();
      if sendActive || !ok || i >= slots.Length || slots[i].status != SoftwareOwned {
        return false;
      }
      sendActive, sendAddress, sendSlot := true, address, i;
      SetSlot(i, slots[i].(status := HardwareSend));
      ok := Check();
    }

    /** netPullMessage once a send is active. */
    method NetPull() returns (ok: bool, message: Outgoing)
      requires Mailbox.Inv(View()) && sendActive
      modifies this`sendActive, slots
      ensures ok <==> Pull(old(View())).Ok?
      ensures ok ==> Pull(old(View())).value == (View(), message)
    {
      PullKeepsInv(View());
      message := Outgoing(0, []);
      ok := Check();
      if !ok || sendLength > bytesPerMsg || slots[sendSlot].status != HardwareSend {
        return false, message;
      }
      message := Outgoing(sendAddress, slots[sendSlot].buffer[..sendLength]);
      SetSlot(sendSlot, slots[sendSlot].(status := SoftwareOwned));
      sendActive := false;
      ok := Check();
    }

    /** netPushMessage once a slot is empty, with any random number. */
    method NetPush(thread: Word, data: Blob, random: nat) returns (ok: bool, sel: nat)
      requires Mailbox.Inv(View()) && numSlotsEmpty > 0
      modifies this`numSlotsEmpty, this`numSlotsFull, slots
      ensures ok <==> Push(old(View()), thread, data, random).Ok?
      ensures ok ==> Push(old(View()), thread, data, random).value == (View(), sel)
    {
      PushKeepsInv(View(), thread, data, random);
      sel := 0;
      ok := Check();
      if !ok || thread != myThreadId || |data| > bytesPerMsg {
        return false, 0;
      }
      sel := FindEmpty(random % slots.Length);
      var found := slots[sel].status == HardwareEmpty;
      numSlotsEmpty := numSlotsEmpty - 1;
      SetSlot(sel, Slot(HardwareFull, CopyIn(slots[sel].buffer, data)));
      numSlotsFull := Add(numSlotsFull, 1);
      ok := Check();
      ok := ok && found;
    }
  }
}

/** What the mailbox promises from one turn of the main loop to the next: only this thread fills its send slot and
    takes its messages, so it can send until it has sent, and receive until it has received. */
module Persistence {
  import opened Outcomes
  import opened Devices
  import opened HostRing
  import opened Scheduler
  import opened SchedulerProofs
  import opened MainLoop
  import opened MainProofs
  import opened Multicast

  /** How often the send slot has been used: everything but what went over the UART. */
  function SlotUses(out: seq<Output>): nat {
    if out == [] then 0 else (if out[0].HostUart? then 0 else 1) + SlotUses(out[1..])
  }

  lemma {:induction false} SlotUsesAppend(a: seq<Output>, b: Output)
    ensures SlotUses(a + [b]) == SlotUses(a) + if b.HostUart? then 0 else 1
  {
    if a == [] {
      assert (a + [b])[1..] == [];
    } else {
      assert (a + [b])[1..] == a[1..] + [b];
      SlotUsesAppend(a[1..], b);
    }
  }

  /** After a turn the mailbox is known to be able to send: it was when last looked at, and nothing was sent. */
  predicate SendLeft(app: App, m: Main, e: Inputs, m': Main)
    requires Shaped(app, m)
  {
    (if RunsIdle(app, m, e) then e.canSendBefore else e.canSendAfter) && SlotUses(m'.out) == SlotUses(m.out)
  }

  /** After a turn a message is known to be waiting: there was one when last looked for, and it was not received. */
  predicate RecvLeft(c: Config, app: App, m: Main, e: Inputs)
    requires Shaped(app, m)
  {
    !RunsIdle(app, m, e) && e.canRecvAfter && !Receives(c, app, m, e)
  }

  /** Each turn sees what is known to be left by the one before. */
  ghost predicate Persistent(c: Config, app: App, m: Main, canSend: bool, canRecv: bool, turns: seq<Inputs>)
    requires WellFormed(app) && MainInv(app, m) && GoodRun(c, app, m, turns)
    decreases |turns|
  {
    turns == [] ||
    (var e, m' := turns[0], Turn(c, app, m, turns[0]);
     && (canSend ==> e.canSendBefore) && (canRecv ==> e.canRecvBefore)
     && Persistent(c, app, m', SendLeft(app, m, e, m'), RecvLeft(c, app, m, e), turns[1..]))
  }

  /** A run from power-up that the mailbox allows: it can send at the start. */
  ghost predicate RealRun(c: Config, app: App, m: Main, turns: seq<Inputs>)
    requires WellFormed(app) && MainInv(app, m)
  {
    GoodRun(c, app, m, turns) && Persistent(c, app, m, true, false, turns)
  }

  /** A turn before a run. */
  lemma {:induction false} OneTurnMore(
      c: Config, app: App, m: Main, e: Inputs, rest: seq<Inputs>, canSend: bool, canRecv: bool)
    requires WellFormed(app) && MainInv(app, m) && InputsOk(app, m, e) && Iterate(c, app, m, e).Ok?
    requires (canSend ==> e.canSendBefore) && (canRecv ==> e.canRecvBefore)
    requires var m' := Turn(c, app, m, e);
             GoodRun(c, app, m', rest) && Persistent(c, app, m', SendLeft(app, m, e, m'), RecvLeft(c, app, m, e), rest)
    ensures GoodRun(c, app, m, [e] + rest) && Persistent(c, app, m, canSend, canRecv, [e] + rest)
    ensures Run(c, app, m, [e] + rest) == Run(c, app, Turn(c, app, m, e), rest)
    ensures Pushed(c, app, m, [e] + rest) == PushedIn(c, app, m, e) + Pushed(c, app, Turn(c, app, m, e), rest)
  {
    assert ([e] + rest)[0] == e && ([e] + rest)[1..] == rest;
  }
}

/** The barrier application: its handlers, and the network of all devices exchanging ticks. */
module Barrier {
  import opened Words
  import opened Outcomes

  datatype Config = Config(devCount: Word, maxTime: Word)

  datatype Dev = Dev(t: Word, seenNow: Word, seenNext: Word, halted: bool)

  const OUT_FLAG: Word := 1
  const HALT_FLAG: Word := 2

  // ----- what the handlers compute -----

  function ReadyToSend(c: Config, d: Dev): Word {
    Or(if d.t < c.maxTime && d.seenNow == c.devCount then OUT_FLAG else 0,
       if !(d.t < c.maxTime) && !d.halted then HALT_FLAG else 0)
  }

  function ReceiveTick(d: Dev, t: Word): Outcome<Dev> {
    if t == d.t then Ok(d.(seenNow := Add(d.seenNow, 1)))
    else if t == Add(d.t, 1) then Ok(d.(seenNext := Add(d.seenNext, 1)))
    else AssertFailed
  }

  /** The new state and the time carried by the tick. */
  function SendOut(c: Config, d: Dev): Outcome<(Dev, Word)> {
    if !(d.t < c.maxTime) || d.seenNow != c.devCount then AssertFailed
    else Ok((Dev(Add(d.t, 1), d.seenNext, 0, d.halted), Add(d.t, 1)))
  }

  function SendHalt(d: Dev): Dev {
    d.(halted := true)
  }

  // ----- the handlers, updating device state in place -----

  class DevState {
    var t: Word
    var seenNow: Word
    var seenNext: Word
    var halted: bool

    constructor (devCount: Word)
      ensures View() == Dev(0, devCount, 0, false)
    {
      t, seenNow, seenNext, halted := 0, devCount, 0, false;
    }

    ghost function View(): Dev
      reads this
    {
      Dev(t, seenNow, seenNext, halted)
    }

    method DevReadyToSendHandler(c: Config) returns (flags: Word)
      ensures flags == ReadyToSend(c, View())
      ensures flags != 0 ==> LowestOne(flags) == (if t < c.maxTime then 0 else 1)
    {
      var stillGoing := t < c.maxTime;
      var currentFull := seenNow == c.devCount;
      flags := Or(if stillGoing && currentFull then OUT_FLAG else 0, if !stillGoing && !halted then HALT_FLAG else 0);
    }

    method DevInReceiveHandler(msgT: Word) returns (ok: bool)
      modifies this
      ensures ok <==> ReceiveTick(old(View()), msgT).Ok?
      ensures View() == if ok then ReceiveTick(old(View()), msgT).value else old(View())
    {
      ok := true;
      if msgT == t {
        seenNow := Add(seenNow, 1);
      } else if msgT == Add(t, 1) {
        seenNext := Add(seenNext, 1);
      } else {
        ok := false;
      }
    }

    method DevOutSendHandler(c: Config) returns (ok: bool, msgT: Word)
      modifies this
      ensures ok <==> SendOut(c, old(View())).Ok?
      ensures ok ==> SendOut(c, old(View())).value == (View(), msgT)
      ensures !ok ==> View() == old(View())
    {
      msgT := 0;
      ok := t < c.maxTime && seenNow == c.devCount;
      if ok {
        t := Add(t, 1);
        msgT := t;
        seenNow := seenNext;
        seenNext := 0;
      }
    }

    method DevHaltSendHandler()
      modifies this
      ensures View() == SendHalt(old(View()))
    {
      halted := true;
    }
  }

  /** The halt device's new count, and whether every device has now halted. */
  function ReceiveDone(c: Config, seen: Word): (Word, bool) {
    (Add(seen, 1), Add(seen, 1) == c.devCount)
  }

  class HaltState {
    var seen: Word

    constructor ()
      ensures seen == 0
    {
      seen := 0;
    }

    method HaltInReceiveHandler(c: Config) returns (allHalted: bool)
      modifies this
      ensures (seen, allHalted) == ReceiveDone(c, old(seen))
    {
      seen := Add(seen, 1);
      allHalted := seen == c.devCount;
    }
  }

  // ----- the network -----

  /** A tick in flight: the packet's source and destination devices and the time it carries. */
  datatype Tick = Tick(src: nat, dst: nat, t: Word)

  /** All devices, the ticks and done messages in flight, and the halt device's count. */
  datatype Net = Net(devs: seq<Dev>, ticks: multiset<Tick>, dones: multiset<nat>, seen: Word)

  datatype Step = Out(dev: nat) | Halt(dev: nat) | Arrive(tick: Tick) | ArriveDone(src: nat)

  /** Every device starts with its count full, so that the first tick can be sent. */
  function Initial(c: Config): Net {
    Net(seq(c.devCount, _ => Dev(0, c.devCount, 0, false)), multiset{}, multiset{}, 0)
  }

  predicate SelectsPin(flags: Word, pin: nat) {
    flags != 0 && LowestOne(flags) == pin
  }

  predicate Enabled(c: Config, s: Net, step: Step) {
    match step
    case Out(i) => i < |s.devs| && SelectsPin(ReadyToSend(c, s.devs[i]), 0)
    case Halt(i) => i < |s.devs| && SelectsPin(ReadyToSend(c, s.devs[i]), 1)
    case Arrive(m) => m in s.ticks
    case ArriveDone(i) => i in s.dones
  }

  /** One tick to each of the n devices on the address list, the sender included. */
  function Broadcast(n: nat, src: nat, t: Word): multiset<Tick> {
    if n == 0 then multiset{} else Broadcast(n - 1, src, t) + multiset{Tick(src, n - 1, t)}
  }

  function Apply(c: Config, s: Net, step: Step): Outcome<Net>
    requires Enabled(c, s, step)
  {
    match step
    case Out(i) =>
      var (d, t) :- SendOut(c, s.devs[i]);
      Ok(s.(devs := s.devs[i := d], ticks := s.ticks + Broadcast(c.devCount, i, t)))
    case Halt(i) =>
      Ok(s.(devs := s.devs[i := SendHalt(s.devs[i])], dones := s.dones + multiset{i}))
    case Arrive(m) =>
      if m.dst >= |s.devs| then AssertFailed else
        var d :- ReceiveTick(s.devs[m.dst], m.t);
        Ok(s.(devs := s.devs[m.dst := d], ticks := s.ticks - multiset{m}))
    case ArriveDone(i) =>
      Ok(s.(dones := s.dones - multiset{i}, seen := ReceiveDone(c, s.seen).0))
  }

  /** Every step is enabled in the state in which it is taken, up to the first failed assertion. */
  predicate IsSchedule(c: Config, s: Net, steps: seq<Step>)
    decreases |steps|
  {
    steps == [] ||
    (Enabled(c, s, steps[0]) &&
     var next := Apply(c, s, steps[0]);
     next.Ok? ==> IsSchedule(c, next.value, steps[1..]))
  }

  function Execute(c: Config, s: Net, steps: seq<Step>): Outcome<Net>
    requires IsSchedule(c, s, steps)
    decreases |steps|
  {
    if steps == [] then Ok(s) else
      var next :- Apply(c, s, steps[0]);
      Execute(c, next, steps[1..])
  }

  predicate Quiescent(c: Config, s: Net) {
    && (forall i | 0 <= i < |s.devs| :: !Enabled(c, s, Out(i)) && !Enabled(c, s, Halt(i)))
    && s.ticks == multiset{} && s.dones == multiset{}
  }

  // ----- the invariant -----

  /** The devices whose tick for time k has reached device j. */
  ghost function Reached(s: Net, j: nat, k: nat): set<nat> {
    set i | 0 <= i < |s.devs| && s.devs[i].t >= k && !Flying(s, i, j, k)
  }

  ghost function Heard(s: Net, j: nat, k: nat): nat {
    |Reached(s, j, k)|
  }

  ghost predicate Flying(s: Net, i: nat, j: nat, k: nat) {
    k < WORD_LIMIT && Tick(i, j, k) in s.ticks
  }

  ghost function HaltedSet(s: Net): set<nat> {
    set i | 0 <= i < |s.devs| && s.devs[i].halted
  }

  ghost predicate TicksInv(s: Net) {
    forall m | m in s.ticks ::
      && s.ticks[m] == 1
      && m.src < |s.devs| && m.dst < |s.devs|
      && s.devs[m.dst].t <= m.t <= s.devs[m.src].t
      && m.t >= 1
  }

  ghost predicate DevsInv(c: Config, s: Net) {
    forall i | 0 <= i < |s.devs| ::
      && s.devs[i].t <= c.maxTime
      && (s.devs[i].halted ==> s.devs[i].t == c.maxTime)
  }

  /** Device j has counted exactly the ticks that reached it for its own time and for the next. */
  ghost predicate CountsRight(s: Net, j: nat)
    requires j < |s.devs|
  {
    && s.devs[j].seenNow == Heard(s, j, s.devs[j].t)
    && s.devs[j].seenNext == Heard(s, j, s.devs[j].t + 1)
  }

  ghost predicate CountsInv(s: Net) {
    forall j: nat | j < |s.devs| :: CountsRight(s, j)
  }

  ghost predicate LockStep(s: Net) {
    forall i, j | 0 <= i < |s.devs| && 0 <= j < |s.devs| :: s.devs[i].t <= s.devs[j].t + 1
  }

  ghost predicate DonesInv(s: Net) {
    && (forall i | i in s.dones :: s.dones[i] == 1 && i in HaltedSet(s))
    && s.seen + |s.dones| == |HaltedSet(s)|
  }

  ghost predicate Inv(c: Config, s: Net) {
    && |s.devs| == c.devCount
    && TicksInv(s) && DevsInv(c, s) && CountsInv(s) && LockStep(s) && DonesInv(s)
  }

  // ----- counting -----

  lemma {:induction false} BroadcastCopies(n: nat, src: nat, t: Word, m: Tick)
    ensures |Broadcast(n, src, t)| == n
    ensures Broadcast(n, src, t)[m] == if m.src == src && m.t == t && m.dst < n then 1 else 0
  {
    if n > 0 { BroadcastCopies(n - 1, src, t, m); }
  }

  lemma FlagCases(c: Config, d: Dev)
    ensures SelectsPin(ReadyToSend(c, d), 0) <==> d.t < c.maxTime && d.seenNow == c.devCount
    ensures SelectsPin(ReadyToSend(c, d), 1) <==> d.t >= c.maxTime && !d.halted
  {
  }
}

/** The ring application: a token that goes round for ever, growing by the increment, in 32-bit arithmetic. */
module RingToken {
  import opened Words

  // ----- the handlers -----

  const OUT_FLAG: Word := 1

  class DevState {
    var count: Word

    constructor (count: Word)
      ensures this.count == count
    {
      this.count := count;
    }

    method ReadyToSendHandler() returns (flags: Word)
      ensures flags == if Holds(count) then OUT_FLAG else 0
    {
      flags := if count != 0 then OUT_FLAG else 0;
    }

    method InReceiveHandler(msgCount: Word)
      modifies this
      ensures count == msgCount
    {
      count := msgCount;
    }

    method OutSendHandler(increment: Word) returns (msgCount: Word)
      modifies this
      ensures (count, msgCount) == SendOut(old(count), increment)
    {
      msgCount := Add(count, increment);
      count := 0;
    }
  }

  predicate Holds(count: Word) {
    count != 0
  }

  /** The count left behind and the count sent on. */
  function SendOut(count: Word, increment: Word): (Word, Word) {
    (0, Add(count, increment))
  }

  // ----- the network -----

  datatype Config = Config(devices: nat, increment: Word)

  datatype Token = Token(dst: nat, count: Word)

  datatype Ring = Ring(counts: seq<Word>, msgs: multiset<Token>)

  datatype Step = Send(dev: nat) | Deliver(token: Token)

  /** Device 0 starts with the token. */
  function Initial(c: Config): Ring
    requires c.devices > 0
  {
    Ring(seq<Word>(c.devices, i => if i == 0 then 1 else 0), multiset{})
  }

  predicate Enabled(c: Config, s: Ring, step: Step) {
    match step
    case Send(i) => i < |s.counts| && Holds(s.counts[i])
    case Deliver(token) => token in s.msgs && token.dst < |s.counts|
  }

  function NextDev(c: Config, i: nat): nat {
    if i + 1 >= c.devices then 0 else i + 1
  }

  function Apply(c: Config, s: Ring, step: Step): Ring
    requires Enabled(c, s, step)
  {
    match step
    case Send(i) =>
      var (left, count) := SendOut(s.counts[i], c.increment);
      Ring(s.counts[i := left], s.msgs + multiset{Token(NextDev(c, i), count)})
    case Deliver(token) => Ring(s.counts[token.dst := token.count], s.msgs - multiset{token})
  }

  predicate IsSchedule(c: Config, s: Ring, steps: seq<Step>)
    decreases |steps|
  {
    steps == [] || (Enabled(c, s, steps[0]) && IsSchedule(c, Apply(c, s, steps[0]), steps[1..]))
  }

  function Execute(c: Config, s: Ring, steps: seq<Step>): Ring
    requires IsSchedule(c, s, steps)
    decreases |steps|
  {
    if steps == [] then s else Execute(c, Apply(c, s, steps[0]), steps[1..])
  }

  ghost predicate Stalled(c: Config, s: Ring) {
    forall step: Step :: !Enabled(c, s, step)
  }

  // ----- where the token is -----

  /** The token's value after k hops. */
  function Value(c: Config, k: nat): Word {
    if k == 0 then 1 else Add(Value(c, k - 1), c.increment)
  }

  /** The device the token reaches after k hops. */
  function Holder(c: Config, k: nat): nat
    requires c.devices > 0
    ensures Holder(c, k) < c.devices
  {
    if k == 0 then 0 else NextDev(c, Holder(c, k - 1))
  }

  function CountAt(c: Config, k: nat, i: nat): Word
    requires c.devices > 0
  {
    if i == Holder(c, k) then Value(c, k) else 0
  }

  /** After k hops: with one device and nowhere else; or in flight to it and nowhere else. */
  function Held(c: Config, k: nat): Ring
    requires c.devices > 0
  {
    Ring(seq(c.devices, (i: nat) => CountAt(c, k, i)), multiset{})
  }

  function InFlight(c: Config, k: nat): Ring
    requires c.devices > 0
  {
    Ring(seq<Word>(c.devices, _ => 0), multiset{Token(Holder(c, k), Value(c, k))})
  }

  /** Where the token is, and after how many hops. */
  datatype Place = AtDevice(hops: nat) | OnTheWay(hops: nat)

  function NextPlace(p: Place): Place {
    match p
    case AtDevice(k) => OnTheWay(k + 1)
    case OnTheWay(k) => AtDevice(k)
  }

  /** Where the token is after some number of steps from a place. */
  function PlaceAfter(p: Place, steps: nat): Place
    decreases steps
  {
    if steps == 0 then p else PlaceAfter(NextPlace(p), steps - 1)
  }

  function StateAt(c: Config, p: Place): Ring
    requires c.devices > 0
  {
    match p
    case AtDevice(k) => Held(c, k)
    case OnTheWay(k) => InFlight(c, k)
  }

  lemma AddMod(a: nat, b: nat)
    ensures Add(a % WORD_LIMIT, b) == (a + b) % WORD_LIMIT
  {
    var q := a / WORD_LIMIT;
    var x := a % WORD_LIMIT + b;
    assert a + b == WORD_LIMIT * (q + x / WORD_LIMIT) + x % WORD_LIMIT;
    ModUnique(a + b, WORD_LIMIT, q + x / WORD_LIMIT, x % WORD_LIMIT);
  }

  /** The token after k hops is worth 1 + k * increment, modulo 2^32. */
  lemma {:induction false} ValueIs(c: Config, k: nat)
    ensures Value(c, k) == (1 + k * c.increment) % WORD_LIMIT
  {
    if k > 0 {
      ValueIs(c, k - 1);
      AddMod(1 + (k - 1) * c.increment, c.increment);
      assert 1 + (k - 1) * c.increment + c.increment == 1 + k * c.increment;
    } else {
      ModUnique(1, WORD_LIMIT, 0, 1);
    }
  }

  /** Hop by hop the token goes round the devices in order. */
  lemma {:induction false} HolderIs(c: Config, k: nat)
    requires c.devices > 0
    ensures Holder(c, k) == k % c.devices
  {
    var n := c.devices;
    if k == 0 {
      ModUnique(0, n, 0, 0);
    } else {
      HolderIs(c, k - 1);
      var (q, r) := ((k - 1) / n, (k - 1) % n);
      assert k - 1 == n * q + r;
      if r + 1 == n {
        assert k == n * (q + 1);
        ModUnique(k, n, q + 1, 0);
      } else {
        ModUnique(k, n, q, r + 1);
      }
    }
  }

  lemma InitialIsHeld(c: Config)
    requires c.devices > 0
    ensures Initial(c) == StateAt(c, AtDevice(0))
  {
    assert Initial(c).counts == Held(c, 0).counts;
  }

  lemma SendIsForced(c: Config, k: nat, step: Step)
    requires c.devices > 0 && Enabled(c, Held(c, k), step)
    ensures Apply(c, Held(c, k), step) == InFlight(c, k + 1)
  {
    assert step == Send(Holder(c, k));
    assert Apply(c, Held(c, k), step).counts == InFlight(c, k + 1).counts;
  }

  lemma DeliverIsForced(c: Config, k: nat, step: Step)
    requires c.devices > 0 && Enabled(c, InFlight(c, k), step)
    ensures Apply(c, InFlight(c, k), step) == Held(c, k)
  {
    assert step == Deliver(Token(Holder(c, k), Value(c, k)));
    assert Apply(c, InFlight(c, k), step).counts == Held(c, k).counts;
  }

  lemma StepIsForced(c: Config, p: Place, step: Step)
    requires c.devices > 0 && Enabled(c, StateAt(c, p), step)
    ensures Apply(c, StateAt(c, p), step) == StateAt(c, NextPlace(p))
  {
    match p
    case AtDevice(k) => SendIsForced(c, k, step);
    case OnTheWay(k) => DeliverIsForced(c, k, step);
  }

  lemma {:induction false} RunIsForced(c: Config, p: Place, s: Ring, steps: seq<Step>)
    requires c.devices > 0 && s == StateAt(c, p) && IsSchedule(c, s, steps)
    ensures Execute(c, s, steps) == StateAt(c, PlaceAfter(p, |steps|))
    decreases |steps|
  {
    if steps != [] {
      StepIsForced(c, p, steps[0]);
      RunIsForced(c, NextPlace(p), Apply(c, s, steps[0]), steps[1..]);
    }
  }

  lemma {:induction false} HopsAfter(p: Place, steps: nat)
    ensures PlaceAfter(p, steps).hops == p.hops + (if p.AtDevice? then steps + 1 else steps) / 2
    ensures PlaceAfter(p, steps).AtDevice? <==> (p.AtDevice? <==> steps % 2 == 0)
    decreases steps
  {
    if steps > 0 { HopsAfter(NextPlace(p), steps - 1); }
  }

  /** In every run there is one token: it is with one device, or in flight to it, and nowhere else; it makes a hop
      every two steps, and after k hops is worth 1 + k * increment, modulo 2^32. */
  lemma {:induction false} OneToken(c: Config, steps: seq<Step>)
    requires c.devices > 0 && IsSchedule(c, Initial(c), steps)
    ensures var hops := (|steps| + 1) / 2;
            && Execute(c, Initial(c), steps) == (if |steps| % 2 == 0 then Held(c, hops) else InFlight(c, hops))
            && Holder(c, hops) == hops % c.devices
            && Value(c, hops) == (1 + hops * c.increment) % WORD_LIMIT
  {
    HolderIs(c, (|steps| + 1) / 2);
    InitialIsHeld(c);
    RunIsForced(c, AtDevice(0), Initial(c), steps);
    HopsAfter(AtDevice(0), |steps|);
    ValueIs(c, (|steps| + 1) / 2);
  }

  // ----- when the ring stops -----

  /** The only state without a next step is that of a token worth nothing. */
  lemma StalledAt(c: Config, p: Place)
    requires c.devices > 0
    ensures Stalled(c, StateAt(c, p)) <==> p.AtDevice? && Value(c, p.hops) == 0
  {
    match p
    case AtDevice(k) =>
      if Value(c, k) != 0 { assert Enabled(c, Held(c, k), Send(Holder(c, k))); }
    case OnTheWay(k) =>
      assert Enabled(c, InFlight(c, k), Deliver(Token(Holder(c, k), Value(c, k))));
  }

  lemma AddIs(x: Word, y: Word)
    ensures Add(x, y) == if x + y < WORD_LIMIT then x + y else x + y - WORD_LIMIT
  {
    if x + y < WORD_LIMIT {
      ModUnique(x + y, WORD_LIMIT, 0, x + y);
    } else {
      ModUnique(x + y, WORD_LIMIT, 1, x + y - WORD_LIMIT);
    }
  }

  lemma {:induction false} EvenNeverZero(c: Config, k: nat)
    requires c.increment % 2 == 0
    ensures Value(c, k) % 2 == 1
  {
    if k > 0 {
      EvenNeverZero(c, k - 1);
      AddIs(Value(c, k - 1), c.increment);
    }
  }

  lemma NextPower(a: nat, p: nat, k: nat, q: nat) returns (k': nat, q': nat)
    requires a % 2 == 1 && 1 + k * a == p * q
    ensures 1 + k' * a == (2 * p) * q'
  {
    if q % 2 == 0 {
      k', q' := k, q / 2;
      Regroup(p, q');
    } else {
      k', q' := k + p, (q + a) / 2;
      Spread(k, p, a, q);
      Regroup(p, q');
    }
  }

  lemma Regroup(p: nat, h: nat)
    ensures p * (2 * h) == (2 * p) * h
  {
  }

  lemma Spread(k: nat, p: nat, a: nat, q: nat)
    requires 1 + k * a == p * q
    ensures 1 + (k + p) * a == p * (q + a)
  {
    assert (k + p) * a == k * a + p * a;
    assert p * (q + a) == p * q + p * a;
  }

  /** An odd number has a multiple one below a multiple of any power of two. */
  lemma {:induction false} OddReachesZero(a: nat, b: nat) returns (k: nat, q: nat)
    requires a % 2 == 1
    ensures 1 + k * a == Pow2(b) * q
  {
    if b == 0 {
      k, q := 0, 1;
    } else {
      k, q := OddReachesZero(a, b - 1);
      k, q := NextPower(a, Pow2(b - 1), k, q);
    }
  }

  lemma OddHasZero(c: Config) returns (k: nat)
    requires c.increment % 2 == 1
    ensures Value(c, k) == 0
  {
    var q;
    k, q := OddReachesZero(c.increment, 32);
    Pow2Values();
    ModUnique(1 + k * c.increment, WORD_LIMIT, q, 0);
    ValueIs(c, k);
  }

  /** The first hop after which the token is worth nothing. */
  lemma {:induction false} FirstZero(c: Config, k: nat) returns (first: nat)
    requires Value(c, k) == 0
    ensures Value(c, first) == 0 && forall j: nat | j < first :: Value(c, j) != 0
  {
    first := 0;
    while Value(c, first) != 0
      invariant first <= k && forall j: nat | j < first :: Value(c, j) != 0
      decreases k - first
    {
      first := first + 1;
    }
  }

  lemma OneStep(c: Config, p: Place) returns (step: Step)
    requires c.devices > 0 && !Stalled(c, StateAt(c, p))
    ensures Enabled(c, StateAt(c, p), step) && Apply(c, StateAt(c, p), step) == StateAt(c, NextPlace(p))
  {
    step :| Enabled(c, StateAt(c, p), step);
    StepIsForced(c, p, step);
  }

  lemma Prepend(c: Config, s: Ring, step: Step, rest: seq<Step>)
    requires Enabled(c, s, step) && IsSchedule(c, Apply(c, s, step), rest)
    ensures IsSchedule(c, s, [step] + rest)
    ensures Execute(c, s, [step] + rest) == Execute(c, Apply(c, s, step), rest)
  {
    assert ([step] + rest)[1..] == rest;
  }

  /** From a device on, the token goes round until it is worth nothing. */
  lemma {:induction false} RunToZero(c: Config, k: nat, first: nat) returns (steps: seq<Step>)
    requires c.devices > 0 && k <= first && Value(c, first) == 0
    requires forall j: nat | j < first :: Value(c, j) != 0
    ensures IsSchedule(c, StateAt(c, AtDevice(k)), steps)
    ensures Stalled(c, Execute(c, StateAt(c, AtDevice(k)), steps))
    decreases first - k
  {
    StalledAt(c, AtDevice(k));
    if k == first {
      steps := [];
    } else {
      StalledAt(c, OnTheWay(k + 1));
      var send := OneStep(c, AtDevice(k));
      var deliver := OneStep(c, OnTheWay(k + 1));
      var rest := RunToZero(c, k + 1, first);
      Prepend(c, StateAt(c, OnTheWay(k + 1)), deliver, rest);
      Prepend(c, StateAt(c, AtDevice(k)), send, [deliver] + rest);
      steps := [send] + ([deliver] + rest);
    }
  }

  ghost predicate StoppingRun(c: Config, steps: seq<Step>)
    requires c.devices > 0
  {
    IsSchedule(c, Initial(c), steps) && Stalled(c, Execute(c, Initial(c), steps))
  }

  lemma OddStops(c: Config) returns (steps: seq<Step>)
    requires c.devices > 0 && c.increment % 2 == 1
    ensures StoppingRun(c, steps)
  {
    var zero := OddHasZero(c);
    var first := FirstZero(c, zero);
    InitialIsHeld(c);
    steps := RunToZero(c, 0, first);
  }

  lemma {:induction false} EvenGoesOn(c: Config, steps: seq<Step>)
    requires c.devices > 0 && c.increment % 2 == 0
    ensures !StoppingRun(c, steps)
  {
    if IsSchedule(c, Initial(c), steps) {
      var p := PlaceAfter(AtDevice(0), |steps|);
      InitialIsHeld(c);
      RunIsForced(c, AtDevice(0), Initial(c), steps);
      StalledAt(c, p);
      EvenNeverZero(c, p.hops);
    }
  }

  /** Some run of the ring stops exactly when the increment is odd. With an even increment, as in the instances
      that come with the program, the compute never stops. */
  lemma StopsExactlyWhenOdd(c: Config)
    requires c.devices > 0
    ensures c.increment % 2 == 1 <==> exists steps :: StoppingRun(c, steps)
  {
    if c.increment % 2 == 1 {
      var steps := OddStops(c);
    } else {
      forall steps ensures !StoppingRun(c, steps) {
        EvenGoesOn(c, steps);
      }
    }
  }

  // ----- the ring on objects -----

  class Network {
    const c: Config
    const devs: seq<DevState>
    var msgs: multiset<Token>
    ghost var model: Ring

    ghost predicate Mirrored(i: nat)
      reads this`model, devs
    {
      i < |devs| ==> i < |model.counts| && model.counts[i] == devs[i].count
    }

    ghost predicate Apart(i: nat, j: nat) {
      i < |devs| && j < |devs| && i != j ==> devs[i] != devs[j]
    }

    ghost predicate Valid()
      reads this, devs
    {
      && (forall i: nat, j: nat :: Apart(i, j))
      && |model.counts| == |devs| && (forall i: nat :: Mirrored(i)) && model.msgs == msgs
    }

    constructor (c: Config, devs: seq<DevState>)
      requires |devs| == c.devices > 0 && forall i, j | 0 <= i < j < |devs| :: devs[i] != devs[j]
      requires forall i | 0 <= i < |devs| :: devs[i].count == if i == 0 then 1 else 0
      ensures this.c == c && this.devs == devs && Valid() && model == Initial(c)
    {
      this.c, this.devs, msgs, model := c, devs, multiset{}, Initial(c);
      new;
      forall i: nat ensures Mirrored(i) {
      }
    }

    twostate lemma OthersMirrored(i: nat)
      requires i < |devs| == |old(model.counts)| && old(forall j: nat :: Mirrored(j))
      requires forall j: nat | j < |devs| && j != i :: devs[j].count == old(devs[j].count)
      requires model.counts == old(model.counts)[i := devs[i].count]
      ensures forall j: nat :: Mirrored(j)
    {
      forall j: nat ensures Mirrored(j) {
        assert old(Mirrored(j));
      }
    }

    /** A device is asked whether it is ready, and sends if it is. */
    method Fire(i: nat) returns (ready: bool)
      requires Valid() && Enabled(c, model, Send(i))
      modifies this, devs
      ensures ready && Valid() && model == Apply(c, old(model), Send(i))
    {
      assert Mirrored(i);
      var flags := devs[i].ReadyToSendHandler();
      ready := flags != 0;
      var count := devs[i].OutSendHandler(c.increment);
      msgs := msgs + multiset{Token(NextDev(c, i), count)};
      forall j: nat | j < |devs| && j != i ensures devs[j].count == old(devs[j].count) {
        assert Apart(i, j);
      }
      model := Ring(model.counts[i := devs[i].count], msgs);
      OthersMirrored(i);
    }

    /** A token is received by the device it is for. */
    method Take(token: Token)
      requires Valid() && Enabled(c, model, Deliver(token))
      modifies this, devs
      ensures Valid() && model == Apply(c, old(model), Deliver(token))
    {
      var i := token.dst;
      devs[i].InReceiveHandler(token.count);
      msgs := msgs - multiset{token};
      forall j: nat | j < |devs| && j != i ensures devs[j].count == old(devs[j].count) {
        assert Apart(i, j);
      }
      model := Ring(model.counts[i := devs[i].count], msgs);
      OthersMirrored(i);
    }

    method Step(step: Step) returns (ready: bool)
      requires Valid() && Enabled(c, model, step)
      modifies this, devs
      ensures ready && Valid() && model == Apply(c, old(model), step)
    {
      ready := true;
      match step {
        case Send(i) => ready := Fire(i);
        case Deliver(token) => Take(token);
      }
    }

    method Run(steps: seq<Step>)
      requires Valid() && IsSchedule(c, model, steps)
      modifies this, devs
      ensures Valid() && model == Execute(c, old(model), steps)
    {
      ghost var end := Execute(c, model, steps);
      for k := 0 to |steps|
        invariant Valid() && IsSchedule(c, model, steps[k..]) && end == Execute(c, model, steps[k..])
      {
        assert steps[k..][1..] == steps[k + 1..];
        var ready := Step(steps[k]);
      }
    }
  }

  /** The ring from power-up: after any run the device objects and the messages hold one token between them, in its
      place and with its value. */
  method RunRing(c: Config, devs: seq<DevState>, steps: seq<Step>) returns (net: Network)
    requires |devs| == c.devices > 0 && forall i, j | 0 <= i < j < |devs| :: devs[i] != devs[j]
    requires forall i | 0 <= i < |devs| :: devs[i].count == if i == 0 then 1 else 0
    requires IsSchedule(c, Initial(c), steps)
    modifies devs
    ensures fresh(net) && net.devs == devs && net.Valid()
    ensures var hops := (|steps| + 1) / 2;
            var (holder, value) := (hops % c.devices, (1 + hops * c.increment) % WORD_LIMIT);
            && (forall i | 0 <= i < |devs| :: devs[i].count == if |steps| % 2 == 0 && i == holder then value else 0)
            && net.msgs == if |steps| % 2 == 0 then multiset{} else multiset{Token(holder, value)}
  {
    net := new Network(c, devs);
    net.Run(steps);
    OneToken(c, steps);
    forall i: nat | i < |devs| ensures devs[i].count == net.model.counts[i] {
      assert net.Mirrored(i);
    }
  }
}

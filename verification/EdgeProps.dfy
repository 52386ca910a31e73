/** The edge_props application: outer devices each send one pulse, and the inner device gathers the masks of the
    edges they arrive on. */
module EdgeProps {
  import opened Words
  import opened Outcomes
  import opened Counting

  // ----- the handlers -----

  const OUT_FLAG: Word := 1

  /** The new accumulator, and whether the program ends. The all-ones value is that of (1 << outerCount) - 1. */
  function Receive(outerCount: nat, acc: Word, mask: Word): Outcome<(Word, bool)> {
    OrIsWord(acc, mask);
    if And(acc, mask) != 0 then AssertFailed
    else Ok((Or(acc, mask), Or(acc, mask) == Pow2(outerCount) - 1))
  }

  class OuterState {
    var ready: bool

    constructor ()
      ensures ready
    {
      ready := true;
    }

    method ReadyToSendHandler() returns (flags: Word)
      ensures flags != 0 <==> ready
    {
      flags := if ready then OUT_FLAG else 0;
    }

    method OutSendHandler() returns (ok: bool)
      modifies this
      ensures ok == old(ready) && !ready
    {
      ok := ready;
      ready := false;
    }
  }

  class InnerState {
    var acc: Word

    constructor ()
      ensures acc == 0
    {
      acc := 0;
    }

    method InReceiveHandler(outerCount: nat, mask: Word) returns (ok: bool, exit: bool)
      modifies this
      ensures ok <==> Receive(outerCount, old(acc), mask).Ok?
      ensures ok ==> Receive(outerCount, old(acc), mask).value == (acc, exit)
      ensures !ok ==> acc == old(acc) && !exit
    {
      ok, exit := And(acc, mask) == 0, false;
      if ok {
        OrIsWord(acc, mask);
        acc := Or(acc, mask);
        exit := acc == Pow2(outerCount) - 1;
      }
    }
  }

  lemma {:induction false} OrBound(x: nat, y: nat, n: nat)
    requires x < Pow2(n) && y < Pow2(n)
    ensures Or(x, y) < Pow2(n)
  {
    if n > 0 && x != 0 && y != 0 { OrBound(x / 2, y / 2, n - 1); }
  }

  lemma OrIsWord(x: Word, y: Word)
    ensures Or(x, y) < WORD_LIMIT
  {
    Pow2Values();
    OrBound(x, y, 32);
  }

  // ----- the network -----

  /** Outer i's edge has mask masks[i]. */
  datatype Config = Config(masks: seq<Word>)

  /** The pulses in flight and delivered, by sender. */
  datatype Net = Net(ready: seq<bool>, flying: set<nat>, delivered: set<nat>, acc: Word, exited: bool)

  datatype Step = Send(outer: nat) | Deliver(outer: nat)

  function Initial(c: Config): Net {
    Net(seq(|c.masks|, _ => true), {}, {}, 0, false)
  }

  predicate Enabled(c: Config, s: Net, step: Step) {
    !s.exited &&
    match step
    case Send(i) => i < |s.ready| && s.ready[i]
    case Deliver(i) => i in s.flying && i < |c.masks|
  }

  function Apply(c: Config, s: Net, step: Step): Outcome<Net>
    requires Enabled(c, s, step)
  {
    match step
    case Send(i) => Ok(s.(ready := s.ready[i := false], flying := s.flying + {i}))
    case Deliver(i) =>
      var (acc, exit) :- Receive(|c.masks|, s.acc, c.masks[i]);
      Ok(s.(acc := acc, exited := exit, flying := s.flying - {i}, delivered := s.delivered + {i}))
  }

  predicate IsSchedule(c: Config, s: Net, steps: seq<Step>)
    decreases |steps|
  {
    steps == [] ||
    (Enabled(c, s, steps[0]) &&
     var next := Apply(c, s, steps[0]);
     next.Ok? ==> IsSchedule(c, next.value, steps[1..]))
  }

  function Execute(c: Config, s: Net, steps: seq<Step>): Outcome<Net>
    requires IsSchedule(c, s, steps)
    decreases |steps|
  {
    if steps == [] then Ok(s) else
      var next :- Apply(c, s, steps[0]);
      Execute(c, next, steps[1..])
  }

  /** The accumulator with every outer's bit: (1 << n) - 1. */
  function AllOnes(c: Config): int {
    Pow2(|c.masks|) - 1
  }

  /** No stray bits: every mask is below 1 << n, and that is an int. */
  predicate MasksFit(c: Config) {
    |c.masks| <= 30 && forall i | 0 <= i < |c.masks| :: c.masks[i] < Pow2(|c.masks|)
  }

  // ----- the invariant -----

  ghost predicate Covered(c: Config, outers: set<nat>, k: nat) {
    exists i :: i in outers && i < |c.masks| && Bit(c.masks[i], k)
  }

  /** The accumulator is the union of the delivered masks. */
  ghost predicate AccRight(c: Config, s: Net) {
    forall k: nat :: Bit(s.acc, k) <==> Covered(c, s.delivered, k)
  }

  ghost predicate OuterRight(s: Net, i: nat)
    requires i < |s.ready|
  {
    && (s.ready[i] <==> i !in s.flying && i !in s.delivered)
    && !(i in s.flying && i in s.delivered)
  }

  ghost predicate Inv(c: Config, s: Net) {
    && |s.ready| == |c.masks|
    && (forall i: nat | i < |s.ready| :: OuterRight(s, i))
    && (forall i | i in s.flying || i in s.delivered :: i < |c.masks|)
    && AccRight(c, s)
    && s.acc < Pow2(|c.masks|)
    && (s.exited <==> s.delivered != {} && s.acc == AllOnes(c))
  }

  ghost predicate Overlap(c: Config, i: nat, j: nat) {
    i < |c.masks| && j < |c.masks| && i != j && And(c.masks[i], c.masks[j]) != 0
  }

  predicate Both(x: nat, y: nat, k: nat) {
    Bit(x, k) && Bit(y, k)
  }

  lemma AndIsZero(x: nat, y: nat)
    ensures And(x, y) == 0 <==> forall k: nat :: !Both(x, y, k)
  {
    if And(x, y) == 0 {
      forall k: nat ensures !Both(x, y, k) {
        AndBits(x, y, k);
        ZeroBits(k);
      }
    } else if forall k: nat :: !Both(x, y, k) {
      forall k: nat ensures Bit(And(x, y), k) <==> Bit(0, k) {
        assert !Both(x, y, k);
        AndBits(x, y, k);
        ZeroBits(k);
      }
      SameBits(And(x, y), 0);
    }
  }

  /** The assertion of the inner device fails exactly when some pulse already delivered overlaps the new one. */
  lemma ReceiveFailsOnOverlap(c: Config, s: Net, i: nat)
    requires Inv(c, s) && i in s.flying
    ensures And(s.acc, c.masks[i]) != 0 <==> exists j :: j in s.delivered && Overlap(c, j, i)
  {
    AndIsZero(s.acc, c.masks[i]);
    forall j | j in s.delivered ensures j != i {
      assert OuterRight(s, i);
    }
    if And(s.acc, c.masks[i]) != 0 {
      var k: nat :| Both(s.acc, c.masks[i], k);
      assert Covered(c, s.delivered, k);
      var j :| j in s.delivered && j < |c.masks| && Bit(c.masks[j], k);
      AndIsZero(c.masks[j], c.masks[i]);
      assert Both(c.masks[j], c.masks[i], k);
      assert Overlap(c, j, i);
    }
    forall j | j in s.delivered && Overlap(c, j, i) ensures And(s.acc, c.masks[i]) != 0 {
      AndIsZero(c.masks[j], c.masks[i]);
      var k: nat :| Both(c.masks[j], c.masks[i], k);
      assert Covered(c, s.delivered, k) && Both(s.acc, c.masks[i], k);
    }
  }

  lemma DeliveredCovers(c: Config, s: Net, i: nat)
    requires AccRight(c, s) && i < |c.masks|
    ensures forall k: nat :: Bit(Or(s.acc, c.masks[i]), k) <==> Covered(c, s.delivered + {i}, k)
  {
    forall k: nat ensures Bit(Or(s.acc, c.masks[i]), k) <==> Covered(c, s.delivered + {i}, k) {
      OrBits(s.acc, c.masks[i], k);
      assert Bit(s.acc, k) <==> Covered(c, s.delivered, k);
      if Covered(c, s.delivered, k) {
        var j :| j in s.delivered && j < |c.masks| && Bit(c.masks[j], k);
        assert j in s.delivered + {i};
      }
      if Bit(c.masks[i], k) {
        assert i in s.delivered + {i};
      }
    }
  }

  lemma SendKeepsInv(c: Config, s: Net, i: nat)
    requires Inv(c, s) && Enabled(c, s, Send(i))
    ensures Inv(c, Apply(c, s, Send(i)).value)
  {
    var s' := Apply(c, s, Send(i)).value;
    forall j: nat | j < |s'.ready| ensures OuterRight(s', j) {
      assert OuterRight(s, j);
    }
    assert OuterRight(s, i);
  }

  lemma DeliverKeepsInv(c: Config, s: Net, i: nat)
    requires MasksFit(c) && Inv(c, s) && Enabled(c, s, Deliver(i)) && And(s.acc, c.masks[i]) == 0
    ensures Apply(c, s, Deliver(i)).Ok? && Inv(c, Apply(c, s, Deliver(i)).value)
  {
    OrIsWord(s.acc, c.masks[i]);
    var s' := Apply(c, s, Deliver(i)).value;
    forall j: nat | j < |s'.ready| ensures OuterRight(s', j) {
      assert OuterRight(s, j);
    }
    DeliveredCovers(c, s, i);
    OrBound(s.acc, c.masks[i], |c.masks|);
    assert i in s'.delivered;
  }

  lemma InitialInv(c: Config)
    ensures Inv(c, Initial(c))
  {
    forall k: nat ensures !Bit(0, k) {
      ZeroBits(k);
    }
    Pow2Bits(|c.masks|, 0);
  }

  // ----- when the assertion fails -----

  lemma {:induction false} FailureShowsOverlap(c: Config, s: Net, steps: seq<Step>) returns (j: nat, i: nat)
    requires MasksFit(c) && Inv(c, s) && IsSchedule(c, s, steps) && Execute(c, s, steps).AssertFailed?
    requires !s.exited
    ensures Overlap(c, j, i) && c.masks[j] != AllOnes(c)
    decreases |steps|
  {
    match steps[0]
    case Send(k) =>
      SendKeepsInv(c, s, k);
      j, i := FailureShowsOverlap(c, Apply(c, s, steps[0]).value, steps[1..]);
    case Deliver(k) =>
      if And(s.acc, c.masks[k]) == 0 {
        DeliverKeepsInv(c, s, k);
        j, i := FailureShowsOverlap(c, Apply(c, s, steps[0]).value, steps[1..]);
      } else {
        ReceiveFailsOnOverlap(c, s, k);
        i := k;
        j :| j in s.delivered && Overlap(c, j, i);
        if c.masks[j] == AllOnes(c) { AllOnesFills(c, s, j); }
      }
  }

  lemma AllOnesFills(c: Config, s: Net, j: nat)
    requires Inv(c, s) && j in s.delivered && c.masks[j] == AllOnes(c)
    ensures s.exited
  {
    forall k: nat ensures Bit(s.acc, k) <==> Bit(AllOnes(c), k) {
      LowMaskBits(|c.masks|, k);
      if k < |c.masks| {
        assert Covered(c, s.delivered, k);
      } else {
        HighBitsClear(s.acc, |c.masks|, k);
      }
    }
    SameBits(s.acc, AllOnes(c));
  }

  lemma {:induction false} HighBitsClear(x: nat, n: nat, k: nat)
    requires x < Pow2(n) && n <= k
    ensures !Bit(x, k)
  {
    if n == 0 {
      ZeroBits(k);
    } else {
      HighBitsClear(x / 2, n - 1, k - 1);
    }
  }

  ghost predicate FailingRun(c: Config, steps: seq<Step>) {
    IsSchedule(c, Initial(c), steps) && Execute(c, Initial(c), steps).AssertFailed?
  }

  lemma OverlapMakesFailure(c: Config, j: nat, i: nat) returns (steps: seq<Step>)
    requires MasksFit(c) && Overlap(c, j, i) && c.masks[j] != AllOnes(c)
    ensures FailingRun(c, steps)
  {
    InitialInv(c);
    var s0 := Initial(c);
    SendKeepsInv(c, s0, j);
    var s1 := Apply(c, s0, Send(j)).value;
    SendKeepsInv(c, s1, i);
    var s2 := Apply(c, s1, Send(i)).value;
    DeliverKeepsInv(c, s2, j);
    var s3 := Apply(c, s2, Deliver(j)).value;
    ReceiveFailsOnOverlap(c, s3, i);
    var tail3: seq<Step> := [Deliver(i)];
    var tail2 := [Deliver(j)] + tail3;
    var tail1 := [Send(i)] + tail2;
    assert tail3[1..] == [] && tail2[1..] == tail3 && tail1[1..] == tail2;
    assert IsSchedule(c, s3, tail3) && Execute(c, s3, tail3).AssertFailed?;
    assert IsSchedule(c, s2, tail2) && Execute(c, s2, tail2).AssertFailed?;
    assert IsSchedule(c, s1, tail1) && Execute(c, s1, tail1).AssertFailed?;
    steps := [Send(j)] + tail1;
    assert steps[1..] == tail1;
  }

  /** The disjointness assertion can fail, in some order of delivery, exactly when two outers have masks that overlap
      and one of them does not end the program by itself. */
  lemma AssertionFailsExactlyOnOverlap(c: Config)
    requires MasksFit(c)
    ensures (exists steps :: FailingRun(c, steps))
            <==> exists j: nat, i: nat :: Overlap(c, j, i) && c.masks[j] != AllOnes(c)
  {
    InitialInv(c);
    forall steps | FailingRun(c, steps)
      ensures exists j: nat, i: nat :: Overlap(c, j, i) && c.masks[j] != AllOnes(c)
    {
      var j, i := FailureShowsOverlap(c, Initial(c), steps);
    }
    forall j: nat, i: nat | Overlap(c, j, i) && c.masks[j] != AllOnes(c)
      ensures exists steps :: FailingRun(c, steps)
    {
      var steps := OverlapMakesFailure(c, j, i);
    }
  }

  // ----- when the program ends -----

  /** Each outer has one bit of its own among the n lowest. */
  predicate OneBitEach(c: Config, bits: seq<nat>) {
    && |bits| == |c.masks|
    && (forall i | 0 <= i < |bits| :: bits[i] < |bits| && c.masks[i] == Pow2(bits[i]))
    && forall i, j | 0 <= i < j < |bits| :: bits[i] != bits[j]
  }

  lemma {:induction false} PowerBelow(k: nat, n: nat)
    requires k < n
    ensures 0 < Pow2(k) < Pow2(n)
  {
    if k > 0 {
      PowerBelow(k - 1, n - 1);
    } else {
      Pow2Bits(n - 1, 0);
    }
  }

  lemma OneBitFits(c: Config, bits: seq<nat>)
    requires OneBitEach(c, bits) && |bits| <= 30
    ensures MasksFit(c)
  {
    forall i | 0 <= i < |c.masks| ensures c.masks[i] < Pow2(|c.masks|) {
      PowerBelow(bits[i], |bits|);
    }
  }

  lemma OneBitApart(c: Config, bits: seq<nat>, i: nat, j: nat)
    requires OneBitEach(c, bits)
    ensures !Overlap(c, i, j)
  {
    if i < |bits| && j < |bits| && i != j {
      forall k: nat ensures !Both(c.masks[i], c.masks[j], k) {
        Pow2Bits(bits[i], k);
        Pow2Bits(bits[j], k);
      }
      AndIsZero(c.masks[i], c.masks[j]);
    }
  }

  /** Below the n lowest bits the accumulator has exactly the bits of the delivered outers. */
  lemma BitOfOuter(c: Config, bits: seq<nat>, s: Net, i: nat)
    requires OneBitEach(c, bits) && AccRight(c, s) && i < |bits|
    ensures Bit(s.acc, bits[i]) <==> i in s.delivered
  {
    Pow2Bits(bits[i], bits[i]);
    assert Bit(s.acc, bits[i]) <==> Covered(c, s.delivered, bits[i]);
    forall j: nat | j in s.delivered && j < |bits| && Bit(c.masks[j], bits[i]) ensures j == i {
      Pow2Bits(bits[j], bits[i]);
    }
  }

  lemma {:induction false} BitsUsed(bits: seq<nat>, n: nat) returns (used: set<nat>)
    requires n <= |bits| && forall i, j | 0 <= i < j < |bits| :: bits[i] != bits[j]
    ensures |used| == n && forall b :: b in used <==> exists i :: 0 <= i < n && bits[i] == b
  {
    used := {};
    if n > 0 {
      var rest := BitsUsed(bits, n - 1);
      used := rest + {bits[n - 1]};
    }
  }

  /** n different bits below n are all of them. */
  lemma EveryBitHasOuter(bits: seq<nat>, b: nat) returns (i: nat)
    requires forall i | 0 <= i < |bits| :: bits[i] < |bits|
    requires forall i, j | 0 <= i < j < |bits| :: bits[i] != bits[j]
    requires b < |bits|
    ensures i < |bits| && bits[i] == b
  {
    var used := BitsUsed(bits, |bits|);
    BoundedSet(used, |bits|);
    assert b in used;
    i :| 0 <= i < |bits| && bits[i] == b;
  }

  lemma AccFullExactlyWhen(c: Config, bits: seq<nat>, s: Net)
    requires OneBitEach(c, bits) && Inv(c, s)
    ensures s.acc == AllOnes(c) <==> forall i | 0 <= i < |bits| :: i in s.delivered
  {
    var n := |bits|;
    if s.acc == AllOnes(c) {
      forall i | 0 <= i < n ensures i in s.delivered {
        LowMaskBits(n, bits[i]);
        BitOfOuter(c, bits, s, i);
      }
    } else if forall i | 0 <= i < n :: i in s.delivered {
      Pow2Bits(n, 0);
      forall k: nat ensures Bit(s.acc, k) <==> Bit(AllOnes(c), k) {
        LowMaskBits(n, k);
        if k < n {
          var i := EveryBitHasOuter(bits, k);
          BitOfOuter(c, bits, s, i);
        } else {
          HighBitsClear(s.acc, n, k);
        }
      }
      SameBits(s.acc, AllOnes(c));
    }
  }

  lemma {:induction false} OneBitRun(c: Config, bits: seq<nat>, s: Net, steps: seq<Step>)
    requires OneBitEach(c, bits) && MasksFit(c) && Inv(c, s) && IsSchedule(c, s, steps)
    ensures Execute(c, s, steps).Ok? && Inv(c, Execute(c, s, steps).value)
    decreases |steps|
  {
    if steps != [] {
      match steps[0] {
        case Send(i) => SendKeepsInv(c, s, i);
        case Deliver(i) =>
          ReceiveFailsOnOverlap(c, s, i);
          forall j | j in s.delivered ensures !Overlap(c, j, i) { OneBitApart(c, bits, j, i); }
          DeliverKeepsInv(c, s, i);
      }
      OneBitRun(c, bits, Apply(c, s, steps[0]).value, steps[1..]);
    }
  }

  /** With one bit for each of up to 30 outers, whatever the order of sends and deliveries: no assertion fails, the
      accumulator is the union of the delivered masks, the program has ended exactly when all have arrived, and
      until then something can still happen. */
  lemma {:induction false} EndsExactlyWhenAllArrive(c: Config, bits: seq<nat>, steps: seq<Step>)
    requires OneBitEach(c, bits) && 0 < |bits| <= 30 && IsSchedule(c, Initial(c), steps)
    ensures Execute(c, Initial(c), steps).Ok?
    ensures var s := Execute(c, Initial(c), steps).value;
            && (forall k: nat :: Bit(s.acc, k) <==> Covered(c, s.delivered, k))
            && (s.exited <==> forall i | 0 <= i < |bits| :: i in s.delivered)
            && (s.exited <==> !exists step :: Enabled(c, s, step))
  {
    OneBitFits(c, bits);
    InitialInv(c);
    OneBitRun(c, bits, Initial(c), steps);
    var s := Execute(c, Initial(c), steps).value;
    AccFullExactlyWhen(c, bits, s);
    if s.acc == AllOnes(c) { assert 0 in s.delivered; }
    if !s.exited {
      var i: nat :| i < |bits| && i !in s.delivered;
      assert OuterRight(s, i);
      assert Enabled(c, s, Send(i)) || Enabled(c, s, Deliver(i));
    }
  }

  // ----- the network on objects -----

  class Network {
    const c: Config
    const outers: seq<OuterState>
    const inner: InnerState
    var flying: set<nat>
    var exited: bool
    ghost var model: Net

    ghost predicate Mirrored(i: nat)
      reads this`model, outers
    {
      i < |outers| ==> i < |model.ready| && model.ready[i] == outers[i].ready
    }

    ghost predicate Apart(i: nat, j: nat) {
      i < |outers| && j < |outers| && i != j ==> outers[i] != outers[j]
    }

    ghost predicate Valid()
      reads this, outers, inner
    {
      && (forall i: nat, j: nat :: Apart(i, j))
      && |model.ready| == |outers| == |c.masks| && (forall i: nat :: Mirrored(i))
      && model.acc == inner.acc && model.flying == flying && model.exited == exited
    }

    constructor (c: Config, outers: seq<OuterState>, inner: InnerState)
      requires |outers| == |c.masks| && forall i, j | 0 <= i < j < |outers| :: outers[i] != outers[j]
      requires inner.acc == 0 && forall o | o in outers :: o.ready
      ensures this.c == c && this.outers == outers && this.inner == inner && Valid() && model == Initial(c)
    {
      this.c, this.outers, this.inner, flying, exited, model := c, outers, inner, {}, false, Initial(c);
      new;
      forall i: nat ensures Mirrored(i) {
      }
    }

    /** An outer that says it is ready sends its pulse, and its handler's assertion holds. */
    method SendPulse(i: nat) returns (ok: bool)
      requires Valid() && Enabled(c, model, Send(i))
      modifies this, outers
      ensures ok && Valid() && Ok(model) == Apply(c, old(model), Send(i))
    {
      assert Mirrored(i);
      var flags := outers[i].ReadyToSendHandler();
      ok := outers[i].OutSendHandler();
      ok := ok && flags != 0;
      flying := flying + {i};
      model := model.(ready := model.ready[i := false], flying := flying);
      forall j: nat ensures Mirrored(j) {
        assert old(Mirrored(j)) && Apart(i, j);
      }
    }

    /** A pulse reaches the inner device: false when the disjointness assertion fails. */
    method DeliverPulse(i: nat) returns (ok: bool)
      requires Valid() && Enabled(c, model, Deliver(i))
      modifies this, inner
      ensures ok <==> Apply(c, old(model), Deliver(i)).Ok?
      ensures ok ==> Valid() && Ok(model) == Apply(c, old(model), Deliver(i))
    {
      var exit;
      ok, exit := inner.InReceiveHandler(|c.masks|, c.masks[i]);
      if ok {
        flying := flying - {i};
        exited := exit;
        model := model.(acc := inner.acc, exited := exit, flying := flying, delivered := model.delivered + {i});
        forall j: nat ensures Mirrored(j) {
          assert old(Mirrored(j));
        }
      }
    }

    /** Any sends and deliveries, in any order, up to the first assertion that fails. */
    method Run(steps: seq<Step>) returns (ok: bool)
      requires Valid() && IsSchedule(c, model, steps)
      modifies this, outers, inner
      ensures ok <==> Execute(c, old(model), steps).Ok?
      ensures ok ==> Valid() && Ok(model) == Execute(c, old(model), steps)
    {
      ghost var end := Execute(c, model, steps);
      for k := 0 to |steps|
        invariant Valid() && IsSchedule(c, model, steps[k..]) && end == Execute(c, model, steps[k..])
      {
        assert steps[k..][1..] == steps[k + 1..];
        match steps[k] {
          case Send(i) => ok := SendPulse(i);
          case Deliver(i) => ok := DeliverPulse(i);
        }
        if !ok {
          return;
        }
      }
      ok := true;
    }
  }

  /** The application from power-up, with one bit for each outer: no assertion fails, and the inner device ends the
      program exactly when no outer is ready and no pulse is on its way. */
  method RunEdgeProps(c: Config, bits: seq<nat>, outers: seq<OuterState>, inner: InnerState, steps: seq<Step>)
    returns (net: Network, ok: bool)
    requires |outers| == |c.masks| && forall i, j | 0 <= i < j < |outers| :: outers[i] != outers[j]
    requires inner.acc == 0 && forall o | o in outers :: o.ready
    requires OneBitEach(c, bits) && 0 < |bits| <= 30 && IsSchedule(c, Initial(c), steps)
    modifies outers, inner
    ensures fresh(net) && net.outers == outers && net.inner == inner && ok && net.Valid()
    ensures net.exited <==> net.flying == {} && forall o | o in outers :: !o.ready
    ensures net.exited <==> inner.acc == AllOnes(c)
  {
    net := new Network(c, outers, inner);
    ok := net.Run(steps);
    OneBitFits(c, bits);
    InitialInv(c);
    OneBitRun(c, bits, Initial(c), steps);
    EndsExactlyWhenAllArrive(c, bits, steps);
    AllSentAndArrived(net, bits);
  }

  lemma AllSentAndArrived(net: Network, bits: seq<nat>)
    requires net.Valid() && Inv(net.c, net.model) && OneBitEach(net.c, bits) && bits != []
    requires net.model.exited <==> forall i | 0 <= i < |bits| :: i in net.model.delivered
    ensures net.exited <==> net.flying == {} && forall o | o in net.outers :: !o.ready
    ensures net.exited <==> net.inner.acc == AllOnes(net.c)
  {
    var s := net.model;
    forall i: nat | i < |bits| ensures i in s.delivered <==> i !in s.flying && !net.outers[i].ready {
      assert net.Mirrored(i) && OuterRight(s, i);
    }
    AccFullExactlyWhen(net.c, bits, s);
    if s.exited {
      forall o | o in net.outers ensures !o.ready {
        var i: nat :| i < |net.outers| && net.outers[i] == o;
        assert i in s.delivered;
      }
    }
  }
}

/** Safety, termination and the unique final state of the barrier, for every schedule of steps. */
module BarrierProofs {
  import opened Words
  import opened Outcomes
  import opened Counting
  import opened Barrier

  lemma InitialInv(c: Config)
    ensures Inv(c, Initial(c))
  {
    var s := Initial(c);
    forall j: nat | j < |s.devs| ensures CountsRight(s, j) {
      WholeSet(Reached(s, j, 0), c.devCount);
      assert Reached(s, j, 1) == {};
    }
    assert HaltedSet(s) == {};
  }

  /** A device whose count is full has heard from everybody, so nobody is behind it. */
  lemma FullMeansAll(c: Config, s: Net, j: nat)
    requires Inv(c, s) && j < |s.devs| && s.devs[j].seenNow == c.devCount
    ensures forall i | 0 <= i < |s.devs| :: s.devs[i].t >= s.devs[j].t && !Flying(s, i, j, s.devs[j].t)
  {
    assert CountsRight(s, j);
    var a := Reached(s, j, s.devs[j].t);
    BoundedSet(a, c.devCount);
    forall i | 0 <= i < |s.devs| ensures s.devs[i].t >= s.devs[j].t && !Flying(s, i, j, s.devs[j].t) {
      assert i in a;
    }
  }

  lemma SameHeard(s: Net, s': Net, j: nat, k: nat)
    requires |s.devs| == |s'.devs|
    requires forall x: nat | x < |s.devs| ::
      (s'.devs[x].t >= k && !Flying(s', x, j, k)) <==> (s.devs[x].t >= k && !Flying(s, x, j, k))
    ensures Heard(s', j, k) == Heard(s, j, k)
  {
    assert Reached(s', j, k) == Reached(s, j, k);
  }

  // ----- sending a tick -----

  ghost function AfterOut(c: Config, s: Net, i: nat): Net
    requires i < |s.devs| && s.devs[i].t < c.maxTime
  {
    var d := s.devs[i];
    s.(devs := s.devs[i := Dev(d.t + 1, d.seenNext, 0, d.halted)], ticks := s.ticks + Broadcast(c.devCount, i, d.t + 1))
  }

  lemma OutResult(c: Config, s: Net, i: nat)
    requires i < |s.devs| && Enabled(c, s, Out(i))
    ensures s.devs[i].t < c.maxTime && s.devs[i].seenNow == c.devCount
    ensures Apply(c, s, Out(i)) == Ok(AfterOut(c, s, i))
  {
    FlagCases(c, s.devs[i]);
  }

  lemma OutCopies(c: Config, s: Net, i: nat, m: Tick)
    requires i < |s.devs| && s.devs[i].t < c.maxTime
    ensures AfterOut(c, s, i).ticks[m] ==
            s.ticks[m] + if m.src == i && m.t == s.devs[i].t + 1 && m.dst < c.devCount then 1 else 0
  {
    BroadcastCopies(c.devCount, i, s.devs[i].t + 1, m);
  }

  lemma OutFlying(c: Config, s: Net, i: nat, x: nat, j: nat, k: nat)
    requires i < |s.devs| && s.devs[i].t < c.maxTime && j < c.devCount
    ensures Flying(AfterOut(c, s, i), x, j, k) <==> Flying(s, x, j, k) || (x == i && k == s.devs[i].t + 1)
  {
    if k < WORD_LIMIT { OutCopies(c, s, i, Tick(x, j, k)); }
  }

  lemma OutTicks(c: Config, s: Net, i: nat)
    requires Inv(c, s) && i < |s.devs| && s.devs[i].t < c.maxTime && s.devs[i].seenNow == c.devCount
    ensures TicksInv(AfterOut(c, s, i))
  {
    var s' := AfterOut(c, s, i);
    FullMeansAll(c, s, i);
    forall m | m in s'.ticks
      ensures s'.ticks[m] == 1 && m.src < |s'.devs| && m.dst < |s'.devs| && m.t >= 1
      ensures s'.devs[m.dst].t <= m.t <= s'.devs[m.src].t
    {
      OutCopies(c, s, i, m);
      if m in s.ticks {
        assert m == Tick(m.src, m.dst, m.t) && Flying(s, m.src, m.dst, m.t);
      }
    }
  }

  /** Nobody's tick for time k counts differently, except that the sender's count starts again. */
  lemma OutHeard(c: Config, s: Net, i: nat, j: nat, k: nat)
    requires i < |s.devs| == c.devCount && s.devs[i].t < c.maxTime && j < |s.devs|
    ensures Heard(AfterOut(c, s, i), j, k) == Heard(s, j, k)
  {
    var s' := AfterOut(c, s, i);
    forall x: nat ensures Flying(s', x, j, k) <==> Flying(s, x, j, k) || (x == i && k == s.devs[i].t + 1) {
      OutFlying(c, s, i, x, j, k);
    }
    assert Reached(s', j, k) == Reached(s, j, k);
  }

  lemma OutAhead(c: Config, s: Net, i: nat, k: nat)
    requires i < |s.devs| && s.devs[i].t < c.maxTime && k == s.devs[i].t + 2
    requires forall x: nat | x < |s.devs| :: s.devs[x].t < k
    ensures Heard(AfterOut(c, s, i), i, k) == 0
  {
    assert Reached(AfterOut(c, s, i), i, k) == {};
  }

  lemma OutCountsRight(c: Config, s: Net, i: nat, j: nat, t: nat)
    requires i < |s.devs| && s.devs[i].t < c.maxTime && j < |s.devs| && CountsRight(s, j) && t == s.devs[j].t
    requires Heard(AfterOut(c, s, i), j, t) == Heard(s, j, t)
    requires Heard(AfterOut(c, s, i), j, t + 1) == Heard(s, j, t + 1)
    requires j == i ==> Heard(AfterOut(c, s, i), j, t + 2) == 0
    ensures CountsRight(AfterOut(c, s, i), j)
  {
  }

  lemma OutCounts(c: Config, s: Net, i: nat)
    requires CountsInv(s) && LockStep(s) && i < |s.devs| == c.devCount && s.devs[i].t < c.maxTime
    ensures CountsInv(AfterOut(c, s, i))
  {
    forall j: nat | j < |s.devs| ensures CountsRight(AfterOut(c, s, i), j) {
      var t: nat := s.devs[j].t;
      OutHeard(c, s, i, j, t);
      OutHeard(c, s, i, j, t + 1);
      if j == i { OutAhead(c, s, i, t + 2); }
      OutCountsRight(c, s, i, j, t);
    }
  }

  lemma OutTimes(c: Config, s: Net, i: nat)
    requires Inv(c, s) && i < |s.devs| && s.devs[i].t < c.maxTime && s.devs[i].seenNow == c.devCount
    ensures var s' := AfterOut(c, s, i); LockStep(s') && DevsInv(c, s') && DonesInv(s')
  {
    var s' := AfterOut(c, s, i);
    FullMeansAll(c, s, i);
    assert HaltedSet(s') == HaltedSet(s);
  }

  /** Sending: what each device still has to hear is unchanged, the sender moves on to its next count. */
  lemma OutKeepsInv(c: Config, s: Net, i: nat)
    requires Inv(c, s) && i < |s.devs| && s.devs[i].t < c.maxTime && s.devs[i].seenNow == c.devCount
    ensures Inv(c, AfterOut(c, s, i))
  {
    OutTicks(c, s, i);
    OutTimes(c, s, i);
    OutCounts(c, s, i);
  }

  // ----- sending the halt message -----

  ghost function AfterHalt(s: Net, i: nat): Net
    requires i < |s.devs|
  {
    s.(devs := s.devs[i := SendHalt(s.devs[i])], dones := s.dones + multiset{i})
  }

  lemma HaltResult(c: Config, s: Net, i: nat)
    requires i < |s.devs| && Enabled(c, s, Halt(i))
    ensures s.devs[i].t >= c.maxTime && !s.devs[i].halted
    ensures Apply(c, s, Halt(i)) == Ok(AfterHalt(s, i))
  {
    FlagCases(c, s.devs[i]);
  }

  lemma HaltCounts(s: Net, i: nat)
    requires CountsInv(s) && i < |s.devs|
    ensures CountsInv(AfterHalt(s, i))
  {
    var s' := AfterHalt(s, i);
    forall j: nat | j < |s.devs| ensures CountsRight(s', j) {
      assert CountsRight(s, j);
      var t: nat := s.devs[j].t;
      SameHeard(s, s', j, t);
      SameHeard(s, s', j, t + 1);
    }
  }

  lemma HaltDones(s: Net, i: nat)
    requires DonesInv(s) && i < |s.devs| && !s.devs[i].halted
    ensures DonesInv(AfterHalt(s, i))
  {
    var s' := AfterHalt(s, i);
    assert i !in HaltedSet(s);
    assert HaltedSet(s') == HaltedSet(s) + {i};
    forall x | x in s'.dones ensures s'.dones[x] == 1 && x in HaltedSet(s') {
    }
  }

  lemma HaltTicks(s: Net, i: nat)
    requires TicksInv(s) && i < |s.devs|
    ensures TicksInv(AfterHalt(s, i))
  {
  }

  lemma HaltKeepsInv(c: Config, s: Net, i: nat)
    requires Inv(c, s) && i < |s.devs| && s.devs[i].t >= c.maxTime && !s.devs[i].halted
    ensures Inv(c, AfterHalt(s, i))
  {
    HaltTicks(s, i);
    HaltCounts(s, i);
    HaltDones(s, i);
  }

  // ----- receiving a tick -----

  /** The tick is for its destination's current or next time, and the count for that time has room. */
  ghost predicate Expected(s: Net, m: Tick) {
    && m in s.ticks && m.dst < |s.devs|
    && var d := s.devs[m.dst];
       || (m.t == d.t && d.seenNow + 1 < WORD_LIMIT)
       || (m.t == d.t + 1 && d.seenNext + 1 < WORD_LIMIT)
  }

  ghost function AfterArrive(s: Net, m: Tick): Net
    requires Expected(s, m)
  {
    var d := s.devs[m.dst];
    var d' := if m.t == d.t then d.(seenNow := d.seenNow + 1) else d.(seenNext := d.seenNext + 1);
    s.(devs := s.devs[m.dst := d'], ticks := s.ticks - multiset{m})
  }

  lemma NotYetCounted(s: Net, m: Tick)
    requires m in s.ticks && m.src < |s.devs|
    ensures m.src !in Reached(s, m.dst, m.t) && Heard(s, m.dst, m.t) < |s.devs|
  {
    assert Flying(s, m.src, m.dst, m.t);
    BoundedSet(Reached(s, m.dst, m.t) + {m.src}, |s.devs|);
  }

  /** A tick in flight carries the time of its destination or the next one, and is not counted yet. */
  lemma TickIsExpected(c: Config, s: Net, m: Tick)
    requires Inv(c, s) && m in s.ticks
    ensures Expected(s, m) && m.src !in Reached(s, m.dst, m.t)
  {
    NotYetCounted(s, m);
    assert CountsRight(s, m.dst);
  }

  /** So the handler's assertion holds and its counters do not wrap. */
  lemma ArriveResult(c: Config, s: Net, m: Tick)
    requires Expected(s, m)
    ensures Apply(c, s, Arrive(m)) == Ok(AfterArrive(s, m))
  {
  }

  ghost predicate Landed(s: Net, s': Net, m: Tick, x: nat, y: nat, k: nat) {
    Flying(s', x, y, k) <==> Flying(s, x, y, k) && !(x == m.src && y == m.dst && k == m.t)
  }

  lemma ArriveFlying(s: Net, m: Tick, x: nat, y: nat, k: nat)
    requires TicksInv(s) && Expected(s, m)
    ensures Landed(s, AfterArrive(s, m), m, x, y, k)
  {
    if k < WORD_LIMIT { assert s.ticks[Tick(x, y, k)] <= 1; }
  }

  lemma ArriveHeard(s: Net, m: Tick, y: nat, k: nat)
    requires Expected(s, m) && m.src < |s.devs| && m.t <= s.devs[m.src].t
    requires m.src !in Reached(s, m.dst, m.t)
    requires forall x: nat :: Landed(s, AfterArrive(s, m), m, x, y, k)
    ensures Heard(AfterArrive(s, m), y, k) == Heard(s, y, k) + if y == m.dst && k == m.t then 1 else 0
  {
    var s' := AfterArrive(s, m);
    forall x: nat
      ensures x in Reached(s', y, k) <==> x in Reached(s, y, k) || (x == m.src && y == m.dst && k == m.t)
    {
      assert Landed(s, s', m, x, y, k);
    }
    if y == m.dst && k == m.t {
      assert Reached(s', y, k) == Reached(s, y, k) + {m.src};
    } else {
      assert Reached(s', y, k) == Reached(s, y, k);
    }
  }

  lemma ArriveCountsRight(s: Net, m: Tick, y: nat, t: nat)
    requires y < |s.devs| && CountsRight(s, y) && t == s.devs[y].t && Expected(s, m)
    requires Heard(AfterArrive(s, m), y, t) == Heard(s, y, t) + if y == m.dst && t == m.t then 1 else 0
    requires Heard(AfterArrive(s, m), y, t + 1) == Heard(s, y, t + 1) + if y == m.dst && t + 1 == m.t then 1 else 0
    ensures CountsRight(AfterArrive(s, m), y)
  {
  }

  lemma ArriveTicks(s: Net, m: Tick)
    requires TicksInv(s) && Expected(s, m)
    ensures TicksInv(AfterArrive(s, m))
  {
    var s' := AfterArrive(s, m);
    forall x | x in s'.ticks ensures x in s.ticks && s'.ticks[x] == s.ticks[x] {
    }
  }

  lemma ArriveCounts(s: Net, m: Tick)
    requires TicksInv(s) && CountsInv(s) && Expected(s, m) && m.src !in Reached(s, m.dst, m.t)
    ensures CountsInv(AfterArrive(s, m))
  {
    forall y: nat | y < |s.devs| ensures CountsRight(AfterArrive(s, m), y) {
      var t: nat := s.devs[y].t;
      forall x: nat, k: nat ensures Landed(s, AfterArrive(s, m), m, x, y, k) {
        ArriveFlying(s, m, x, y, k);
      }
      ArriveHeard(s, m, y, t);
      ArriveHeard(s, m, y, t + 1);
      ArriveCountsRight(s, m, y, t);
    }
  }

  lemma ArriveTimes(c: Config, s: Net, m: Tick)
    requires DevsInv(c, s) && LockStep(s) && DonesInv(s) && Expected(s, m)
    ensures var s' := AfterArrive(s, m); DevsInv(c, s') && LockStep(s') && DonesInv(s')
  {
    assert HaltedSet(AfterArrive(s, m)) == HaltedSet(s);
  }

  lemma ArriveKeepsInv(c: Config, s: Net, m: Tick)
    requires Inv(c, s) && Expected(s, m) && m.src !in Reached(s, m.dst, m.t)
    ensures Inv(c, AfterArrive(s, m))
  {
    ArriveTicks(s, m);
    ArriveCounts(s, m);
    ArriveTimes(c, s, m);
  }

  // ----- receiving a done message -----

  ghost function AfterDone(s: Net, i: nat): Net
    requires i in s.dones && s.seen + 1 < WORD_LIMIT
  {
    s.(dones := s.dones - multiset{i}, seen := s.seen + 1)
  }

  lemma DoneResult(c: Config, s: Net, i: nat)
    requires DonesInv(s) && |s.devs| == c.devCount && i in s.dones
    ensures s.seen + 1 < WORD_LIMIT
    ensures Apply(c, s, ArriveDone(i)) == Ok(AfterDone(s, i))
    ensures DonesInv(AfterDone(s, i))
  {
    BoundedSet(HaltedSet(s), c.devCount);
    assert |s.dones - multiset{i}| == |s.dones| - 1;
    assert HaltedSet(AfterDone(s, i)) == HaltedSet(s);
  }

  lemma DoneCounts(s: Net, i: nat)
    requires CountsInv(s) && i in s.dones && s.seen + 1 < WORD_LIMIT
    ensures CountsInv(AfterDone(s, i))
  {
    var s' := AfterDone(s, i);
    forall j: nat | j < |s.devs| ensures CountsRight(s', j) {
      assert CountsRight(s, j);
      var t: nat := s.devs[j].t;
      SameHeard(s, s', j, t);
      SameHeard(s, s', j, t + 1);
    }
  }

  lemma DoneKeepsInv(c: Config, s: Net, i: nat)
    requires Inv(c, s) && i in s.dones && s.seen + 1 < WORD_LIMIT && DonesInv(AfterDone(s, i))
    ensures Inv(c, AfterDone(s, i))
  {
    DoneCounts(s, i);
    var s' := AfterDone(s, i);
    assert s'.devs == s.devs && s'.ticks == s.ticks;
    assert LockStep(s') && TicksInv(s') && DevsInv(c, s');
  }

  lemma StepKeepsInv(c: Config, s: Net, step: Step)
    requires Inv(c, s) && Enabled(c, s, step)
    ensures Apply(c, s, step).Ok? && Inv(c, Apply(c, s, step).value)
  {
    match step
    case Out(i) => OutResult(c, s, i); OutKeepsInv(c, s, i);
    case Halt(i) => HaltResult(c, s, i); HaltKeepsInv(c, s, i);
    case Arrive(m) => TickIsExpected(c, s, m); ArriveResult(c, s, m); ArriveKeepsInv(c, s, m);
    case ArriveDone(i) => DoneResult(c, s, i); DoneKeepsInv(c, s, i);
  }
}

/** What holds of every run of the barrier: no assertion fails, lock-step, exact length, one final state. */
module BarrierTheorems {
  import opened Words
  import opened Outcomes
  import opened Counting
  import opened Barrier
  import opened BarrierProofs

  // ----- every step uses up one unit of work -----

  /** Messages this device has still to send and have delivered, counting the sends themselves. */
  function DevWork(c: Config, d: Dev): int {
    (c.maxTime - d.t) * (c.devCount + 1) + if d.halted then 0 else 2
  }

  function SumWork(c: Config, devs: seq<Dev>): int {
    if devs == [] then 0 else DevWork(c, devs[0]) + SumWork(c, devs[1..])
  }

  function Work(c: Config, s: Net): int {
    SumWork(c, s.devs) + |s.ticks| + |s.dones|
  }

  function TotalWork(c: Config): nat {
    c.devCount * (c.maxTime * (c.devCount + 1) + 2)
  }

  lemma {:induction false} SumWorkUpdate(c: Config, devs: seq<Dev>, i: nat, d: Dev)
    requires i < |devs|
    ensures SumWork(c, devs[i := d]) == SumWork(c, devs) - DevWork(c, devs[i]) + DevWork(c, d)
  {
    if i == 0 {
      assert devs[i := d][1..] == devs[1..];
    } else {
      assert devs[i := d][1..] == devs[1..][i - 1 := d];
      SumWorkUpdate(c, devs[1..], i - 1, d);
    }
  }

  lemma {:induction false} SumWorkBounds(c: Config, devs: seq<Dev>)
    requires forall i | 0 <= i < |devs| :: devs[i].t <= c.maxTime
    ensures SumWork(c, devs) >= 0
  {
    if devs != [] {
      assert (c.maxTime - devs[0].t) * (c.devCount + 1) >= 0;
      SumWorkBounds(c, devs[1..]);
    }
  }

  lemma {:induction false} SumWorkUniform(c: Config, devs: seq<Dev>, d: Dev)
    requires forall i | 0 <= i < |devs| :: devs[i] == d
    ensures SumWork(c, devs) == |devs| * DevWork(c, d)
  {
    if devs != [] {
      SumWorkUniform(c, devs[1..], d);
    }
  }

  lemma InitialWork(c: Config)
    ensures Work(c, Initial(c)) == TotalWork(c)
  {
    SumWorkUniform(c, Initial(c).devs, Dev(0, c.devCount, 0, false));
  }

  lemma LaterTimeWork(c: Config, d: Dev, d': Dev)
    requires d.t < c.maxTime && d'.t == d.t + 1 && d'.halted == d.halted
    ensures DevWork(c, d) == DevWork(c, d') + c.devCount + 1
  {
    Distribute(c.maxTime - d'.t, 1, c.devCount + 1);
  }

  lemma Distribute(x: int, y: int, z: int)
    ensures (x + y) * z == x * z + y * z
  {
  }

  lemma OutWork(c: Config, s: Net, i: nat)
    requires i < |s.devs| && s.devs[i].t < c.maxTime
    ensures Work(c, AfterOut(c, s, i)) == Work(c, s) - 1
  {
    var d := s.devs[i];
    var d' := Dev(d.t + 1, d.seenNext, 0, d.halted);
    LaterTimeWork(c, d, d');
    SumWorkUpdate(c, s.devs, i, d');
    BroadcastCopies(c.devCount, i, d.t + 1, Tick(0, 0, 0));
  }

  lemma HaltWork(c: Config, s: Net, i: nat)
    requires i < |s.devs| && !s.devs[i].halted
    ensures Work(c, AfterHalt(s, i)) == Work(c, s) - 1
  {
    SumWorkUpdate(c, s.devs, i, SendHalt(s.devs[i]));
  }

  lemma ArriveWork(c: Config, s: Net, m: Tick)
    requires Expected(s, m)
    ensures Work(c, AfterArrive(s, m)) == Work(c, s) - 1
  {
    SumWorkUpdate(c, s.devs, m.dst, AfterArrive(s, m).devs[m.dst]);
    assert |s.ticks - multiset{m}| == |s.ticks| - 1;
  }

  lemma DoneWork(c: Config, s: Net, i: nat)
    requires i in s.dones && s.seen + 1 < WORD_LIMIT
    ensures Work(c, AfterDone(s, i)) == Work(c, s) - 1
  {
    assert |s.dones - multiset{i}| == |s.dones| - 1;
  }

  lemma StepUsesOne(c: Config, s: Net, step: Step)
    requires Inv(c, s) && Enabled(c, s, step) && Apply(c, s, step).Ok?
    ensures Work(c, Apply(c, s, step).value) == Work(c, s) - 1
  {
    match step
    case Out(i) => OutResult(c, s, i); OutWork(c, s, i);
    case Halt(i) => HaltResult(c, s, i); HaltWork(c, s, i);
    case Arrive(m) => TickIsExpected(c, s, m); ArriveResult(c, s, m); ArriveWork(c, s, m);
    case ArriveDone(i) => DoneResult(c, s, i); DoneWork(c, s, i);
  }

  // ----- every schedule -----

  lemma {:induction false} ScheduleKeepsInv(c: Config, s: Net, steps: seq<Step>)
    requires Inv(c, s) && IsSchedule(c, s, steps)
    ensures Execute(c, s, steps).Ok?
    ensures var s' := Execute(c, s, steps).value; Inv(c, s') && |steps| + Work(c, s') == Work(c, s)
    decreases |steps|
  {
    if steps != [] {
      StepKeepsInv(c, s, steps[0]);
      StepUsesOne(c, s, steps[0]);
      ScheduleKeepsInv(c, Apply(c, s, steps[0]).value, steps[1..]);
    }
  }

  /** No schedule of sends and deliveries makes an assertion of the handlers fail; devices stay in lock-step,
      and every tick still in flight is for its destination's current or next time. */
  lemma {:induction false} NoAssertionFails(c: Config, steps: seq<Step>)
    requires IsSchedule(c, Initial(c), steps)
    ensures Execute(c, Initial(c), steps).Ok?
    ensures var s := Execute(c, Initial(c), steps).value;
            && |s.devs| == c.devCount
            && (forall i, j | 0 <= i < |s.devs| && 0 <= j < |s.devs| :: -1 <= s.devs[i].t - s.devs[j].t <= 1)
            && (forall m | m in s.ticks ::
                  && s.ticks[m] == 1 && m.dst < |s.devs|
                  && s.devs[m.dst].t <= m.t <= s.devs[m.dst].t + 1)
  {
    InitialInv(c);
    ScheduleKeepsInv(c, Initial(c), steps);
    var s := Execute(c, Initial(c), steps).value;
    forall i, j | 0 <= i < |s.devs| && 0 <= j < |s.devs| ensures -1 <= s.devs[i].t - s.devs[j].t <= 1 {
      assert s.devs[j].t <= s.devs[i].t + 1;
    }
    forall m | m in s.ticks
      ensures s.ticks[m] == 1 && m.dst < |s.devs| && s.devs[m.dst].t <= m.t <= s.devs[m.dst].t + 1
    {
      TickIsExpected(c, s, m);
    }
  }

  lemma SeenAll(c: Config, s: Net)
    requires Inv(c, s)
    ensures s.seen <= c.devCount
    ensures s.seen == c.devCount <==>
              s.dones == multiset{} && forall i | 0 <= i < |s.devs| :: s.devs[i].halted && s.devs[i].t == c.maxTime
  {
    var h := HaltedSet(s);
    BoundedSet(h, c.devCount);
    if s.seen == c.devCount {
      assert |s.dones| == 0;
      forall i | 0 <= i < |s.devs| ensures s.devs[i].halted && s.devs[i].t == c.maxTime {
        assert i in h;
      }
    }
    if s.dones == multiset{} && forall i | 0 <= i < |s.devs| :: s.devs[i].halted && s.devs[i].t == c.maxTime {
      WholeSet(h, c.devCount);
    }
  }

  /** When the halt device has counted every device, every device has finished and halted, and none of their
      done messages is left. */
  lemma {:induction false} SeenAllMeansAllDone(c: Config, steps: seq<Step>)
    requires IsSchedule(c, Initial(c), steps) && Execute(c, Initial(c), steps).Ok?
    ensures var s := Execute(c, Initial(c), steps).value;
            s.seen <= c.devCount
            && (s.seen == c.devCount <==>
                s.dones == multiset{} && forall i | 0 <= i < |s.devs| :: s.devs[i].halted && s.devs[i].t == c.maxTime)
  {
    InitialInv(c);
    ScheduleKeepsInv(c, Initial(c), steps);
    SeenAll(c, Execute(c, Initial(c), steps).value);
  }

  // ----- progress -----

  /** The state in which every device has reached maxTime, halted, and been counted. */
  function Final(c: Config): Net {
    Net(seq(c.devCount, _ => Dev(c.maxTime, c.devCount, 0, true)), multiset{}, multiset{}, c.devCount)
  }

  lemma {:induction false} LeastTime(devs: seq<Dev>) returns (i: nat)
    requires devs != []
    ensures i < |devs| && forall j | 0 <= j < |devs| :: devs[i].t <= devs[j].t
  {
    i := 0;
    if |devs| > 1 {
      var k := LeastTime(devs[1..]);
      i := if devs[0].t <= devs[k + 1].t then 0 else k + 1;
      forall j | 0 <= j < |devs| ensures devs[i].t <= devs[j].t {
        if j > 0 { assert devs[j] == devs[1..][j - 1]; }
      }
    }
  }

  /** With no tick in flight, a device that is ahead of nobody has heard from everybody. */
  lemma LeastIsFull(c: Config, s: Net, i: nat, k: nat)
    requires |s.devs| == c.devCount && s.ticks == multiset{} && i < |s.devs|
    requires forall j | 0 <= j < |s.devs| :: k <= s.devs[j].t
    ensures Heard(s, i, k) == c.devCount
  {
    WholeSet(Reached(s, i, k), c.devCount);
  }

  lemma QuietTimes(c: Config, s: Net)
    requires Inv(c, s) && Quiescent(c, s)
    ensures forall i | 0 <= i < |s.devs| :: s.devs[i].t == c.maxTime && s.devs[i].halted
  {
    if s.devs != [] {
      var i := LeastTime(s.devs);
      LeastIsFull(c, s, i, s.devs[i].t);
      assert CountsRight(s, i);
      FlagCases(c, s.devs[i]);
      assert !Enabled(c, s, Out(i));
      assert s.devs[i].t == c.maxTime;
      forall j | 0 <= j < |s.devs| ensures s.devs[j].t == c.maxTime && s.devs[j].halted {
        FlagCases(c, s.devs[j]);
        assert !Enabled(c, s, Halt(j));
      }
    }
  }

  lemma QuietCounts(c: Config, s: Net, i: nat)
    requires |s.devs| == c.devCount && s.ticks == multiset{} && i < |s.devs| && CountsRight(s, i)
    requires forall j | 0 <= j < |s.devs| :: s.devs[j].t == c.maxTime
    ensures s.devs[i].seenNow == c.devCount && s.devs[i].seenNext == 0
  {
    LeastIsFull(c, s, i, c.maxTime);
    assert Reached(s, i, c.maxTime + 1) == {};
  }

  lemma QuietIsFinal(c: Config, s: Net)
    requires Inv(c, s) && Quiescent(c, s)
    ensures s == Final(c)
  {
    QuietTimes(c, s);
    forall i: nat | i < |s.devs| ensures s.devs[i] == Final(c).devs[i] {
      assert CountsRight(s, i);
      QuietCounts(c, s, i);
    }
    assert s.devs == Final(c).devs;
    WholeSet(HaltedSet(s), c.devCount);
  }

  lemma FinalIsQuiet(c: Config)
    ensures Quiescent(c, Final(c)) && Work(c, Final(c)) == 0
  {
    var d := Dev(c.maxTime, c.devCount, 0, true);
    SumWorkUniform(c, Final(c).devs, d);
    FlagCases(c, d);
  }

  lemma NoWorkMeansQuiet(c: Config, s: Net)
    requires Inv(c, s) && Work(c, s) == 0
    ensures Quiescent(c, s)
  {
    SumWorkBounds(c, s.devs);
    assert |s.ticks| == 0 && |s.dones| == 0;
    forall i | 0 <= i < |s.devs| ensures !Enabled(c, s, Out(i)) && !Enabled(c, s, Halt(i)) {
      forall step: Step | (step == Out(i) || step == Halt(i)) && Enabled(c, s, step) ensures false {
        StepKeepsInv(c, s, step);
        StepUsesOne(c, s, step);
        SumWorkBounds(c, Apply(c, s, step).value.devs);
      }
    }
  }

  /** Every run is finite: it has at most TotalWork steps, and it can be extended exactly until it has that many.
      Whatever the order of sends and deliveries, it then ends in the one final state. */
  lemma {:induction false} EveryRunReachesFinal(c: Config, steps: seq<Step>)
    requires IsSchedule(c, Initial(c), steps) && Execute(c, Initial(c), steps).Ok?
    ensures |steps| <= TotalWork(c)
    ensures var s := Execute(c, Initial(c), steps).value;
            && (Quiescent(c, s) <==> |steps| == TotalWork(c))
            && (Quiescent(c, s) <==> s == Final(c))
  {
    InitialInv(c);
    InitialWork(c);
    ScheduleKeepsInv(c, Initial(c), steps);
    var s := Execute(c, Initial(c), steps).value;
    SumWorkBounds(c, s.devs);
    FinalIsQuiet(c);
    if Quiescent(c, s) { QuietIsFinal(c, s); }
    if |steps| == TotalWork(c) { NoWorkMeansQuiet(c, s); }
  }
}

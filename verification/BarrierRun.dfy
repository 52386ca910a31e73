/** The barrier run on objects: devices step by their own handlers, on the pin that the softswitch would select. */
module BarrierRun {
  import opened Words
  import opened Outcomes
  import opened Barrier
  import opened BarrierProofs
  import opened BarrierTheorems

  class Network {
    const c: Config
    const devs: seq<DevState>
    const halt: HaltState
    var ticks: multiset<Tick>
    var dones: multiset<nat>
    /** What the network holds, as Barrier sees it. */
    ghost var model: Net

    ghost predicate Mirrored(i: nat)
      reads this`model, devs
    {
      i < |devs| ==> i < |model.devs| && model.devs[i] == devs[i].View()
    }

    ghost predicate Apart(i: nat, j: nat) {
      i < |devs| && j < |devs| && i != j ==> devs[i] != devs[j]
    }

    ghost predicate Valid()
      reads this, devs, halt
    {
      && (forall i: nat, j: nat :: Apart(i, j))
      && |model.devs| == |devs| && (forall i: nat :: Mirrored(i))
      && model.ticks == ticks && model.dones == dones && model.seen == halt.seen
    }

    constructor (c: Config, devs: seq<DevState>, halt: HaltState)
      requires |devs| == c.devCount && forall i, j | 0 <= i < j < |devs| :: devs[i] != devs[j]
      requires forall d | d in devs :: d.View() == Dev(0, c.devCount, 0, false)
      requires halt.seen == 0
      ensures this.c == c && this.devs == devs && this.halt == halt && Valid() && model == Initial(c)
    {
      this.c, this.devs, this.halt, ticks, dones := c, devs, halt, multiset{}, multiset{};
      model := Initial(c);
      new;
      forall i: nat ensures Mirrored(i) {
      }
    }

    twostate lemma OthersMirrored(i: nat)
      requires i < |devs| == |old(model.devs)| && old(forall j: nat :: Mirrored(j))
      requires forall j: nat | j < |devs| && j != i :: devs[j].View() == old(devs[j].View())
      requires model.devs == old(model).devs[i := devs[i].View()]
      ensures forall j: nat :: Mirrored(j)
    {
      forall j: nat ensures Mirrored(j) {
        assert old(Mirrored(j));
      }
    }

    /** Send from device i: ask it for its flags, and run the handler of the lowest pin that is set. */
    method Fire(i: nat) returns (ok: bool)
      requires Valid() && i < |devs|
      requires Enabled(c, model, Out(i)) || Enabled(c, model, Halt(i))
      modifies this, devs[i]
      ensures ok && Valid()
      ensures var step := if old(Enabled(c, model, Out(i))) then Out(i) else Halt(i);
              Ok(model) == Apply(c, old(model), step)
    {
      assert Mirrored(i);
      FlagCases(c, model.devs[i]);
      var flags := devs[i].DevReadyToSendHandler(c);
      var pin := RightMostOne(flags);
      if pin == 0 {
        var t;
        ok, t := devs[i].DevOutSendHandler(c);
        ticks := ticks + Broadcast(c.devCount, i, t);
      } else {
        ok := true;
        devs[i].DevHaltSendHandler();
        dones := dones + multiset{i};
      }
      forall j: nat | j < |devs| && j != i ensures devs[j].View() == old(devs[j].View()) {
        assert Apart(i, j);
      }
      model := Net(model.devs[i := devs[i].View()], ticks, dones, halt.seen);
      OthersMirrored(i);
    }

    /** Deliver a tick: false when the handler's assertion fails. */
    method Deliver(tick: Tick) returns (ok: bool)
      requires Valid() && tick in ticks && tick.dst < |devs|
      modifies this, devs[tick.dst]
      ensures ok <==> Apply(c, old(model), Arrive(tick)).Ok?
      ensures ok ==> Valid() && Ok(model) == Apply(c, old(model), Arrive(tick))
    {
      assert Mirrored(tick.dst);
      ok := devs[tick.dst].DevInReceiveHandler(tick.t);
      if ok {
        ticks := ticks - multiset{tick};
        forall j: nat | j < |devs| && j != tick.dst ensures devs[j].View() == old(devs[j].View()) {
          assert Apart(tick.dst, j);
        }
        model := Net(model.devs[tick.dst := devs[tick.dst].View()], ticks, dones, halt.seen);
        OthersMirrored(tick.dst);
      }
    }

    /** Deliver a done message to the halt device, which reports when it has counted them all. */
    method DeliverDone(src: nat) returns (allHalted: bool)
      requires Valid() && src in dones
      modifies this, halt
      ensures Valid() && Ok(model) == Apply(c, old(model), ArriveDone(src))
      ensures allHalted <==> model.seen == c.devCount
    {
      allHalted := halt.HaltInReceiveHandler(c);
      dones := dones - multiset{src};
      model := model.(dones := dones, seen := halt.seen);
      forall i: nat ensures Mirrored(i) {
        assert old(Mirrored(i));
      }
    }

    /** One step; no handler's assertion fails, and when the halt device reports that all have halted, they have. */
    method Step(step: Step) returns (allHalted: bool)
      requires Valid() && Barrier.Inv(c, model) && Enabled(c, model, step)
      modifies this, devs, halt
      ensures Valid() && Barrier.Inv(c, model) && Ok(model) == Apply(c, old(model), step)
      ensures allHalted ==> forall d | d in devs :: d.halted && d.t == c.maxTime
    {
      StepKeepsInv(c, model, step);
      allHalted := false;
      match step {
        case Out(i) =>
          var ok := Fire(i);
        case Halt(i) =>
          FlagCases(c, model.devs[i]);
          var ok := Fire(i);
        case Arrive(tick) =>
          TickIsExpected(c, model, tick);
          var ok := Deliver(tick);
        case ArriveDone(src) =>
          allHalted := DeliverDone(src);
      }
      if allHalted { AllDone(); }
    }

    lemma AllDone()
      requires Valid() && Barrier.Inv(c, model) && model.seen == c.devCount
      ensures forall d | d in devs :: d.halted && d.t == c.maxTime
    {
      SeenAll(c, model);
      forall d | d in devs ensures d.halted && d.t == c.maxTime {
        var i: nat :| i < |devs| && devs[i] == d;
        assert Mirrored(i);
      }
    }

    /** Any schedule of sends and deliveries, in any order. */
    method Run(steps: seq<Barrier.Step>)
      requires Valid() && Barrier.Inv(c, model) && IsSchedule(c, model, steps)
      modifies this, devs, halt
      ensures Valid() && Barrier.Inv(c, model) && Ok(model) == Execute(c, old(model), steps)
    {
      ghost var end := Execute(c, model, steps);
      for k := 0 to |steps|
        invariant Valid() && Barrier.Inv(c, model)
        invariant IsSchedule(c, model, steps[k..]) && end == Execute(c, model, steps[k..])
      {
        assert steps[k..][1..] == steps[k + 1..];
        var allHalted := Step(steps[k]);
      }
    }
  }

  /** A whole barrier, from power-up. No assertion fails whatever the schedule; and once it can go no further every
      device object has reached maxTime and halted, and the halt device has counted them all. */
  method RunBarrier(c: Config, devs: seq<DevState>, halt: HaltState, steps: seq<Step>) returns (net: Network)
    requires |devs| == c.devCount && forall i, j | 0 <= i < j < |devs| :: devs[i] != devs[j]
    requires forall d | d in devs :: d.View() == Dev(0, c.devCount, 0, false)
    requires halt.seen == 0 && IsSchedule(c, Initial(c), steps)
    modifies devs, halt
    ensures fresh(net) && net.devs == devs && net.halt == halt && net.Valid()
    ensures Ok(net.model) == Execute(c, Initial(c), steps)
    ensures Quiescent(c, net.model) <==> |steps| == TotalWork(c)
    ensures |steps| == TotalWork(c) ==>
              halt.seen == c.devCount && forall d | d in devs :: d.t == c.maxTime && d.halted
  {
    InitialInv(c);
    net := new Network(c, devs, halt);
    net.Run(steps);
    EveryRunReachesFinal(c, steps);
    if |steps| == TotalWork(c) { net.AllDone(); }
  }
}

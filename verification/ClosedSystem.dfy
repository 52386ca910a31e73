/** Several threads and the packets between them, closed: every packet comes from a thread's send handler and goes
    where the sender's target list says. */
module ClosedSystem {
  import opened Outcomes
  import opened Devices
  import opened HostRing
  import opened Scheduler
  import opened SchedulerProofs
  import opened MainLoop
  import opened MainProofs
  import opened Multicast

  /** flying: the packets given to the network and not yet received, each on its way to the thread it was given for, in
      no order. */
  datatype Threads = Threads(threads: seq<Main>, flying: multiset<Mail>)

  /** A turn of thread t. */
  datatype Turn = Turn(t: nat, e: Inputs)

  // ----- where packets go -----

  /** A packet is on its way to a thread that has the device, pin and edge it is addressed to. */
  predicate Routed(apps: seq<App>, p: Mail) {
    p.to < |apps| && Deliverable(apps[p.to], p.packet)
  }

  function MailTo(target: Address, source: Address): Mail {
    Mail(target.thread, Packet(target, source, []))
  }

  /** Each target of an output pin has an input pin for it and, if that pin uses edge data, an edge back to the pin. */
  ghost predicate PinWired(apps: seq<App>, c: Config, app: App, i: nat, o: nat) {
    i < |app| && o < |app[i].outputs| && !app[i].outputs[o].isApp ==>
      forall target | target in app[i].outputs[o].targets :: Routed(apps, MailTo(target, Address(c.thread, i, o)))
  }

  /** Target lists and source tables agree, as for the tables that are generated together. */
  ghost predicate Wired(cs: seq<Config>, apps: seq<App>) {
    && |cs| == |apps|
    && (forall t | 0 <= t < |apps| :: cs[t].thread == t && WellFormed(apps[t]))
    && forall t: nat, i: nat, o: nat | t < |apps| :: PinWired(apps, cs[t], apps[t], i, o)
  }

  ghost predicate AllRouted(apps: seq<App>, packets: seq<Mail>) {
    forall p | p in packets :: Routed(apps, p)
  }

  // ----- steps -----

  /** The device packets that a turn has sent. */
  function Sent(m: Main, m': Main): seq<Mail> {
    var before, after := DevicePackets(m.out), DevicePackets(m'.out);
    if |before| <= |after| then after[|before|..] else []
  }

  ghost predicate Shapely(apps: seq<App>, s: Threads) {
    |s.threads| == |apps| && forall t | 0 <= t < |apps| :: Shaped(apps[t], s.threads[t])
  }

  /** The hardware behaves, and a packet that can be received is one that is in flight to this thread. */
  ghost predicate Enabled(cs: seq<Config>, apps: seq<App>, s: Threads, turn: Turn)
    requires Shapely(apps, s) && |cs| == |apps|
  {
    && turn.t < |apps|
    && HardwareOk(apps[turn.t], s.threads[turn.t], turn.e)
    && (turn.e.canRecvAfter ==> Mail(cs[turn.t].thread, turn.e.packet) in s.flying)
  }

  function Apply(cs: seq<Config>, apps: seq<App>, s: Threads, turn: Turn): Outcome<Threads>
    requires turn.t < |s.threads| == |apps| == |cs| && Shaped(apps[turn.t], s.threads[turn.t])
  {
    var c, app, m, e := cs[turn.t], apps[turn.t], s.threads[turn.t], turn.e;
    var m' :- Iterate(c, app, m, e);
    var left := if Receives(c, app, m, e) then s.flying - multiset{Mail(c.thread, e.packet)} else s.flying;
    Ok(Threads(s.threads[turn.t := m'], left + multiset(Sent(m, m'))))
  }

  // ----- the invariant -----

  ghost predicate ThreadInv(apps: seq<App>, s: Threads, t: nat) {
    t < |apps| && t < |s.threads| ==> MainInv(apps[t], s.threads[t]) && AllRouted(apps, Remaining(s.threads[t]))
  }

  ghost predicate Inv(apps: seq<App>, s: Threads) {
    && |s.threads| == |apps|
    && (forall t: nat :: ThreadInv(apps, s, t))
    && forall p | p in s.flying :: Routed(apps, p)
  }

  lemma InvIsShapely(apps: seq<App>, s: Threads)
    requires Inv(apps, s)
    ensures Shapely(apps, s)
  {
    forall t | 0 <= t < |apps| ensures Shaped(apps[t], s.threads[t]) {
      assert ThreadInv(apps, s, t);
    }
  }

  lemma {:induction false} PacketsConcat(a: seq<Output>, b: seq<Output>)
    ensures DevicePackets(a + b) == DevicePackets(a) + DevicePackets(b)
  {
    if a == [] {
      assert a + b == b;
    } else {
      assert (a + b)[0] == a[0] && (a + b)[1..] == a[1..] + b;
      PacketsConcat(a[1..], b);
    }
  }

  lemma PacketsGrow(a: seq<Output>, b: seq<Output>)
    requires a <= b
    ensures |DevicePackets(a)| <= |DevicePackets(b)|
  {
    assert b == a + b[|a|..];
    PacketsConcat(a, b[|a|..]);
  }

  lemma SendNextGrows(c: Config, app: App, m: Main, e: Inputs)
    requires Shaped(app, m) && SendNext(c, app, m, e).Ok?
    ensures m.out <= SendNext(c, app, m, e).value.out
  {
    if m.todo == 0 {
      var m1 := Prepare(c, app, m, e).value;
      assert m1.out == m.out;
    }
  }

  lemma OutGrows(c: Config, app: App, m: Main, e: Inputs)
    requires Shaped(app, m) && Iterate(c, app, m, e).Ok?
    ensures m.out <= Iterate(c, app, m, e).value.out
  {
    var m1 := MakeSpace(m);
    assert m.out <= m1.out;
    if !RunsIdle(app, m, e) && (WantToSend(m) || !e.systemIdle) && !PrefersRecv(c, m, e) {
      if m.host == [] { SendNextGrows(c, app, m1, e); }
    }
  }

  lemma {:induction false} TargetsRouted(apps: seq<App>, targets: seq<Address>, source: Address, payload: Blob)
    requires forall target | target in targets :: Routed(apps, MailTo(target, source))
    ensures AllRouted(apps, PacketsTo(targets, source, payload))
  {
    if targets != [] {
      assert Routed(apps, MailTo(targets[0], source));
      TargetsRouted(apps, targets[1..], source, payload);
    }
  }

  lemma CallsRouted(cs: seq<Config>, apps: seq<App>, t: nat, m: Main, e: Inputs)
    requires Wired(cs, apps) && t < |apps| && MainInv(apps[t], m)
    ensures AllRouted(apps, PacketsOf(CallOf(cs[t], apps[t], m, e)))
  {
    var calls := CallOf(cs[t], apps[t], m, e);
    if calls != [] {
      var call := calls[0];
      SendKeepsInv(apps[t], cs[t].thread, m.sched);
      OneCall(call);
      assert PinWired(apps, cs[t], apps[t], call.source.device, call.source.pin);
      if !call.pin.isApp { TargetsRouted(apps, call.pin.targets, call.source, call.payload); }
    }
  }

  /** What a turn has sent and still owes is what was owed before and what its send handler asks for. */
  lemma SentAndOwed(c: Config, app: App, m: Main, e: Inputs)
    requires WellFormed(app) && MainInv(app, m) && InputsOk(app, m, e) && Iterate(c, app, m, e).Ok?
    ensures var m' := Iterate(c, app, m, e).value;
            Sent(m, m') + Remaining(m') == Remaining(m) + PacketsOf(CallOf(c, app, m, e))
  {
    var m' := Iterate(c, app, m, e).value;
    IterateAccounts(c, app, m, e);
    OutGrows(c, app, m, e);
    PacketsGrow(m.out, m'.out);
    Cancel(DevicePackets(m.out), DevicePackets(m'.out), Remaining(m'), Remaining(m), PacketsOf(CallOf(c, app, m, e)));
  }

  lemma Cancel(a: seq<Mail>, b: seq<Mail>, r: seq<Mail>, x: seq<Mail>, y: seq<Mail>)
    requires b + r == a + x + y && |a| <= |b|
    ensures b[|a|..] + r == x + y
  {
    assert (b + r)[|a|..] == b[|a|..] + r;
    assert (a + x + y)[|a|..] == x + y;
  }

  lemma BothRouted(apps: seq<App>, a: seq<Mail>, b: seq<Mail>, x: seq<Mail>, y: seq<Mail>)
    requires a + b == x + y && AllRouted(apps, x) && AllRouted(apps, y)
    ensures AllRouted(apps, a) && AllRouted(apps, b)
  {
    forall p | p in a || p in b ensures Routed(apps, p) {
      assert p in a + b;
    }
  }

  lemma TurnRouted(cs: seq<Config>, apps: seq<App>, t: nat, m: Main, e: Inputs)
    requires Wired(cs, apps) && t < |apps| && MainInv(apps[t], m) && InputsOk(apps[t], m, e)
    requires AllRouted(apps, Remaining(m)) && Iterate(cs[t], apps[t], m, e).Ok?
    ensures var m' := Iterate(cs[t], apps[t], m, e).value;
            MainInv(apps[t], m') && AllRouted(apps, Sent(m, m')) && AllRouted(apps, Remaining(m'))
  {
    var m' := Iterate(cs[t], apps[t], m, e).value;
    IterateKeepsInv(cs[t], apps[t], m, e);
    CallsRouted(cs, apps, t, m, e);
    SentAndOwed(cs[t], apps[t], m, e);
    BothRouted(apps, Sent(m, m'), Remaining(m'), Remaining(m), PacketsOf(CallOf(cs[t], apps[t], m, e)));
  }

  // ----- every run -----

  /** In a closed system a turn fails an assertion exactly when MainProofs.TurnFails: that what is received exists need
      not be assumed. Otherwise the invariant is kept. */
  lemma StepKeepsInv(cs: seq<Config>, apps: seq<App>, s: Threads, turn: Turn)
    requires Wired(cs, apps) && Inv(apps, s) && Shapely(apps, s) && Enabled(cs, apps, s, turn)
    ensures Apply(cs, apps, s, turn).Ok? <==> !TurnFails(cs[turn.t], apps[turn.t], s.threads[turn.t], turn.e)
    ensures Apply(cs, apps, s, turn).Ok? ==> Inv(apps, Apply(cs, apps, s, turn).value)
  {
    var t, m, e := turn.t, s.threads[turn.t], turn.e;
    assert ThreadInv(apps, s, t);
    assert InputsOk(apps[t], m, e);
    IterateKeepsInv(cs[t], apps[t], m, e);
    if Apply(cs, apps, s, turn).Ok? {
      var s' := Apply(cs, apps, s, turn).value;
      TurnRouted(cs, apps, t, m, e);
      forall u: nat ensures ThreadInv(apps, s', u) {
        assert ThreadInv(apps, s, u);
      }
      forall p | p in s'.flying ensures Routed(apps, p) {
        assert p in s.flying || p in Sent(m, s'.threads[t]);
      }
    }
  }

  /** Turns of any threads in any order, up to the first assertion that fails. */
  ghost predicate IsSchedule(cs: seq<Config>, apps: seq<App>, s: Threads, turns: seq<Turn>)
    requires |cs| == |apps|
    decreases |turns|
  {
    turns == [] ||
    (Shapely(apps, s) && Enabled(cs, apps, s, turns[0]) &&
     var next := Apply(cs, apps, s, turns[0]);
     next.Ok? ==> IsSchedule(cs, apps, next.value, turns[1..]))
  }

  ghost function Execute(cs: seq<Config>, apps: seq<App>, s: Threads, turns: seq<Turn>): Outcome<Threads>
    requires |cs| == |apps| && IsSchedule(cs, apps, s, turns)
    decreases |turns|
  {
    if turns == [] then Ok(s) else
      var next :- Apply(cs, apps, s, turns[0]);
      Execute(cs, apps, next, turns[1..])
  }

  lemma {:induction false} RunKeepsInv(cs: seq<Config>, apps: seq<App>, s: Threads, turns: seq<Turn>)
    requires Wired(cs, apps) && Inv(apps, s) && IsSchedule(cs, apps, s, turns) && Execute(cs, apps, s, turns).Ok?
    ensures Inv(apps, Execute(cs, apps, s, turns).value)
    decreases |turns|
  {
    if turns != [] {
      StepKeepsInv(cs, apps, s, turns[0]);
      RunKeepsInv(cs, apps, Apply(cs, apps, s, turns[0]).value, turns[1..]);
    }
  }

  /** The thread is about to enter its loop. */
  ghost predicate JustStarted(app: App, m: Main) {
    exists boot: Sched, buffer: Buffer, pushed: seq<HostMsg> ::
      Boot(app, boot) && m == Started(app, boot, buffer, pushed)
  }

  /** Every thread is, and nothing is in flight. */
  ghost predicate PoweredUp(apps: seq<App>, s: Threads) {
    && |s.threads| == |apps| && s.flying == multiset{}
    && forall t | 0 <= t < |apps| :: JustStarted(apps[t], s.threads[t])
  }

  lemma StartedInv(app: App, m: Main)
    requires JustStarted(app, m)
    ensures MainInv(app, m) && Remaining(m) == []
  {
  }

  lemma PoweredUpInv(apps: seq<App>, s: Threads)
    requires PoweredUp(apps, s)
    ensures Inv(apps, s)
  {
    forall t: nat ensures ThreadInv(apps, s, t) {
      if t < |apps| { StartedInv(apps[t], s.threads[t]); }
    }
  }

  /** From power-up, whatever the threads do and in whatever order packets arrive: every packet in flight is on its way
      to a thread that has the device, pin and edge it is addressed to; and the next turn of any thread fails an
      assertion exactly when MainProofs.TurnFails. */
  lemma {:induction false} EveryPacketIsDeliverable(
      cs: seq<Config>, apps: seq<App>, s: Threads, turns: seq<Turn>, next: Turn)
    requires Wired(cs, apps) && PoweredUp(apps, s)
    requires IsSchedule(cs, apps, s, turns) && Execute(cs, apps, s, turns).Ok?
    ensures var s' := Execute(cs, apps, s, turns).value;
            && Shapely(apps, s')
            && (forall p | p in s'.flying :: p.to < |apps| && Deliverable(apps[p.to], p.packet))
            && (Enabled(cs, apps, s', next) ==>
                  (Apply(cs, apps, s', next).Ok?
                   <==> !TurnFails(cs[next.t], apps[next.t], s'.threads[next.t], next.e)))
  {
    PoweredUpInv(apps, s);
    RunKeepsInv(cs, apps, s, turns);
    var s' := Execute(cs, apps, s, turns).value;
    InvIsShapely(apps, s');
    forall p | p in s'.flying ensures p.to < |apps| && Deliverable(apps[p.to], p.packet) {
      assert Routed(apps, p);
    }
    if Enabled(cs, apps, s', next) { StepKeepsInv(cs, apps, s', next); }
  }

  // ----- conservation -----

  /** How often a packet occurs. */
  ghost function Copies(mails: seq<Mail>, x: Mail): nat {
    multiset(mails)[x]
  }

  lemma CopiesAgree(a: seq<Mail>, b: seq<Mail>, c: seq<Mail>, d: seq<Mail>, x: Mail)
    requires a + b == c + d
    ensures Copies(a, x) + Copies(b, x) == Copies(c, x) + Copies(d, x)
  {
    assert multiset(a + b)[x] == multiset(a)[x] + multiset(b)[x];
    assert multiset(c + d)[x] == multiset(c)[x] + multiset(d)[x];
  }

  /** The copies of a packet that the threads have still to send, of the messages that they are half way through. */
  ghost function Owed(threads: seq<Main>, x: Mail): nat {
    if threads == [] then 0 else Copies(Remaining(threads[0]), x) + Owed(threads[1..], x)
  }

  lemma {:induction false} OwedUpdate(threads: seq<Main>, t: nat, m: Main, x: Mail)
    requires t < |threads|
    ensures Owed(threads[t := m], x) + Copies(Remaining(threads[t]), x)
         == Owed(threads, x) + Copies(Remaining(m), x)
  {
    if t == 0 {
      assert threads[0 := m][1..] == threads[1..];
    } else {
      assert threads[t := m][1..] == threads[1..][t - 1 := m];
      assert threads[t := m][0] == threads[0];
      OwedUpdate(threads[1..], t - 1, m, x);
    }
  }

  /** The copies of a packet that a turn's send handler asks for. */
  ghost function AskedIn(cs: seq<Config>, apps: seq<App>, s: Threads, turn: Turn, x: Mail): nat
    requires turn.t < |s.threads| == |apps| == |cs| && Shaped(apps[turn.t], s.threads[turn.t])
  {
    Copies(PacketsOf(CallOf(cs[turn.t], apps[turn.t], s.threads[turn.t], turn.e)), x)
  }

  /** The copies of a packet that a turn receives, at the thread that it is for. */
  ghost function GotIn(cs: seq<Config>, apps: seq<App>, s: Threads, turn: Turn, x: Mail): nat
    requires turn.t < |s.threads| == |apps| == |cs| && Shaped(apps[turn.t], s.threads[turn.t])
  {
    if Receives(cs[turn.t], apps[turn.t], s.threads[turn.t], turn.e) && x.to == turn.t && x.packet == turn.e.packet
    then 1 else 0
  }

  /** What the send handlers of all threads ask for in a run, and what all threads receive. */
  ghost function Asked(cs: seq<Config>, apps: seq<App>, s: Threads, turns: seq<Turn>, x: Mail): nat
    requires |cs| == |apps| && IsSchedule(cs, apps, s, turns) && Execute(cs, apps, s, turns).Ok?
    decreases |turns|
  {
    if turns == [] then 0
    else AskedIn(cs, apps, s, turns[0], x) + Asked(cs, apps, Apply(cs, apps, s, turns[0]).value, turns[1..], x)
  }

  ghost function Got(cs: seq<Config>, apps: seq<App>, s: Threads, turns: seq<Turn>, x: Mail): nat
    requires |cs| == |apps| && IsSchedule(cs, apps, s, turns) && Execute(cs, apps, s, turns).Ok?
    decreases |turns|
  {
    if turns == [] then 0
    else GotIn(cs, apps, s, turns[0], x) + Got(cs, apps, Apply(cs, apps, s, turns[0]).value, turns[1..], x)
  }

  lemma ReceivesOnlyWhenItCan(c: Config, app: App, m: Main, e: Inputs)
    requires Shaped(app, m) && Receives(c, app, m, e) && Iterate(c, app, m, e).Ok?
    ensures e.canRecvAfter
  {
  }

  lemma FlyingAfter(cs: seq<Config>, apps: seq<App>, s: Threads, turn: Turn, x: Mail)
    requires Wired(cs, apps) && Shapely(apps, s) && Enabled(cs, apps, s, turn) && Apply(cs, apps, s, turn).Ok?
    ensures var s' := Apply(cs, apps, s, turn).value;
            |s'.threads| == |s.threads| &&
            s'.flying[x] + GotIn(cs, apps, s, turn, x)
            == s.flying[x] + Copies(Sent(s.threads[turn.t], s'.threads[turn.t]), x)
  {
    var c, app, m, e := cs[turn.t], apps[turn.t], s.threads[turn.t], turn.e;
    if Receives(c, app, m, e) { ReceivesOnlyWhenItCan(c, app, m, e); }
  }

  lemma TurnOwes(cs: seq<Config>, apps: seq<App>, s: Threads, turn: Turn, x: Mail)
    requires Wired(cs, apps) && Inv(apps, s) && Shapely(apps, s) && Enabled(cs, apps, s, turn)
    requires Apply(cs, apps, s, turn).Ok?
    ensures var m, m' := s.threads[turn.t], Apply(cs, apps, s, turn).value.threads[turn.t];
            Copies(Sent(m, m'), x) + Copies(Remaining(m'), x)
            == Copies(Remaining(m), x) + AskedIn(cs, apps, s, turn, x)
  {
    var c, app, m := cs[turn.t], apps[turn.t], s.threads[turn.t];
    var m' := Iterate(c, app, m, turn.e).value;
    assert ThreadInv(apps, s, turn.t);
    assert InputsOk(app, m, turn.e);
    SentAndOwed(c, app, m, turn.e);
    CopiesAgree(Sent(m, m'), Remaining(m'), Remaining(m), PacketsOf(CallOf(c, app, m, turn.e)), x);
  }

  lemma TurnConserves(cs: seq<Config>, apps: seq<App>, s: Threads, turn: Turn, x: Mail)
    requires Wired(cs, apps) && Inv(apps, s) && Shapely(apps, s) && Enabled(cs, apps, s, turn)
    requires Apply(cs, apps, s, turn).Ok?
    ensures var s' := Apply(cs, apps, s, turn).value;
            s'.flying[x] + Owed(s'.threads, x) + GotIn(cs, apps, s, turn, x)
            == s.flying[x] + Owed(s.threads, x) + AskedIn(cs, apps, s, turn, x)
  {
    FlyingAfter(cs, apps, s, turn, x);
    TurnOwes(cs, apps, s, turn, x);
    OwedUpdate(s.threads, turn.t, Apply(cs, apps, s, turn).value.threads[turn.t], x);
  }

  lemma {:induction false} RunConserves(cs: seq<Config>, apps: seq<App>, s: Threads, turns: seq<Turn>, x: Mail)
    requires Wired(cs, apps) && Inv(apps, s)
    requires IsSchedule(cs, apps, s, turns) && Execute(cs, apps, s, turns).Ok?
    ensures var s' := Execute(cs, apps, s, turns).value;
            s'.flying[x] + Owed(s'.threads, x) + Got(cs, apps, s, turns, x)
            == s.flying[x] + Owed(s.threads, x) + Asked(cs, apps, s, turns, x)
    decreases |turns|
  {
    if turns != [] {
      StepKeepsInv(cs, apps, s, turns[0]);
      TurnConserves(cs, apps, s, turns[0], x);
      RunConserves(cs, apps, Apply(cs, apps, s, turns[0]).value, turns[1..], x);
    }
  }

  lemma {:induction false} NothingOwed(threads: seq<Main>, x: Mail)
    requires forall t | 0 <= t < |threads| :: Remaining(threads[t]) == []
    ensures Owed(threads, x) == 0
  {
    if threads != [] { NothingOwed(threads[1..], x); }
  }

  /** From power-up: every copy of a packet that the send handlers have asked for has been received by the thread of its
      target, or is in flight to it, or is still to be sent by its sender. None is lost, doubled or made up. */
  lemma {:induction false} PacketsConserved(cs: seq<Config>, apps: seq<App>, s: Threads, turns: seq<Turn>, x: Mail)
    requires Wired(cs, apps) && PoweredUp(apps, s)
    requires IsSchedule(cs, apps, s, turns) && Execute(cs, apps, s, turns).Ok?
    ensures var s' := Execute(cs, apps, s, turns).value;
            Got(cs, apps, s, turns, x) + s'.flying[x] + Owed(s'.threads, x) == Asked(cs, apps, s, turns, x)
  {
    PoweredUpInv(apps, s);
    forall t | 0 <= t < |apps| ensures Remaining(s.threads[t]) == [] {
      StartedInv(apps[t], s.threads[t]);
    }
    NothingOwed(s.threads, x);
    RunConserves(cs, apps, s, turns, x);
  }
}

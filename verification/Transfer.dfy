/** A transfer together with the host of its receiver: a pull leaves the receiver's queue only when the pacer's timer
  fires. The two machines run side by side and agree on the receiver, which is the host's only connection.
 */
module Transfer {
  import opened SeqNum
  import Net = PullProtocol
  import Pacer
  import Receiver

  datatype World = World(net: Net.Sys, host: Pacer.Host)

  datatype Action =
    | DeliverSymbol(k: nat, time: real)
    | Trim(k: nat)
    | DeliverHeader(time: real)
    | Fire
    | DeliverPull(r: nat)

  /** Both machines see the same receiver; symbols are numbered from 1. */
  ghost predicate Coupled(w: World) {
    && w.host.WellFormed() && w.host.conns == [w.net.rcv]
    && forall k :: k in w.net.flight ==> k >= 1
  }

  function Start(wanted: nat, window: nat): World {
    World(Net.Start(wanted, window), Pacer.Start([wanted], [window]))
  }

  predicate Enabled(w: World, a: Action) {
    match a
    case DeliverSymbol(k, t) => k in w.net.flight && Pacer.OnTime(w.host, t)
    case Trim(k) => k in w.net.flight
    case DeliverHeader(t) => w.net.headers > 0 && Pacer.OnTime(w.host, t)
    case Fire => w.host.timer.At?
    case DeliverPull(r) => r in w.net.pulls
  }

  /** What an action is to the protocol. A firing releases a pull if the pacer serves one. */
  function Shadow(w: World, a: Action): seq<Net.Action>
    requires w.host.WellFormed()
  {
    match a
    case DeliverSymbol(k, t) => [Net.DeliverSymbol(k)]
    case Trim(k) => [Net.Trim(k)]
    case DeliverHeader(t) => [Net.DeliverHeader]
    case Fire => if Pacer.Serves(w.host) then [Net.ReleasePull] else []
    case DeliverPull(r) => [Net.DeliverPull(r)]
  }

  /** The host takes part in an action. */
  predicate AtHost(a: Action) {
    a.DeliverSymbol? || a.DeliverHeader? || a.Fire?
  }

  /** What an action is to the host. */
  function EventOf(a: Action): Pacer.Event
    requires AtHost(a)
  {
    match a
    case DeliverSymbol(k, t) => Pacer.Symbol(0, k, t)
    case DeliverHeader(t) => Pacer.Header(0, t)
    case Fire => Pacer.Fire
  }

  lemma ShadowIsEnabled(w: World, a: Action)
    requires Coupled(w) && Enabled(w, a)
    ensures AtHost(a) ==> Pacer.Enabled(w.host, EventOf(a))
    ensures Shadow(w, a) != [] ==> Net.Enabled(w.net, Shadow(w, a)[0])
  {
    if a.Fire? && Pacer.Serves(w.host) {
      var s :| 0 <= s < |w.host.registered| && w.host.conns[w.host.registered[s]].pulls != [];
      assert w.host.registered[s] == 0;
    }
  }

  /** The protocol after at most one action. */
  function NetAfter(s: Net.Sys, q: seq<Net.Action>): Net.Sys
    requires |q| <= 1 && (q != [] ==> Net.Enabled(s, q[0]))
  {
    if q == [] then s else Net.Do(s, q[0])
  }

  function Do(w: World, a: Action): (v: World)
    requires Coupled(w) && Enabled(w, a)
    ensures v.host.WellFormed()
  {
    ShadowIsEnabled(w, a);
    World(NetAfter(w.net, Shadow(w, a)),
          if AtHost(a) then Pacer.Do(w.host, EventOf(a)) else w.host)
  }

  lemma FireStaysCoupled(w: World)
    requires Coupled(w) && w.host.timer.At?
    ensures Coupled(Do(w, Fire))
  {
    ShadowIsEnabled(w, Fire);
    var h := w.host.(now := w.host.timer.due, timer := Pacer.Off);
    if Pacer.Serves(w.host) {
      Pacer.NextSlotWaits(h);
      assert h.registered[Pacer.NextSlot(h)] == 0;
    }
  }

  lemma StepStaysCoupled(w: World, a: Action)
    requires Coupled(w) && Enabled(w, a)
    ensures Coupled(Do(w, a))
  {
    if a.Fire? {
      FireStaysCoupled(w);
    }
  }

  /** The run of `acts` from the start is possible. */
  ghost predicate Possible(wanted: nat, window: nat, acts: seq<Action>)
    decreases |acts|, 0
  {
    acts == [] ||
    (var front := acts[..|acts| - 1];
     Possible(wanted, window, front) && Enabled(Run(wanted, window, front), acts[|acts| - 1]))
  }

  ghost function Run(wanted: nat, window: nat, acts: seq<Action>): (w: World)
    requires Possible(wanted, window, acts)
    ensures Coupled(w)
    decreases |acts|, 1
  {
    if acts == [] then Start(wanted, window)
    else
      var w, a := Run(wanted, window, acts[..|acts| - 1]), acts[|acts| - 1];
      StepStaysCoupled(w, a);
      Do(w, a)
  }

  /** A full symbol delivered is the oldest one under way. */
  predicate KeepsOrder(w: World, a: Action) {
    a.DeliverSymbol? ==> forall k :: k in w.net.flight ==> a.k <= k
  }

  /** Every full symbol delivered is the oldest one under way. */
  ghost predicate InOrder(wanted: nat, window: nat, acts: seq<Action>)
    requires Possible(wanted, window, acts)
  {
    acts == [] ||
    (var front, a := acts[..|acts| - 1], acts[|acts| - 1];
     InOrder(wanted, window, front) && KeepsOrder(Run(wanted, window, front), a))
  }

  function Trims(acts: seq<Action>): nat {
    if acts == [] then 0
    else Trims(acts[..|acts| - 1]) + (if acts[|acts| - 1].Trim? then 1 else 0)
  }

  lemma RunAppend(wanted: nat, window: nat, front: seq<Action>, a: Action)
    requires Possible(wanted, window, front) && Enabled(Run(wanted, window, front), a)
    ensures var acts := front + [a];
            && Possible(wanted, window, acts)
            && Run(wanted, window, acts) == Do(Run(wanted, window, front), a)
            && Trims(acts) == Trims(front) + (if a.Trim? then 1 else 0)
            && (InOrder(wanted, window, acts) <==>
                  InOrder(wanted, window, front) && KeepsOrder(Run(wanted, window, front), a))
  {
    assert (front + [a])[..|front|] == front;
  }

  // ---------------------------------------------------------------- the run as the protocol sees it

  lemma StepKeepsNet(w: World, a: Action)
    requires Coupled(w) && Enabled(w, a) && Net.Inv(w.net) && w.net.rcv.window > 0 && w.net.rcv.requestId < HALF
    ensures var s, t := w.net, Do(w, a).net;
            && Net.Inv(t) && t.rcv.wanted == s.rcv.wanted && t.rcv.window == s.rcv.window
            && t.headers + t.headersSeen == s.headers + s.headersSeen + (if a.Trim? then 1 else 0)
  {
    ShadowIsEnabled(w, a);
    if Shadow(w, a) != [] {
      Net.StepKeepsInv(w.net, Shadow(w, a)[0]);
      Net.StepKeepsSizes(w.net, Shadow(w, a)[0]);
    }
  }

  /** What the protocol keeps in every run holds with the pacer too. */
  lemma {:induction false} RunKeepsNet(wanted: nat, window: nat, acts: seq<Action>)
    requires Possible(wanted, window, acts) && window > 0 && wanted + Trims(acts) < HALF
    ensures var s := Run(wanted, window, acts).net;
            && Net.Inv(s) && s.rcv.wanted == wanted && s.rcv.window == window
            && s.headers + s.headersSeen == Trims(acts)
  {
    if acts == [] {
      Net.StartInv(wanted, window);
    } else {
      var front, a := acts[..|acts| - 1], acts[|acts| - 1];
      var w := Run(wanted, window, front);
      RunKeepsNet(wanted, window, front);
      Net.RequestsAreFew(w.net);
      StepKeepsNet(w, a);
    }
  }

  lemma StepStaysAhead(w: World, a: Action)
    requires Coupled(w) && Enabled(w, a) && Net.Inv(w.net) && w.net.rcv.window > 0 && w.net.rcv.requestId < HALF
    requires Net.Ahead(w.net) && KeepsOrder(w, a)
    ensures Net.Ahead(Do(w, a).net) && Do(w, a).net.late == w.net.late
  {
    ShadowIsEnabled(w, a);
    if Shadow(w, a) != [] {
      Net.InOrderStepStaysAhead(w.net, Shadow(w, a)[0]);
    }
  }

  lemma {:induction false} InOrderIsNeverLate(wanted: nat, window: nat, acts: seq<Action>)
    requires Possible(wanted, window, acts) && InOrder(wanted, window, acts) && window > 0
    requires wanted + Trims(acts) < HALF
    ensures Net.Ahead(Run(wanted, window, acts).net) && Run(wanted, window, acts).net.late == 0
  {
    if acts == [] {
      Net.StartInv(wanted, window);
    } else {
      var front, a := acts[..|acts| - 1], acts[|acts| - 1];
      RunKeepsNet(wanted, window, front);
      Net.RequestsAreFew(Run(wanted, window, front).net);
      InOrderIsNeverLate(wanted, window, front);
      StepStaysAhead(Run(wanted, window, front), a);
    }
  }

  lemma StepIsNotLate(w: World, a: Action)
    requires Coupled(w) && Enabled(w, a) && Net.Inv(w.net) && w.net.rcv.wanted <= w.net.rcv.window + 1
    requires Net.StartsAtZero(w.net) && w.net.late == 0
    ensures Net.StartsAtZero(Do(w, a).net) && Do(w, a).net.late == 0
  {
    ShadowIsEnabled(w, a);
    if Shadow(w, a) != [] {
      Net.FewWantedStep(w.net, Shadow(w, a)[0]);
    }
  }

  lemma {:induction false} FewWantedIsNeverLate(wanted: nat, window: nat, acts: seq<Action>)
    requires Possible(wanted, window, acts) && window > 0 && wanted <= window + 1 && wanted + Trims(acts) < HALF
    ensures Net.StartsAtZero(Run(wanted, window, acts).net) && Run(wanted, window, acts).net.late == 0
  {
    if acts != [] {
      var front, a := acts[..|acts| - 1], acts[|acts| - 1];
      RunKeepsNet(wanted, window, front);
      FewWantedIsNeverLate(wanted, window, front);
      StepIsNotLate(Run(wanted, window, front), a);
    }
  }

  lemma {:induction false} SingleWindowIsInOrder(wanted: nat, acts: seq<Action>)
    requires Possible(wanted, 1, acts) && wanted + Trims(acts) < HALF
    ensures InOrder(wanted, 1, acts)
  {
    if acts != [] {
      var front, a := acts[..|acts| - 1], acts[|acts| - 1];
      SingleWindowIsInOrder(wanted, front);
      RunKeepsNet(wanted, 1, front);
      Net.OneSymbolInFlight(Run(wanted, 1, front).net);
    }
  }

  // ---------------------------------------------------------------- the run as the host sees it

  /** The host's events of a run. */
  function Events(acts: seq<Action>): seq<Pacer.Event> {
    if acts == [] then []
    else
      var a := acts[|acts| - 1];
      Events(acts[..|acts| - 1]) + if AtHost(a) then [EventOf(a)] else []
  }

  /** A run is a run of the host, too. */
  lemma {:induction false} RunsAreHosted(wanted: nat, window: nat, acts: seq<Action>)
    requires Possible(wanted, window, acts)
    ensures var h := Pacer.Start([wanted], [window]);
            Pacer.Possible(h, Events(acts)) && Pacer.Run(h, Events(acts)) == Run(wanted, window, acts).host
  {
    if acts != [] {
      var front, a := acts[..|acts| - 1], acts[|acts| - 1];
      RunsAreHosted(wanted, window, front);
      ShadowIsEnabled(Run(wanted, window, front), a);
      if AtHost(a) {
        Pacer.RunAppend(Pacer.Start([wanted], [window]), Events(front), EventOf(a));
      } else {
        assert Events(front) + [] == Events(front);
      }
    }
  }

  /** What the host keeps whatever the sizes are. A connection outside the table has no pull. */
  ghost predicate HostInv(w: World)
    requires w.host.WellFormed()
  {
    && Pacer.TableInv(w.host) && Pacer.SpacingInv(w.host)
    && (w.net.rcv.notAdded && w.net.rcv.wanted > 0 ==> w.net.rcv.pulls == [])
  }

  lemma StepKeepsHost(w: World, a: Action)
    requires Coupled(w) && Enabled(w, a) && HostInv(w)
    ensures HostInv(Do(w, a))
  {
    ShadowIsEnabled(w, a);
    StepStaysCoupled(w, a);
    if AtHost(a) {
      Pacer.StepKeepsTableInv(w.host, EventOf(a));
      Pacer.StepKeepsSpacing(w.host, EventOf(a));
    }
    StepKeepsUnregisteredEmpty(w, a);
  }

  lemma StepKeepsUnregisteredEmpty(w: World, a: Action)
    requires Coupled(w) && Enabled(w, a) && HostInv(w)
    ensures var c := Do(w, a).net.rcv; c.notAdded && c.wanted > 0 ==> c.pulls == []
  {
    assert Pacer.ConnInv(w.host.conns[0]);
  }

  lemma {:induction false} RunKeepsHost(wanted: nat, window: nat, acts: seq<Action>)
    requires Possible(wanted, window, acts) && window > 0
    ensures HostInv(Run(wanted, window, acts))
  {
    if acts != [] {
      var front, a := acts[..|acts| - 1], acts[|acts| - 1];
      RunKeepsHost(wanted, window, front);
      StepKeepsHost(Run(wanted, window, front), a);
    }
  }

  /** No wake-up has been lost while symbols are missing. */
  ghost predicate Wakes(w: World)
    requires w.host.WellFormed()
  {
    w.net.rcv.received < w.net.rcv.wanted ==> Pacer.WakeInv(w.host)
  }

  lemma StepKeepsWakes(w: World, a: Action)
    requires Coupled(w) && Enabled(w, a) && HostInv(w) && Wakes(w)
    requires w.net.rcv.wanted <= 1 || w.net.rcv.wanted > w.net.rcv.window
    ensures Wakes(Do(w, a))
  {
    ShadowIsEnabled(w, a);
    if Do(w, a).net.rcv.received < Do(w, a).net.rcv.wanted {
      match a
      case DeliverSymbol(k, t) =>
        assert Pacer.SafeSize(w.net.rcv.wanted, w.net.rcv.window);
        Pacer.StepKeepsWakeInv(w.host, EventOf(a));
      case DeliverHeader(t) => Pacer.HeaderKeepsWakeInv(w.host.(now := t), 0);
      case Fire => Pacer.TimerKeepsWakeInv(w.host);
      case _ =>
    }
  }

  lemma {:induction false} RunKeepsWakes(wanted: nat, window: nat, acts: seq<Action>)
    requires Possible(wanted, window, acts) && window > 0 && wanted + Trims(acts) < HALF
    requires wanted <= 1 || wanted > window
    ensures Wakes(Run(wanted, window, acts))
  {
    if acts != [] {
      var front, a := acts[..|acts| - 1], acts[|acts| - 1];
      RunKeepsWakes(wanted, window, front);
      RunKeepsHost(wanted, window, front);
      RunKeepsNet(wanted, window, front);
      StepKeepsWakes(Run(wanted, window, front), a);
    }
  }

  // ---------------------------------------------------------------- coming to a halt

  /** Nothing can happen any more. */
  ghost predicate Halted(w: World) {
    forall a: Action :: !Enabled(w, a)
  }

  lemma HaltedMeans(w: World)
    requires Coupled(w) && HostInv(w)
    ensures Halted(w) <==> w.net.flight == {} && w.net.headers == 0 && w.net.pulls == {} && w.host.timer == Pacer.Off
  {
    if Halted(w) {
      assert !Enabled(w, Fire) && !Enabled(w, DeliverHeader(w.host.now));
      if w.net.flight != {} {
        var k :| k in w.net.flight;
        assert Enabled(w, Trim(k));
      }
      if w.net.pulls != {} {
        var r :| r in w.net.pulls;
        assert Enabled(w, DeliverPull(r));
      }
    }
  }

  /** With symbols missing, a waiting pull whose timer is off is a lost wake-up. */
  lemma WaitingPullIsFired(w: World)
    requires Coupled(w) && HostInv(w) && Net.Inv(w.net) && Wakes(w)
    requires w.net.rcv.received < w.net.rcv.wanted && w.net.rcv.pulls != []
    ensures Pacer.Serves(w.host)
  {
    var h, c := w.host, w.net.rcv;
    assert h.conns[0] == c && (c.notAdded <==> 0 !in h.registered);
    assert 0 in h.registered;
    var s :| 0 <= s < |h.registered| && h.registered[s] == 0;
    assert !Pacer.AllFinished(h) && !Pacer.AllEmpty(h);
  }

  /** Exactly when a run has come to a halt short of its end: nothing is under way to the sender, the timer is off, and
      all the credit that late arrivals have left sits in the pull queue. That queue is empty, unless between two
      symbols and a window are wanted. */
  lemma HaltedIff(wanted: nat, window: nat, acts: seq<Action>)
    requires Possible(wanted, window, acts) && window > 0 && wanted + Trims(acts) < HALF
    requires Run(wanted, window, acts).net.rcv.received < wanted
    ensures var w := Run(wanted, window, acts);
            var s := w.net;
            && (Halted(w) <==>
                  s.pulls == {} && w.host.timer == Pacer.Off && s.late + |s.rcv.pulls| == Net.Owed(s.rcv) + s.skips)
            && (Halted(w) && s.rcv.pulls != [] ==> 2 <= wanted <= window)
  {
    var w := Run(wanted, window, acts);
    RunKeepsNet(wanted, window, acts);
    RunKeepsHost(wanted, window, acts);
    HaltedMeans(w);
    Net.CreditOf(w.net);
    if w.net.pulls == {} {
      NothingUnderWay(w.net);
    }
    if Halted(w) && w.net.rcv.pulls != [] && (wanted <= 1 || wanted > window) {
      RunKeepsWakes(wanted, window, acts);
      WaitingPullIsFired(w);
      assert false;
    }
  }

  /** Without a pull under way, the unanswered ones wait in the queue. */
  lemma NothingUnderWay(s: Net.Sys)
    requires Net.Inv(s) && s.pulls == {}
    ensures Net.Unanswered(s) == |s.rcv.pulls|
  {
    var sent := s.rcv.requestId - |s.rcv.pulls|;
    assert sent !in s.pulls;
  }

  /** The sizes for which every run in order is delivered. */
  predicate Wakeful(wanted: nat, window: nat) {
    window == 1 || wanted <= 1 || wanted > window
  }

  /** The sizes for which every run is, whatever the order. */
  predicate Unstoppable(wanted: nat, window: nat) {
    window == 1 || wanted <= 1 || wanted == window + 1
  }

  /** Deadlock freedom: a run that has come to a halt has delivered every symbol, has told the application once, and has
      handed it exactly the symbols it wanted: in order, if the sizes are wakeful, and in any order, if they are
      unstoppable. */
  lemma NoDeadlock(wanted: nat, window: nat, acts: seq<Action>)
    requires Possible(wanted, window, acts) && window > 0 && wanted + Trims(acts) < HALF
    requires Unstoppable(wanted, window) || (Wakeful(wanted, window) && InOrder(wanted, window, acts))
    requires Halted(Run(wanted, window, acts))
    ensures var c := Run(wanted, window, acts).net.rcv;
            c.received >= wanted && |c.toApp| == wanted && (wanted > 0 ==> c.peerClosed == 1)
  {
    RunKeepsNet(wanted, window, acts);
    if Run(wanted, window, acts).net.rcv.received < wanted {
      NothingLate(wanted, window, acts);
      HaltedIff(wanted, window, acts);
      assert false;
    }
  }

  lemma NothingLate(wanted: nat, window: nat, acts: seq<Action>)
    requires Possible(wanted, window, acts) && window > 0 && wanted + Trims(acts) < HALF
    requires Unstoppable(wanted, window) || InOrder(wanted, window, acts)
    ensures Run(wanted, window, acts).net.late == 0
  {
    if InOrder(wanted, window, acts) {
      InOrderIsNeverLate(wanted, window, acts);
    } else if window == 1 {
      SingleWindowIsInOrder(wanted, acts);
    } else {
      FewWantedIsNeverLate(wanted, window, acts);
    }
  }

  // ---------------------------------------------------------------- going on

  /** The protocol's step can be taken with the pacer at once: a release is a firing. */
  lemma Realize(w: World, b: Net.Action) returns (a: Action)
    requires Coupled(w) && HostInv(w) && Net.Inv(w.net) && Wakes(w)
    requires w.net.rcv.received < w.net.rcv.wanted && Net.Enabled(w.net, b)
    ensures Enabled(w, a) && Shadow(w, a) == [b] && a.Trim? == b.Trim?
    ensures a.DeliverSymbol? ==> b == Net.DeliverSymbol(a.k)
  {
    match b
    case DeliverSymbol(k) => a := DeliverSymbol(k, w.host.now);
    case Trim(k) => a := Trim(k);
    case DeliverHeader => a := DeliverHeader(w.host.now);
    case ReleasePull =>
      WaitingPullIsFired(w);
      a := Fire;
    case DeliverPull(r) => a := DeliverPull(r);
  }

  /** A run, extended by a step of the protocol. */
  lemma RealizeNext(wanted: nat, window: nat, acts: seq<Action>, b: Net.Action) returns (a: Action)
    requires Possible(wanted, window, acts) && window > 0 && wanted + Trims(acts) < HALF
    requires wanted <= 1 || wanted > window
    requires Run(wanted, window, acts).net.rcv.received < wanted
    requires Net.Enabled(Run(wanted, window, acts).net, b)
    ensures Possible(wanted, window, acts + [a])
    ensures Run(wanted, window, acts + [a]).net == Net.Do(Run(wanted, window, acts).net, b)
    ensures Trims(acts + [a]) == Trims(acts) + (if b.Trim? then 1 else 0)
    ensures InOrder(wanted, window, acts) && Net.KeepsOrder(Run(wanted, window, acts).net, b) ==>
              InOrder(wanted, window, acts + [a])
  {
    RunKeepsNet(wanted, window, acts);
    RunKeepsHost(wanted, window, acts);
    RunKeepsWakes(wanted, window, acts);
    a := Realize(Run(wanted, window, acts), b);
    RunAppend(wanted, window, acts, a);
  }

  /** An in-order run with `t` trims. */
  ghost predicate Orderly(wanted: nat, window: nat, t: nat, acts: seq<Action>) {
    Possible(wanted, window, acts) && InOrder(wanted, window, acts) && Trims(acts) == t
  }

  /** An in-order run of wakeful sizes that has not delivered everything can be extended, in order, by a step of the
      protocol. */
  lemma InOrderRunsGoOn(wanted: nat, window: nat, t: nat, acts: seq<Action>) returns (a: Action)
    requires Orderly(wanted, window, t, acts) && window > 0 && wanted + t < HALF && Wakeful(wanted, window)
    requires Run(wanted, window, acts).net.rcv.received < wanted
    ensures Orderly(wanted, window, t, acts + [a])
    ensures Net.Counted(Run(wanted, window, acts + [a]).net) == Net.Counted(Run(wanted, window, acts).net) + 1
  {
    var s := Run(wanted, window, acts).net;
    RunKeepsNet(wanted, window, acts);
    InOrderIsNeverLate(wanted, window, acts);
    var b := Net.NextInOrder(s);
    a := RealizeNext(wanted, window, acts, b);
    Net.RequestsAreFew(s);
    Net.StepIsCounted(s, b);
  }

  /** Progress: any in-order run of wakeful sizes can be completed, in order and without another trim. */
  lemma {:induction false} InOrderRunsComplete(wanted: nat, window: nat, t: nat, acts: seq<Action>)
    returns (full: seq<Action>)
    requires Orderly(wanted, window, t, acts) && window > 0 && wanted > 0 && wanted + t < HALF
    requires Wakeful(wanted, window)
    ensures Orderly(wanted, window, t, full) && acts <= full
    ensures Run(wanted, window, full).net.rcv.received >= wanted
    decreases 3 * wanted + window + 5 * t - Net.Counted(Run(wanted, window, acts).net)
  {
    if Run(wanted, window, acts).net.rcv.received >= wanted {
      full := acts;
    } else {
      var a := InOrderRunsGoOn(wanted, window, t, acts);
      RunKeepsNet(wanted, window, acts + [a]);
      Net.CountIsBounded(Run(wanted, window, acts + [a]).net);
      full := InOrderRunsComplete(wanted, window, t, acts + [a]);
    }
  }

  /** Arrivals so far; each can start the timer once. */
  function Arrivals(w: World): nat {
    w.net.rcv.received + w.net.headersSeen
  }

  function Running(w: World): nat {
    if w.host.timer.At? then 1 else 0
  }

  /** A firing that releases nothing leaves the timer off until an arrival starts it again. */
  lemma StepIsArmed(w: World, a: Action)
    requires Coupled(w) && Enabled(w, a)
    ensures 1 - |Shadow(w, a)| + Running(Do(w, a)) + Arrivals(w) <= Running(w) + Arrivals(Do(w, a))
  {
    ShadowIsEnabled(w, a);
  }

  /** The actions of a run are those of the protocol, and a firing for nothing for each time an arrival started the
      timer. */
  lemma {:induction false} ActionsAreCounted(wanted: nat, window: nat, acts: seq<Action>)
    requires Possible(wanted, window, acts) && window > 0 && wanted + Trims(acts) < HALF
    ensures var w := Run(wanted, window, acts); |acts| + Running(w) <= Net.Counted(w.net) + Arrivals(w)
  {
    if acts != [] {
      var front, a := acts[..|acts| - 1], acts[|acts| - 1];
      ActionsAreCounted(wanted, window, front);
      RunKeepsNet(wanted, window, front);
      Net.RequestsAreFew(Run(wanted, window, front).net);
      StepIsCounted(Run(wanted, window, front), a);
    }
  }

  lemma StepIsCounted(w: World, a: Action)
    requires Coupled(w) && Enabled(w, a) && Net.Inv(w.net) && w.net.rcv.window > 0 && w.net.rcv.requestId < HALF
    ensures var v := Do(w, a);
            1 + Running(v) + Net.Counted(w.net) + Arrivals(w) <= Running(w) + Net.Counted(v.net) + Arrivals(v)
  {
    ShadowIsEnabled(w, a);
    StepIsArmed(w, a);
    if Shadow(w, a) != [] {
      Net.StepIsCounted(w.net, Shadow(w, a)[0]);
    }
  }

  /** Termination, with every firing counted: a run with `t` trims has at most 4 * wanted + 2 * window + 6 * t actions.
      So every run that is not trimmed for ever comes to a halt. */
  lemma RunsAreBounded(wanted: nat, window: nat, acts: seq<Action>)
    requires Possible(wanted, window, acts) && window > 0 && wanted > 0 && wanted + Trims(acts) < HALF
    ensures |acts| <= 4 * wanted + 2 * window + 6 * Trims(acts)
  {
    RunKeepsNet(wanted, window, acts);
    ActionsAreCounted(wanted, window, acts);
    Net.CountIsBounded(Run(wanted, window, acts).net);
  }

  // ---------------------------------------------------------------- how a transfer can stop

  /** The run comes to a halt with symbols still missing. */
  ghost predicate HaltsEarly(wanted: nat, window: nat, acts: seq<Action>) {
    && Possible(wanted, window, acts) && wanted + Trims(acts) < HALF
    && Halted(Run(wanted, window, acts)) && Run(wanted, window, acts).net.rcv.received < wanted
  }

  lemma SecondComesFirst(wanted: nat, window: nat) returns (acts: seq<Action>)
    requires window >= 2 && window + 2 <= wanted < HALF
    ensures Possible(wanted, window, acts) && Trims(acts) == 0
    ensures var s := Run(wanted, window, acts).net;
            1 in s.flight && Net.AfterSecond(s) && s.rcv.wanted == wanted && s.rcv.window == window
  {
    acts := [];
    var s := Net.SecondIsFirst(wanted, window);
    var a := RealizeNext(wanted, window, acts, Net.DeliverSymbol(2));
    acts := acts + [a];
  }

  /** Symbol 2 overtakes symbol 1. */
  lemma Overtaken(wanted: nat, window: nat) returns (acts: seq<Action>)
    requires window >= 2 && window + 2 <= wanted < HALF
    ensures Possible(wanted, window, acts) && Trims(acts) == 0 && Net.OneCreditShort(Run(wanted, window, acts).net)
  {
    acts := SecondComesFirst(wanted, window);
    Net.FirstIsLate(Run(wanted, window, acts).net);
    var b := RealizeNext(wanted, window, acts, Net.DeliverSymbol(1));
    acts := acts + [b];
  }

  /** Going on in sequence then uses up what is under way, one symbol short. */
  lemma {:induction false} GoesOnShort(wanted: nat, window: nat, acts: seq<Action>) returns (full: seq<Action>)
    requires Possible(wanted, window, acts) && 0 < window < wanted < HALF && Trims(acts) == 0
    requires Net.OneCreditShort(Run(wanted, window, acts).net)
    ensures Possible(wanted, window, full) && Trims(full) == 0
    ensures Net.OneCreditShort(Run(wanted, window, full).net) && !Net.Busy(Run(wanted, window, full).net)
    decreases 3 * wanted + window - Net.Counted(Run(wanted, window, acts).net)
  {
    var s := Run(wanted, window, acts).net;
    full := acts;
    if Net.Busy(s) {
      RunKeepsNet(wanted, window, acts);
      Net.RequestsAreFew(s);
      var b := Net.GoOnInSequence(s);
      var a := RealizeNext(wanted, window, acts, b);
      Net.StaysOneCreditShort(s, b);
      Net.StepIsCounted(s, b);
      RunKeepsNet(wanted, window, acts + [a]);
      Net.CountIsBounded(Net.Do(s, b));
      full := GoesOnShort(wanted, window, acts + [a]);
    }
  }

  /** When the protocol is done, the timer fires once more for nothing. */
  lemma LastFiring(wanted: nat, window: nat, acts: seq<Action>) returns (full: seq<Action>)
    requires Possible(wanted, window, acts) && window > 0 && !Net.Busy(Run(wanted, window, acts).net)
    ensures Possible(wanted, window, full) && Run(wanted, window, full).net == Run(wanted, window, acts).net
    ensures Halted(Run(wanted, window, full)) && Trims(full) == Trims(acts)
  {
    var w := Run(wanted, window, acts);
    full := acts;
    RunKeepsHost(wanted, window, acts);
    if w.host.timer.At? {
      IdleFiring(w);
      RunAppend(wanted, window, acts, Fire);
      full := acts + [Fire];
      StepKeepsHost(w, Fire);
    }
    HaltedMeans(Run(wanted, window, full));
  }

  lemma IdleFiring(w: World)
    requires Coupled(w) && w.host.timer.At? && w.net.rcv.pulls == []
    ensures Do(w, Fire).net == w.net && Do(w, Fire).host.timer == Pacer.Off
  {
    ShadowIsEnabled(w, Fire);
    assert Shadow(w, Fire) == [];
    StepIsArmed(w, Fire);
  }

  /** Out of order, a run can lose its credit: for every window of at least two and every transfer of at least two
      symbols more there is a run, without any trim, that comes to a halt exactly one symbol short. */
  lemma ReorderingCanDeadlock(wanted: nat, window: nat) returns (acts: seq<Action>)
    requires window >= 2 && window + 2 <= wanted < HALF
    ensures HaltsEarly(wanted, window, acts) && Trims(acts) == 0 && !InOrder(wanted, window, acts)
    ensures Run(wanted, window, acts).net.rcv.received == wanted - 1
  {
    acts := Overtaken(wanted, window);
    acts := GoesOnShort(wanted, window, acts);
    acts := LastFiring(wanted, window, acts);
    RunKeepsNet(wanted, window, acts);
    HaltedIff(wanted, window, acts);
    if InOrder(wanted, window, acts) {
      InOrderIsNeverLate(wanted, window, acts);
    }
  }

  /** The connection is registered with an empty queue, so that nothing has ever started the timer. */
  ghost predicate Asleep(w: World) {
    && w.host.registered == [0] && w.host.timer == Pacer.Off && !w.host.nap
    && w.net.pulls == {} && w.net.rcv.received == 1 && !w.net.rcv.notAdded
  }

  /** The first symbol of a transfer of no more than a window asks for no pull. */
  lemma FirstSymbolStep(wanted: nat, window: nat)
    requires 2 <= wanted <= window
    ensures var w, a := Start(wanted, window), DeliverSymbol(1, 0.0);
            && Enabled(w, a) && (forall k :: k in w.net.flight ==> 1 <= k)
            && Asleep(Do(w, a)) && Do(w, a).net.flight == Net.Numbers(0, window) - {1}
  {
    var c := Start(wanted, window).net.rcv;
    assert !Receiver.PullsFor(c, 1) && Receiver.RegistersOnSymbol(c);
  }

  lemma FirstSymbolSleeps(wanted: nat, window: nat)
    requires 2 <= wanted <= window
    ensures var a := DeliverSymbol(1, 0.0);
            && Possible(wanted, window, [a]) && InOrder(wanted, window, [a]) && Trims([a]) == 0
            && Asleep(Run(wanted, window, [a])) && Run(wanted, window, [a]).net.flight == Net.Numbers(0, window) - {1}
  {
    var none: seq<Action> := [];
    FirstSymbolStep(wanted, window);
    RunAppend(wanted, window, none, DeliverSymbol(1, 0.0));
    assert none + [DeliverSymbol(1, 0.0)] == [DeliverSymbol(1, 0.0)];
  }

  lemma TrimStaysAsleep(w: World, k: nat)
    requires Coupled(w) && Asleep(w) && k in w.net.flight
    ensures Asleep(Do(w, Trim(k))) && Do(w, Trim(k)).net.flight == w.net.flight - {k}
    ensures Do(w, Trim(k)).net.headers == w.net.headers + 1
  {
  }

  lemma HeaderStaysAsleep(w: World)
    requires Coupled(w) && Asleep(w) && w.net.headers > 0
    ensures var a := DeliverHeader(w.host.now);
            && Enabled(w, a) && Asleep(Do(w, a)) && Do(w, a).net.flight == w.net.flight
            && Do(w, a).net.headers == w.net.headers - 1
  {
  }

  /** Every other symbol is trimmed, and the pulls of the headers wait for a timer that nobody starts. */
  lemma {:induction false} SleepsOn(wanted: nat, window: nat, acts: seq<Action>) returns (full: seq<Action>)
    requires Possible(wanted, window, acts) && InOrder(wanted, window, acts) && Asleep(Run(wanted, window, acts))
    requires window > 0
    ensures Possible(wanted, window, full) && InOrder(wanted, window, full) && Asleep(Run(wanted, window, full))
    ensures Halted(Run(wanted, window, full))
    ensures Trims(full) == Trims(acts) + |Run(wanted, window, acts).net.flight|
    decreases 2 * |Run(wanted, window, acts).net.flight| + Run(wanted, window, acts).net.headers
  {
    var w := Run(wanted, window, acts);
    if w.net.flight != {} {
      var k :| k in w.net.flight;
      TrimStaysAsleep(w, k);
      RunAppend(wanted, window, acts, Trim(k));
      assert |w.net.flight - {k}| == |w.net.flight| - 1;
      full := SleepsOn(wanted, window, acts + [Trim(k)]);
    } else if w.net.headers > 0 {
      HeaderStaysAsleep(w);
      RunAppend(wanted, window, acts, DeliverHeader(w.host.now));
      full := SleepsOn(wanted, window, acts + [DeliverHeader(w.host.now)]);
    } else {
      full := acts;
      RunKeepsHost(wanted, window, acts);
      HaltedMeans(w);
    }
  }

  /** A lost wake-up stops a transfer: whenever between two symbols and a window are wanted there is a run, in order,
      that comes to a halt after its first symbol with its credit untouched. */
  lemma LostWakeupCanDeadlock(wanted: nat, window: nat) returns (acts: seq<Action>)
    requires 2 <= wanted <= window && wanted + window < HALF
    ensures HaltsEarly(wanted, window, acts) && InOrder(wanted, window, acts)
    ensures var s := Run(wanted, window, acts).net;
            s.rcv.received == 1 && s.late == 0 && |s.rcv.pulls| == Net.Owed(s.rcv) + s.skips
  {
    FirstSymbolSleeps(wanted, window);
    acts := SleepsOn(wanted, window, [DeliverSymbol(1, 0.0)]);
    Net.NumbersSize(0, window);
    InOrderIsNeverLate(wanted, window, acts);
    HaltedIff(wanted, window, acts);
  }

  /** Deadlock freedom, exactly. No run comes to a halt before its end, in whatever order the symbols arrive, if and
      only if the window is one, at most one symbol is wanted, or exactly one symbol more than the window; and no run
      that keeps the symbols in order does, if and only if the window is one, at most one symbol is wanted, or more
      than the window. */
  lemma DeadlockFreeIff(wanted: nat, window: nat)
    requires window > 0 && wanted + window < HALF
    ensures (forall acts :: !HaltsEarly(wanted, window, acts)) <==> Unstoppable(wanted, window)
    ensures (forall acts :: HaltsEarly(wanted, window, acts) ==> !InOrder(wanted, window, acts))
            <==> Wakeful(wanted, window)
  {
    forall acts | HaltsEarly(wanted, window, acts)
      ensures !Unstoppable(wanted, window) && (InOrder(wanted, window, acts) ==> !Wakeful(wanted, window))
    {
      if Unstoppable(wanted, window) || (Wakeful(wanted, window) && InOrder(wanted, window, acts)) {
        NoDeadlock(wanted, window, acts);
      }
    }
    if !Wakeful(wanted, window) {
      var acts := LostWakeupCanDeadlock(wanted, window);
      assert HaltsEarly(wanted, window, acts);
    } else if !Unstoppable(wanted, window) {
      var acts := ReorderingCanDeadlock(wanted, window);
      assert HaltsEarly(wanted, window, acts);
    }
  }
}

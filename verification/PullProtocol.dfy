/** Sender, receiver and network as one transition system, from the initial window on.

  The network may deliver full symbols in any order or trim any of them to a header, and may reorder pulls; it loses
  nothing. `InOrder` singles out the runs in which full symbols stay in order. Here a waiting pull may leave the
  receiver's queue at any time, so that what is proved holds whatever the pacer of the receiver's host does; `Transfer`
  adds the pacer.
 */
module PullProtocol {
  import opened SeqNum
  import Sender
  import Receiver

  /** `flight` holds the numbers of the full symbols under way, `headers` counts the trimmed ones, and `pulls` holds the
      pulls that left the receiver's queue. The last three fields are history: arrivals of the last window that showed a
      gap, earlier arrivals that came too late to ask for a replacement, and headers received. */
  datatype Sys = Sys(snd: Sender.Snd, rcv: Receiver.Conn, flight: set<nat>, headers: nat, pulls: set<nat>,
                     skips: nat, late: nat, headersSeen: nat)

  datatype Action =
    | DeliverSymbol(k: nat)
    | Trim(k: nat)
    | DeliverHeader
    | ReleasePull
    | DeliverPull(r: nat)

  /** Symbol numbers lo+1, ..., hi. */
  function Numbers(lo: nat, hi: nat): (s: set<nat>)
    ensures forall k :: k in s <==> lo < k <= hi
  {
    if hi <= lo then {} else Numbers(lo, hi - 1) + {hi}
  }

  function Start(wanted: nat, window: nat): Sys {
    Sys(Sender.StartWindow(Sender.Fresh(window)), Receiver.Fresh(wanted, window), Numbers(0, window), 0, {}, 0, 0, 0)
  }

  predicate Enabled(s: Sys, a: Action) {
    match a
    case DeliverSymbol(k) => k in s.flight
    case Trim(k) => k in s.flight
    case DeliverHeader => s.headers > 0
    case ReleasePull => s.rcv.pulls != []
    case DeliverPull(r) => r in s.pulls
  }

  /** An arrival of the last window, but not the last one wanted, that leaves out a number. */
  predicate SkipsInLastWindow(c: Receiver.Conn, k: nat) {
    c.wanted - c.window < c.received + 1 < c.wanted && k > c.esi + 1
  }

  /** An arrival before the last window whose number was already passed. */
  predicate ComesLate(c: Receiver.Conn, k: nat) {
    c.received + 1 <= c.wanted - c.window && k <= c.esi
  }

  function Do(s: Sys, a: Action): Sys
    requires Enabled(s, a)
  {
    match a
    case DeliverSymbol(k) =>
      s.(rcv := Receiver.SymbolArrives(s.rcv, k),
         flight := s.flight - {k},
         skips := s.skips + (if SkipsInLastWindow(s.rcv, k) then 1 else 0),
         late := s.late + (if ComesLate(s.rcv, k) then 1 else 0))
    case Trim(k) =>
      s.(flight := s.flight - {k}, headers := s.headers + 1)
    case DeliverHeader =>
      s.(rcv := Receiver.HeaderArrives(s.rcv), headers := s.headers - 1, headersSeen := s.headersSeen + 1)
    case ReleasePull =>
      s.(rcv := Receiver.ReleasePull(s.rcv), pulls := s.pulls + {s.rcv.pulls[0]})
    case DeliverPull(r) =>
      var t := Sender.PullArrives(s.snd, r);
      s.(snd := t, flight := s.flight + Numbers(s.snd.esi, t.esi), pulls := s.pulls - {r})
  }

  /** The run of `acts` from the start is possible. */
  predicate Possible(wanted: nat, window: nat, acts: seq<Action>)
    decreases |acts|, 0
  {
    acts == [] ||
    (var front := acts[..|acts| - 1];
     Possible(wanted, window, front) && Enabled(Run(wanted, window, front), acts[|acts| - 1]))
  }

  function Run(wanted: nat, window: nat, acts: seq<Action>): Sys
    requires Possible(wanted, window, acts)
    decreases |acts|, 1
  {
    if acts == [] then Start(wanted, window)
    else Do(Run(wanted, window, acts[..|acts| - 1]), acts[|acts| - 1])
  }

  /** A full symbol delivered is the oldest one under way. */
  predicate KeepsOrder(s: Sys, a: Action) {
    a.DeliverSymbol? ==> forall k :: k in s.flight ==> a.k <= k
  }

  /** Every full symbol delivered is the oldest one under way. */
  predicate InOrder(wanted: nat, window: nat, acts: seq<Action>)
    requires Possible(wanted, window, acts)
  {
    acts == [] ||
    (var front, a := acts[..|acts| - 1], acts[|acts| - 1];
     InOrder(wanted, window, front) && KeepsOrder(Run(wanted, window, front), a))
  }

  function Trims(acts: seq<Action>): nat {
    if acts == [] then 0
    else Trims(acts[..|acts| - 1]) + (if acts[|acts| - 1].Trim? then 1 else 0)
  }

  /** Pulls issued whose symbol has not been sent yet. */
  function Unanswered(s: Sys): int {
    s.rcv.requestId - s.snd.requestId
  }

  function Credit(s: Sys): int {
    |s.flight| + s.headers + Unanswered(s)
  }

  /** How many arrivals so far belong to the part of the transfer that replaces every symbol. */
  function Replaced(c: Receiver.Conn): nat {
    Min(c.received, Max(c.wanted - c.window, 0))
  }

  /** The credit a transfer should have: a full window, or what is missing once that is less. */
  function Owed(c: Receiver.Conn): int {
    if c.wanted >= c.window then Min(c.window, c.wanted - c.received) else c.window - c.received
  }

  /** The invariant of every run. */
  ghost predicate Inv(s: Sys) {
    && Receiver.Inv(s.rcv)
    && SenderInv(s)
    && CountInv(s)
    && PullInv(s)
  }

  ghost predicate SenderInv(s: Sys) {
    && Sender.Inv(s.snd) && s.snd.window == s.rcv.window
    && s.snd.esi == s.rcv.window + s.snd.requestId
    && s.snd.requestId <= s.rcv.requestId
    && (forall k :: k in s.flight ==> 1 <= k <= s.snd.esi)
  }

  ghost predicate CountInv(s: Sys) {
    && s.rcv.received + |s.flight| + s.headers + s.headersSeen == s.snd.esi
    && s.rcv.requestId == Replaced(s.rcv) + s.skips - s.late + s.headersSeen
    && s.late <= Replaced(s.rcv)
    && s.skips <= Max(Min(s.rcv.received, s.rcv.wanted - 1) - Max(s.rcv.wanted - s.rcv.window, 0), 0)
  }

  /** Every unanswered pull is in the receiver's queue or under way. */
  ghost predicate PullInv(s: Sys) {
    var sent := s.rcv.requestId - |s.rcv.pulls|;
    && (forall r :: r in s.pulls ==> 1 <= r <= sent)
    && (forall r :: s.snd.requestId < r <= sent ==> r in s.pulls)
    && s.snd.requestId <= sent
  }

  lemma {:induction false} NumbersSize(lo: nat, hi: nat)
    requires lo <= hi
    ensures |Numbers(lo, hi)| == hi - lo
    decreases hi - lo
  {
    if lo < hi {
      NumbersSize(lo, hi - 1);
    }
  }

  lemma StartKeepsSender(wanted: nat, window: nat)
    requires window > 0
    ensures SenderInv(Start(wanted, window))
  {
    Sender.StartWindowSends(window);
  }

  lemma StartKeepsCounts(wanted: nat, window: nat)
    requires window > 0
    ensures CountInv(Start(wanted, window))
  {
    Sender.StartWindowSends(window);
    NumbersSize(0, window);
  }

  lemma StartKeepsPulls(wanted: nat, window: nat)
    requires window > 0
    ensures PullInv(Start(wanted, window))
  {
    Sender.StartWindowSends(window);
  }

  lemma StartInv(wanted: nat, window: nat)
    requires window > 0
    ensures Inv(Start(wanted, window))
  {
    StartKeepsSender(wanted, window);
    StartKeepsCounts(wanted, window);
    StartKeepsPulls(wanted, window);
  }

  lemma {:induction false} SymbolStep(s: Sys, k: nat)
    requires Inv(s) && Enabled(s, DeliverSymbol(k))
    requires s.rcv.window > 0
    ensures Inv(Do(s, DeliverSymbol(k)))
  {
    Receiver.SymbolKeepsInv(s.rcv, k);
    SymbolKeepsCounts(s, k);
    SymbolKeepsPulls(s, k);
  }

  lemma {:induction false} SymbolKeepsCounts(s: Sys, k: nat)
    requires Inv(s) && Enabled(s, DeliverSymbol(k)) && s.rcv.window > 0
    ensures CountInv(Do(s, DeliverSymbol(k)))
  {
    assert |s.flight - {k}| == |s.flight| - 1;
    SymbolMovesRequest(s.rcv, k);
  }

  /** Before the last window every arrival but a late one asks for a pull, in it only one that skips. */
  lemma SymbolMovesRequest(c: Receiver.Conn, k: nat)
    requires Receiver.Inv(c)
    ensures var d := Receiver.SymbolArrives(c, k);
            && d.received == c.received + 1 && d.wanted == c.wanted && d.window == c.window
            && d.requestId - c.requestId == (if Receiver.PullsFor(c, k) then 1 else 0)
            && Replaced(d) - Replaced(c) == (if d.received <= c.wanted - c.window then 1 else 0)
            && (Receiver.BeforeLastWindow(c) && c.window > 0 ==> (Receiver.PullsFor(c, k) <==> !ComesLate(c, k)))
            && (!Receiver.BeforeLastWindow(c)
              ==> (Receiver.PullsFor(c, k) <==> SkipsInLastWindow(c, k)) && !ComesLate(c, k))
  {
  }

  lemma SymbolKeepsPulls(s: Sys, k: nat)
    requires Inv(s) && Enabled(s, DeliverSymbol(k)) && s.rcv.window > 0
    ensures SenderInv(Do(s, DeliverSymbol(k))) && PullInv(Do(s, DeliverSymbol(k)))
  {
  }

  lemma ReleaseStep(s: Sys)
    requires Inv(s) && Enabled(s, ReleasePull)
    ensures Inv(Do(s, ReleasePull))
    ensures s.rcv.pulls[0] == s.rcv.requestId - |s.rcv.pulls| + 1 && s.rcv.pulls[0] !in s.pulls
  {
  }

  lemma PullStep(s: Sys, r: nat)
    requires Inv(s) && Enabled(s, DeliverPull(r))
    requires s.rcv.requestId < HALF
    ensures Inv(Do(s, DeliverPull(r)))
  {
    var t := Do(s, DeliverPull(r));
    Sender.PullAnswersUpTo(s.snd, r);
    NumbersSize(s.snd.esi, t.snd.esi);
    assert s.flight !! Numbers(s.snd.esi, t.snd.esi);
    assert |t.flight| == |s.flight| + |Numbers(s.snd.esi, t.snd.esi)|;
  }

  lemma {:induction false} StepKeepsInv(s: Sys, a: Action)
    requires Inv(s) && Enabled(s, a)
    requires s.rcv.window > 0 && s.rcv.requestId < HALF
    ensures Inv(Do(s, a))
  {
    match a
    case DeliverSymbol(k) => SymbolStep(s, k);
    case Trim(k) => assert |s.flight - {k}| == |s.flight| - 1;
    case DeliverHeader => Receiver.HeaderKeepsInv(s.rcv);
    case ReleasePull => ReleaseStep(s);
    case DeliverPull(r) => PullStep(s, r);
  }

  lemma {:induction false} RunKeepsInv(wanted: nat, window: nat, acts: seq<Action>)
    requires Possible(wanted, window, acts) && window > 0
    requires wanted + Trims(acts) < HALF
    ensures var s := Run(wanted, window, acts);
            && Inv(s)
            && s.rcv.wanted == wanted && s.rcv.window == window
            && s.headers + s.headersSeen == Trims(acts)
  {
    if acts == [] {
      StartInv(wanted, window);
    } else {
      var front, a := acts[..|acts| - 1], acts[|acts| - 1];
      RunKeepsInv(wanted, window, front);
      RequestsAreFew(Run(wanted, window, front));
      StepKeepsInv(Run(wanted, window, front), a);
      StepKeepsSizes(Run(wanted, window, front), a);
    }
  }

  lemma RequestsAreFew(s: Sys)
    requires Inv(s)
    ensures s.rcv.requestId <= s.rcv.wanted + s.headersSeen
  {
  }

  lemma StepKeepsSizes(s: Sys, a: Action)
    requires Enabled(s, a)
    ensures var t := Do(s, a);
            && t.rcv.wanted == s.rcv.wanted && t.rcv.window == s.rcv.window
            && t.headers + t.headersSeen == s.headers + s.headersSeen + (if a.Trim? then 1 else 0)
  {
  }

  lemma CreditOf(s: Sys)
    requires Inv(s) && s.rcv.window > 0 && s.rcv.received <= s.rcv.wanted
    ensures Credit(s) == Owed(s.rcv) + s.skips - s.late
    ensures s.skips < Max(Min(s.rcv.window, s.rcv.wanted), 1)
  {
  }

  /** Credit conservation, for every run and every order of arrival: until the transfer is complete, what is under way
      is what is owed, plus the skips of the last window, less the late arrivals; so credit is lost exactly by late
      arrivals. */
  lemma {:induction false} CreditLaw(wanted: nat, window: nat, acts: seq<Action>)
    requires Possible(wanted, window, acts) && window > 0
    requires wanted + Trims(acts) < HALF
    requires Run(wanted, window, acts).rcv.received <= wanted
    ensures var s := Run(wanted, window, acts);
            && Credit(s) == Owed(s.rcv) + s.skips - s.late
            && s.skips < Max(Min(window, wanted), 1)
  {
    RunKeepsInv(wanted, window, acts);
    CreditOf(Run(wanted, window, acts));
  }

  /** What the receiver sees of an action. */
  function SeenOf(a: Action): (r: seq<Receiver.Arrival>)
    ensures |r| <= 1
  {
    match a
    case DeliverSymbol(k) => [Receiver.TakeSymbol(k)]
    case DeliverHeader => [Receiver.TakeHeader]
    case ReleasePull => [Receiver.SendPull]
    case _ => []
  }

  function Seen(acts: seq<Action>): seq<Receiver.Arrival> {
    if acts == [] then [] else Seen(acts[..|acts| - 1]) + SeenOf(acts[|acts| - 1])
  }

  lemma DoIsSeen(s: Sys, a: Action)
    requires Enabled(s, a)
    ensures var t, r := Do(s, a), SeenOf(a);
            && t.rcv == (if r == [] then s.rcv else Receiver.Step(s.rcv, r[0]))
            && t.headersSeen == s.headersSeen + (if a.DeliverHeader? then 1 else 0)
            && t.skips == s.skips + (if a.DeliverSymbol? && SkipsInLastWindow(s.rcv, a.k) then 1 else 0)
            && t.late == s.late + (if a.DeliverSymbol? && ComesLate(s.rcv, a.k) then 1 else 0)
  {
  }

  lemma {:induction false} ReceiverSees(wanted: nat, window: nat, acts: seq<Action>)
    requires Possible(wanted, window, acts)
    ensures Run(wanted, window, acts).rcv == Receiver.After(wanted, window, Seen(acts))
    ensures Run(wanted, window, acts).headersSeen == Receiver.Headers(Seen(acts))
  {
    if acts != [] {
      var front, a := acts[..|acts| - 1], acts[|acts| - 1];
      ReceiverSees(wanted, window, front);
      DoIsSeen(Run(wanted, window, front), a);
      SeenGrows(wanted, window, Seen(front), SeenOf(a));
    }
  }

  lemma SeenGrows(wanted: nat, window: nat, seen: seq<Receiver.Arrival>, more: seq<Receiver.Arrival>)
    requires |more| <= 1
    ensures var c := Receiver.After(wanted, window, seen);
            Receiver.After(wanted, window, seen + more) == if more == [] then c else Receiver.Step(c, more[0])
    ensures Receiver.Headers(seen + more) ==
            Receiver.Headers(seen) + (if more != [] && more[0].TakeHeader? then 1 else 0)
  {
    if more == [] {
      assert seen + more == seen;
    } else {
      assert (seen + more)[..|seen|] == seen;
    }
  }

  ghost predicate Corrected(s: Sys, ks: seq<nat>) {
    && s.skips == |Receiver.Skippers(s.rcv.wanted, s.rcv.window, ks)|
    && s.late == |Receiver.Latecomers(s.rcv.wanted, s.rcv.window, ks)|
  }

  /** The two corrections of the credit law, over the arrived numbers alone: the arrivals of the last window that left a
      number out, and the earlier ones that brought an older number. */
  lemma CorrectionsAreArrivals(wanted: nat, window: nat, acts: seq<Action>)
    requires Possible(wanted, window, acts) && window > 0
    ensures var ks, s := Receiver.Symbols(Seen(acts)), Run(wanted, window, acts);
            && s.skips == |Receiver.Skippers(wanted, window, ks)|
            && s.late == |Receiver.Latecomers(wanted, window, ks)|
  {
    RunIsCorrected(wanted, window, acts);
    ReceiverSees(wanted, window, acts);
    IndexOfRun(wanted, window, Seen(acts));
  }

  lemma {:induction false} RunIsCorrected(wanted: nat, window: nat, acts: seq<Action>)
    requires Possible(wanted, window, acts) && window > 0
    ensures Corrected(Run(wanted, window, acts), Receiver.Symbols(Seen(acts)))
  {
    if acts == [] {
      StartIsCorrected(wanted, window);
    } else {
      var front, a := acts[..|acts| - 1], acts[|acts| - 1];
      RunIsCorrected(wanted, window, front);
      ReceiverSees(wanted, window, front);
      IndexOfRun(wanted, window, Seen(front));
      CorrectionStep(Run(wanted, window, front), a, Receiver.Symbols(Seen(front)));
      SymbolsSeen(acts);
    }
  }

  lemma StartIsCorrected(wanted: nat, window: nat)
    ensures Corrected(Start(wanted, window), [])
  {
    assert Receiver.Skippers(wanted, window, []) == {} && Receiver.Latecomers(wanted, window, []) == {};
  }

  lemma SymbolsSeen(acts: seq<Action>)
    requires acts != []
    ensures var front, a := acts[..|acts| - 1], acts[|acts| - 1];
            var ks := Receiver.Symbols(Seen(front));
            Receiver.Symbols(Seen(acts)) == if a.DeliverSymbol? then ks + [a.k] else ks
  {
    var front, a := acts[..|acts| - 1], acts[|acts| - 1];
    if SeenOf(a) == [] {
      assert Seen(acts) == Seen(front);
    } else {
      assert SeenOf(a) == [SeenOf(a)[0]];
      OneMoreSymbol(Seen(front), SeenOf(a)[0]);
    }
  }

  lemma OneMoreSymbol(seen: seq<Receiver.Arrival>, x: Receiver.Arrival)
    ensures var ks := Receiver.Symbols(seen);
            Receiver.Symbols(seen + [x]) == if x.TakeSymbol? then ks + [x.k] else ks
  {
    assert (seen + [x])[..|seen|] == seen;
    assert Receiver.Symbols(seen) + [] == Receiver.Symbols(seen);
  }

  lemma CorrectionStep(s: Sys, a: Action, ks: seq<nat>)
    requires Enabled(s, a) && s.rcv.window > 0 && s.rcv.received == |ks| && Corrected(s, ks)
    requires |ks| < s.rcv.wanted ==> s.rcv.esi == Largest(ks)
    ensures Corrected(Do(s, a), if a.DeliverSymbol? then ks + [a.k] else ks)
  {
    StepKeepsSizes(s, a);
    DoIsSeen(s, a);
    if a.DeliverSymbol? {
      Receiver.OneMoreArrival(s.rcv.wanted, s.rcv.window, ks, a.k);
    }
  }

  /** The receiver's count and index, from what it saw. */
  lemma IndexOfRun(wanted: nat, window: nat, seen: seq<Receiver.Arrival>)
    ensures var c, ks := Receiver.After(wanted, window, seen), Receiver.Symbols(seen);
            && c.wanted == wanted && c.window == window && c.received == |ks|
            && (|ks| < wanted ==> c.esi == Largest(ks))
  {
    Receiver.RunCountsSymbols(wanted, window, seen);
    Receiver.IndexIsLargest(wanted, window, seen);
    Receiver.WindowStays(wanted, window, seen);
  }

  /** While symbols are missing, only numbers above the receiver's index are under way. */
  ghost predicate Ahead(s: Sys) {
    s.rcv.received < s.rcv.wanted ==> s.rcv.esi <= s.snd.esi && forall k :: k in s.flight ==> k > s.rcv.esi
  }

  lemma InOrderStepStaysAhead(s: Sys, a: Action)
    requires Inv(s) && Enabled(s, a) && Ahead(s) && s.rcv.window > 0 && s.rcv.requestId < HALF
    requires KeepsOrder(s, a)
    ensures Ahead(Do(s, a)) && Do(s, a).late == s.late
  {
    match a
    case DeliverPull(r) => Sender.PullAnswersUpTo(s.snd, r);
    case DeliverSymbol(k) =>
    case _ =>
  }

  lemma {:induction false} InOrderIsNeverLate(wanted: nat, window: nat, acts: seq<Action>)
    requires Possible(wanted, window, acts) && InOrder(wanted, window, acts) && window > 0
    requires wanted + Trims(acts) < HALF
    ensures Ahead(Run(wanted, window, acts)) && Run(wanted, window, acts).late == 0
  {
    if acts == [] {
      StartInv(wanted, window);
    } else {
      var front, a := acts[..|acts| - 1], acts[|acts| - 1];
      RunKeepsInv(wanted, window, front);
      InOrderIsNeverLate(wanted, window, front);
      InOrderStepStaysAhead(Run(wanted, window, front), a);
    }
  }

  /** What a run costs: with `h` headers received, at most wanted + window - 1 + h symbols are ever sent. */
  lemma SymbolsSent(wanted: nat, window: nat, acts: seq<Action>)
    requires Possible(wanted, window, acts) && window > 0 && wanted > 0
    requires wanted + Trims(acts) < HALF
    ensures var s := Run(wanted, window, acts);
            && s.snd.esi <= wanted + window - 1 + s.headersSeen
            && s.rcv.requestId <= wanted - 1 + s.headersSeen
  {
    RunKeepsInv(wanted, window, acts);
  }

  /** Every action of a run is accounted for in the state it leads to. */
  lemma {:induction false} ActionsAreCounted(wanted: nat, window: nat, acts: seq<Action>)
    requires Possible(wanted, window, acts) && window > 0
    requires wanted + Trims(acts) < HALF
    ensures var s := Run(wanted, window, acts);
            var released := s.rcv.requestId - |s.rcv.pulls|;
            |acts| == s.rcv.received + Trims(acts) + s.headersSeen + 2 * released - |s.pulls|
  {
    if acts != [] {
      var front, a := acts[..|acts| - 1], acts[|acts| - 1];
      var s := Run(wanted, window, front);
      RunKeepsInv(wanted, window, front);
      ActionsAreCounted(wanted, window, front);
      StepIsCounted(s, a);
    }
  }

  /** How many actions it took to get here. */
  function Counted(s: Sys): int {
    s.rcv.received + (s.headers + s.headersSeen) + s.headersSeen + 2 * (s.rcv.requestId - |s.rcv.pulls|) - |s.pulls|
  }

  lemma StepIsCounted(s: Sys, a: Action)
    requires Inv(s) && Enabled(s, a) && s.rcv.window > 0 && s.rcv.requestId < HALF
    ensures Counted(Do(s, a)) == Counted(s) + 1
  {
    match a
    case DeliverSymbol(k) =>
    case Trim(k) =>
    case DeliverHeader =>
    case ReleasePull => ReleaseStep(s);
    case DeliverPull(r) => assert |s.pulls - {r}| == |s.pulls| - 1;
  }

  /** No state is reached by more than 3 * wanted + window + 5 * t actions with `t` trims. */
  lemma CountIsBounded(s: Sys)
    requires Inv(s) && s.rcv.window > 0 && s.rcv.wanted > 0
    ensures Counted(s) <= 3 * s.rcv.wanted + s.rcv.window + 5 * (s.headers + s.headersSeen)
    ensures s.rcv.received + s.headersSeen <= s.rcv.wanted + s.rcv.window + s.headers + s.headersSeen
  {
  }

  /** Termination: a run with at most `t` trims is at most 3 * wanted + window + 5 * t actions long. */
  lemma RunsAreBounded(wanted: nat, window: nat, acts: seq<Action>)
    requires Possible(wanted, window, acts) && window > 0 && wanted > 0
    requires wanted + Trims(acts) < HALF
    ensures |acts| <= 3 * wanted + window + 5 * Trims(acts)
  {
    RunKeepsInv(wanted, window, acts);
    SymbolsSent(wanted, window, acts);
    ActionsAreCounted(wanted, window, acts);
  }

  /** With symbols missing and nothing late there is an action that keeps the order and trims nothing. */
  lemma NextInOrder(s: Sys) returns (a: Action)
    requires Inv(s) && s.rcv.window > 0 && s.rcv.received < s.rcv.wanted && s.late == 0
    ensures Enabled(s, a) && !a.Trim? && KeepsOrder(s, a)
  {
    CreditOf(s);
    if s.headers > 0 {
      a := DeliverHeader;
    } else if s.rcv.pulls != [] {
      a := ReleasePull;
    } else if s.flight != {} {
      var k := Least(s.flight);
      a := DeliverSymbol(k);
    } else {
      a := DeliverPull(s.rcv.requestId);
    }
  }

  lemma {:induction false} Least(s: set<nat>) returns (m: nat)
    requires s != {}
    ensures m in s && forall k :: k in s ==> m <= k
  {
    m :| m in s;
    var rest := s - {m};
    assert forall k :: k in s ==> k == m || k in rest;
    if rest != {} {
      var n := Least(rest);
      forall k | k in s
        ensures Min(m, n) <= k
      {
        assert k == m || k in rest;
      }
      m := Min(m, n);
    }
  }

  // ---------------------------------------------------------------- when reordering is harmless

  /** With a window of one there is never more than one symbol under way, so that every run is in order. */
  lemma OneSymbolInFlight(s: Sys)
    requires Inv(s) && s.rcv.window == 1
    ensures forall k, l :: k in s.flight && l in s.flight ==> k == l
  {
    assert |s.flight| <= 1;
    forall k, l | k in s.flight && l in s.flight
      ensures k == l
    {
      if k != l {
        assert {k, l} <= s.flight && |{k, l}| == 2;
        SubsetSize({k, l}, s.flight);
      }
    }
  }

  lemma {:induction false} SubsetSize(s: set<nat>, t: set<nat>)
    requires s <= t
    ensures |s| <= |t|
  {
    if s != {} {
      var x :| x in s;
      SubsetSize(s - {x}, t - {x});
    }
  }

  /** Before its first symbol a receiver's index is zero. */
  ghost predicate StartsAtZero(s: Sys) {
    s.rcv.received == 0 ==> s.rcv.esi == 0
  }

  /** If at most the first arrival comes before the last window, none is late. */
  lemma {:induction false} FewWantedIsNeverLate(wanted: nat, window: nat, acts: seq<Action>)
    requires Possible(wanted, window, acts) && window > 0 && wanted <= window + 1
    requires wanted + Trims(acts) < HALF
    ensures StartsAtZero(Run(wanted, window, acts)) && Run(wanted, window, acts).late == 0
  {
    if acts != [] {
      var front, a := acts[..|acts| - 1], acts[|acts| - 1];
      RunKeepsInv(wanted, window, front);
      FewWantedIsNeverLate(wanted, window, front);
      FewWantedStep(Run(wanted, window, front), a);
    }
  }

  lemma FewWantedStep(s: Sys, a: Action)
    requires Inv(s) && Enabled(s, a) && s.rcv.wanted <= s.rcv.window + 1
    requires StartsAtZero(s) && s.late == 0
    ensures StartsAtZero(Do(s, a)) && Do(s, a).late == 0
  {
  }

  // ---------------------------------------------------------------- when reordering can stop a transfer

  /** One symbol came late, and since then the symbols have come in sequence: those under way are the ones behind the
      index. */
  ghost predicate OneCreditShort(s: Sys) {
    && s.rcv.received < s.rcv.wanted && s.late == 1 && s.skips == 0 && s.headers == 0
    && s.rcv.esi <= s.snd.esi && s.flight == Numbers(s.rcv.esi, s.snd.esi)
  }

  /** Something is under way, or waits to be released. */
  predicate Busy(s: Sys) {
    s.flight != {} || s.headers > 0 || s.pulls != {} || s.rcv.pulls != []
  }

  /** The next action of such a run: a pull leaves the queue, the next symbol arrives, or a pull arrives. */
  lemma GoOnInSequence(s: Sys) returns (a: Action)
    requires Inv(s) && OneCreditShort(s) && Busy(s)
    ensures Enabled(s, a) && !a.Trim?
    ensures a.DeliverSymbol? ==> a.k == s.rcv.esi + 1
  {
    if s.rcv.pulls != [] {
      a := ReleasePull;
    } else if s.flight != {} {
      a := DeliverSymbol(s.rcv.esi + 1);
      var k :| k in s.flight;
      assert s.rcv.esi < k <= s.snd.esi;
    } else {
      var r :| r in s.pulls;
      a := DeliverPull(r);
    }
  }

  /** The symbol that would be the last is never on its way. */
  lemma TwoStillMissing(s: Sys)
    requires Inv(s) && OneCreditShort(s) && s.rcv.window > 0 && s.flight != {}
    ensures s.rcv.received + 2 <= s.rcv.wanted
  {
    CreditOf(s);
  }

  /** The next symbol in sequence, with more to come behind it. */
  lemma NextInSequence(c: Receiver.Conn)
    requires Receiver.Inv(c) && c.received + 2 <= c.wanted
    ensures var d := Receiver.SymbolArrives(c, c.esi + 1);
            d.esi == c.esi + 1 && d.received == c.received + 1 && d.wanted == c.wanted
    ensures !SkipsInLastWindow(c, c.esi + 1) && !ComesLate(c, c.esi + 1)
  {
  }

  lemma NextSymbolStaysShort(s: Sys)
    requires Inv(s) && OneCreditShort(s) && s.rcv.window > 0 && s.rcv.esi < s.snd.esi
    ensures s.rcv.esi + 1 in s.flight && OneCreditShort(Do(s, DeliverSymbol(s.rcv.esi + 1)))
  {
    assert s.rcv.esi + 1 in s.flight;
    TwoStillMissing(s);
    InSequenceStaysShort(s);
  }

  lemma InSequenceStaysShort(s: Sys)
    requires Receiver.Inv(s.rcv) && s.rcv.received + 2 <= s.rcv.wanted
    requires OneCreditShort(s) && s.rcv.esi < s.snd.esi
    ensures s.rcv.esi + 1 in s.flight && OneCreditShort(Do(s, DeliverSymbol(s.rcv.esi + 1)))
  {
    NextInSequence(s.rcv);
    FirstLeaves(s.rcv.esi, s.snd.esi);
  }

  lemma FirstLeaves(lo: nat, hi: nat)
    requires lo < hi
    ensures lo + 1 in Numbers(lo, hi) && Numbers(lo, hi) - {lo + 1} == Numbers(lo + 1, hi)
  {
  }

  lemma PullStaysShort(s: Sys, r: nat)
    requires Inv(s) && OneCreditShort(s) && Enabled(s, DeliverPull(r)) && s.rcv.requestId < HALF
    ensures OneCreditShort(Do(s, DeliverPull(r)))
  {
    Sender.PullAnswersUpTo(s.snd, r);
    var esi := Do(s, DeliverPull(r)).snd.esi;
    assert Numbers(s.rcv.esi, s.snd.esi) + Numbers(s.snd.esi, esi) == Numbers(s.rcv.esi, esi);
  }

  lemma StaysOneCreditShort(s: Sys, a: Action)
    requires Inv(s) && OneCreditShort(s) && Enabled(s, a) && !a.Trim?
    requires s.rcv.window > 0 && s.rcv.requestId < HALF
    requires a.DeliverSymbol? ==> a.k == s.rcv.esi + 1
    ensures OneCreditShort(Do(s, a))
  {
    match a
    case DeliverSymbol(k) => NextSymbolStaysShort(s);
    case DeliverPull(r) => PullStaysShort(s, r);
    case _ =>
  }

  /** Symbol 2 overtakes symbol 1. */
  lemma SecondIsFirst(wanted: nat, window: nat) returns (s: Sys)
    requires window >= 2 && wanted >= window + 2
    ensures 2 in Start(wanted, window).flight && s == Do(Start(wanted, window), DeliverSymbol(2))
    ensures 1 in s.flight && AfterSecond(s) && s.rcv.wanted == wanted && s.rcv.window == window
  {
    Sender.StartWindowSends(window);
    s := Do(Start(wanted, window), DeliverSymbol(2));
  }

  ghost predicate AfterSecond(s: Sys) {
    && s.rcv.esi == 2 && s.rcv.received == 1 && !s.rcv.finished && s.snd.esi == s.rcv.window
    && s.late == 0 && s.skips == 0 && s.headers == 0 && s.flight == Numbers(0, s.rcv.window) - {2}
  }

  /** Symbol 1 comes late then. */
  lemma FirstIsLate(s: Sys)
    requires AfterSecond(s) && s.rcv.window >= 2 && s.rcv.wanted >= s.rcv.window + 2
    ensures 1 in s.flight && OneCreditShort(Do(s, DeliverSymbol(1)))
  {
    var c, d := s.rcv, Receiver.SymbolArrives(s.rcv, 1);
    assert d.esi == 2 && d.received == 2 && d.wanted == c.wanted;
    assert s.flight - {1} == Numbers(2, s.snd.esi);
  }
}

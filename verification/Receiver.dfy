/** The receiving half of a connection in ESTABLISHED: what one arriving symbol or trimmed header does. */
module Receiver {
  import opened SeqNum

  /** The receiver's variables. `wanted` is numSymbolsToGet, `window` the initial window IW, `esi` the internal symbol
      index, `received` numberReceivedSymbols, `pulls` the pull queue (front first) and `notAdded` connNotAddedYet.
      `toApp` lists the symbols handed to the application and `peerClosed` counts its PEER_CLOSED indications. */
  datatype Conn = Conn(wanted: nat, window: nat, esi: nat, received: nat, requestId: nat, pulls: seq<nat>,
                       finished: bool, notAdded: bool, reported: bool, toApp: seq<nat>, peerClosed: nat)

  function Fresh(wanted: nat, window: nat): Conn {
    Conn(wanted, window, 0, 0, 0, [], false, true, false, [], 0)
  }

  /** The next arrival is one of the first `wanted - window`, each of which asks for a replacement. */
  predicate BeforeLastWindow(c: Conn) {
    c.received + 1 <= c.wanted - c.window
  }

  /** The next arrival still leaves symbols missing. */
  predicate StillWanting(c: Conn) {
    c.received + 1 < c.wanted && !c.finished
  }

  /** Symbol `k` makes the receiver issue a pull: it skips ahead, or it is the expected one before the last window. */
  predicate PullsFor(c: Conn, k: nat) {
    StillWanting(c) && (k > c.esi + 1 || (k == c.esi + 1 && BeforeLastWindow(c)))
  }

  function AddPull(c: Conn): Conn {
    c.(requestId := c.requestId + 1, pulls := c.pulls + [c.requestId + 1])
  }

  /** The internal index after symbol `k`. */
  function NextEsi(c: Conn, k: nat): nat {
    if !StillWanting(c) then c.esi + 1 else if k > c.esi then k else c.esi
  }

  /** The connection enters the pacer's table with this symbol. */
  predicate RegistersOnSymbol(c: Conn) {
    c.received == 0 && c.received + 1 <= c.wanted && c.notAdded
  }

  predicate RegistersOnHeader(c: Conn) {
    c.received == 0 && c.notAdded
  }

  /** A symbol's arrival up to the pacer's registration. */
  function Counted(c: Conn, k: nat): Conn {
    (if PullsFor(c, k) then AddPull(c) else c).(esi := NextEsi(c, k), received := c.received + 1,
                                               finished := c.finished || c.received + 1 > c.wanted)
  }

  /** A symbol's arrival after registration: it goes to the application, and the end is reported once. */
  function HandedOver(c: Conn, k: nat): Conn {
    var reports := !c.reported && (c.received == c.wanted || c.finished);
    c.(toApp := if c.finished then c.toApp else c.toApp + [k],
       reported := c.reported || reports,
       peerClosed := c.peerClosed + (if reports then 1 else 0))
  }

  function SymbolArrives(c: Conn, k: nat): Conn {
    var d := Counted(c, k);
    if d.received > d.wanted then d else HandedOver(d.(notAdded := c.notAdded && d.received != 1), k)
  }

  function HeaderArrives(c: Conn): Conn {
    AddPull(c).(notAdded := c.notAdded && c.received != 0)
  }

  /** Sends the front pull. */
  function ReleasePull(c: Conn): Conn
    requires c.pulls != []
  {
    c.(pulls := c.pulls[1..])
  }

  /** What holds of a connection whatever has arrived, as long as nobody else finishes it. */
  ghost predicate Inv(c: Conn) {
    && (c.finished <==> c.received > c.wanted)
    && c.peerClosed == (if 0 < c.wanted <= c.received then 1 else 0)
    && c.reported == (0 < c.wanted <= c.received)
    && |c.toApp| == (if c.received <= c.wanted then c.received else c.wanted)
    && ConsecutivePulls(c)
  }

  /** The pull queue is the run of consecutive numbers that ends with the last request. */
  ghost predicate ConsecutivePulls(c: Conn) {
    && |c.pulls| <= c.requestId
    && forall i :: 0 <= i < |c.pulls| ==> c.pulls[i] == c.requestId - |c.pulls| + 1 + i
  }

  /** An endpoint's RQConnection object, restricted to the receiving half. */
  class RQConnection {
    const wanted: nat
    const window: nat
    var esi: nat
    var received: nat
    var requestId: nat
    var pulls: seq<nat>
    var finished: bool
    var notAdded: bool
    var reported: bool
    var toApp: seq<nat>
    var peerClosed: nat

    function View(): Conn
      reads this
    {
      Conn(wanted, window, esi, received, requestId, pulls, finished, notAdded, reported, toApp, peerClosed)
    }

    constructor (wanted: nat, window: nat)
      ensures View() == Fresh(wanted, window)
    {
      this.wanted, this.window := wanted, window;
      esi, received, requestId, pulls := 0, 0, 0, [];
      finished, notAdded, reported, toApp, peerClosed := false, true, false, [], 0;
    }

    /** addRequestToPullsQueue, without waking the pacer. */
    method AddRequestToPullsQueue()
      modifies this
      ensures View() == AddPull(old(View()))
    {
      requestId := requestId + 1;
      pulls := pulls + [requestId];
    }

    /** sendRequestFromPullsQueue: pops the front pull, if there is one, and returns it. */
    method SendRequestFromPullsQueue() returns (sent: seq<nat>)
      modifies this
      ensures old(pulls) == [] ==> sent == [] && View() == old(View())
      ensures old(pulls) != [] ==> sent == [old(pulls[0])] && View() == ReleasePull(old(View()))
    {
      if |pulls| > 0 {
        sent := [pulls[0]];
        pulls := pulls[1..];
      } else {
        sent := [];
      }
    }

    /** The pull decision of an arriving symbol. `esi` and `received` already count it, and `gap` is how far its number
        is ahead of `esi`. */
    method DecidePull(k: nat) returns (pulled: bool)
      requires esi > 0 && received > 0
      requires received < wanted && !finished
      modifies this
      ensures var c := old(View()).(esi := old(esi) - 1, received := old(received) - 1);
              && pulled == PullsFor(c, k)
              && View() == (if pulled then AddPull(c) else c).(esi := NextEsi(c, k), received := old(received))
    {
      var gap: int := k - esi;
      pulled := false;
      if gap == 0 && received <= wanted - window {
        AddRequestToPullsQueue();
        pulled := true;
      } else if gap > 0 && received <= wanted - window {
        AddRequestToPullsQueue();
        pulled := true;
        esi := k;
      } else if gap < 0 {
        esi := esi - 1;
      } else if gap > 0 && received > wanted - window {
        AddRequestToPullsQueue();
        pulled := true;
        esi := k;
      }
    }

    /** The part of a symbol's arrival that comes before the pacer's registration. */
    method CountSymbol(k: nat) returns (pulled: bool, surplus: bool)
      modifies this
      ensures var c := old(View());
              && pulled == PullsFor(c, k)
              && surplus == (c.received + 1 > c.wanted)
              && View() == Counted(c, k)
    {
      esi := esi + 1;
      received := received + 1;
      pulled, surplus := false, false;
      if received > wanted {
        finished := true;
        surplus := true;
      } else if received < wanted && !finished {
        pulled := DecidePull(k);
      }
    }

    /** The part of a symbol's arrival that comes after registration: hand it to the application and report the end. */
    method HandOver(k: nat)
      modifies this
      ensures View() == HandedOver(old(View()), k)
    {
      if !finished {
        toApp := toApp + [k];
      }
      if !reported {
        if received == wanted || finished {
          peerClosed := peerClosed + 1;
          reported := true;
        }
      }
    }
  }

  lemma {:induction false} SymbolKeepsInv(c: Conn, k: nat)
    requires Inv(c)
    ensures Inv(SymbolArrives(c, k))
  {
    var d := SymbolArrives(c, k);
    assert ConsecutivePulls(AddPull(c));
    assert ConsecutivePulls(d);
  }

  lemma HeaderKeepsInv(c: Conn)
    requires Inv(c)
    ensures Inv(HeaderArrives(c))
  {
    assert ConsecutivePulls(AddPull(c));
  }

  // ---------------------------------------------------------------- whole runs

  datatype Arrival = TakeSymbol(k: nat) | TakeHeader | SendPull

  function Step(c: Conn, a: Arrival): Conn {
    match a
    case TakeSymbol(k) => SymbolArrives(c, k)
    case TakeHeader => HeaderArrives(c)
    case SendPull => if c.pulls == [] then c else ReleasePull(c)
  }

  function After(wanted: nat, window: nat, acts: seq<Arrival>): Conn {
    if acts == [] then Fresh(wanted, window) else Step(After(wanted, window, acts[..|acts| - 1]), acts[|acts| - 1])
  }

  /** The symbol numbers that arrived, in order. */
  function Symbols(acts: seq<Arrival>): seq<nat> {
    if acts == [] then []
    else Symbols(acts[..|acts| - 1]) + if acts[|acts| - 1].TakeSymbol? then [acts[|acts| - 1].k] else []
  }

  /** The pulls that left the queue, in order. */
  function Released(wanted: nat, window: nat, acts: seq<Arrival>): seq<nat> {
    if acts == [] then []
    else
      var c := After(wanted, window, acts[..|acts| - 1]);
      Released(wanted, window, acts[..|acts| - 1]) + if acts[|acts| - 1].SendPull? && c.pulls != [] then [c.pulls[0]]
        else []
  }

  /** `ks` is 1, 2, ..., n. */
  ghost predicate CountsTo(ks: seq<nat>, n: nat) {
    |ks| == n && forall i :: 0 <= i < n ==> ks[i] == i + 1
  }

  lemma {:induction false} RunCountsSymbols(wanted: nat, window: nat, acts: seq<Arrival>)
    ensures var c, n := After(wanted, window, acts), |Symbols(acts)|;
            && Inv(c) && c.wanted == wanted && c.received == n
            && c.toApp == Symbols(acts)[..Min(n, wanted)]
  {
    if acts != [] {
      var front, a := acts[..|acts| - 1], acts[|acts| - 1];
      var c := After(wanted, window, front);
      RunCountsSymbols(wanted, window, front);
      match a
      case TakeSymbol(k) => SymbolKeepsInv(c, k);
      case TakeHeader => HeaderKeepsInv(c);
      case SendPull =>
    }
  }

  lemma LargestOfMore(ks: seq<nat>, k: nat)
    ensures Largest(ks + [k]) == Max(Largest(ks), k)
  {
    assert (ks + [k])[..|ks|] == ks;
  }

  lemma IndexMoves(c: Conn, a: Arrival)
    requires Inv(c)
    ensures Step(c, a).esi ==
            if !a.TakeSymbol? then c.esi else if c.received + 1 < c.wanted then Max(c.esi, a.k) else c.esi + 1
  {
  }

  /** The largest number that came while symbols were missing, plus one for each arrival from the last one wanted on. */
  function Index(wanted: nat, ks: seq<nat>): nat {
    var m := Min(|ks|, Max(wanted - 1, 0));
    Largest(ks[..m]) + |ks| - m
  }

  lemma IndexOfMore(wanted: nat, ks: seq<nat>, k: nat)
    ensures Index(wanted, ks + [k]) ==
            if |ks| + 1 < wanted then Max(Index(wanted, ks), k) else Index(wanted, ks) + 1
  {
    var more := ks + [k];
    if |ks| + 1 < wanted {
      LargestOfMore(ks, k);
      assert more[..|more|] == more && ks[..|ks|] == ks;
    } else {
      var m := Max(wanted - 1, 0);
      assert more[..m] == ks[..m];
    }
  }

  /** The index is the largest symbol number seen while symbols are missing; from then on it counts arrivals. */
  lemma {:induction false} IndexIsLargest(wanted: nat, window: nat, acts: seq<Arrival>)
    ensures After(wanted, window, acts).esi == Index(wanted, Symbols(acts))
    ensures |Symbols(acts)| < wanted ==> After(wanted, window, acts).esi == Largest(Symbols(acts))
  {
    if acts != [] {
      var front, a := acts[..|acts| - 1], acts[|acts| - 1];
      IndexIsLargest(wanted, window, front);
      RunCountsSymbols(wanted, window, front);
      IndexMoves(After(wanted, window, front), a);
      SymbolsOfMore(acts);
      if a.TakeSymbol? {
        IndexOfMore(wanted, Symbols(front), a.k);
      }
    }
    assert Symbols(acts)[..|Symbols(acts)|] == Symbols(acts);
  }

  lemma SymbolsOfMore(acts: seq<Arrival>)
    requires acts != []
    ensures var front, a := acts[..|acts| - 1], acts[|acts| - 1];
            Symbols(acts) == if a.TakeSymbol? then Symbols(front) + [a.k] else Symbols(front)
  {
  }

  /** An arrival changes the pull queue by one pull at most: at the end, or at the front when one is released. */
  lemma StepMovesPulls(c: Conn, a: Arrival)
    ensures var d := Step(c, a);
            if a.SendPull? then d.requestId == c.requestId && (c.pulls != [] ==> c.pulls == [c.pulls[0]] + d.pulls)
            else (d.requestId == c.requestId && d.pulls == c.pulls)
                 || (d.requestId == c.requestId + 1 && d.pulls == c.pulls + [c.requestId + 1])
    ensures a.SendPull? && c.pulls == [] ==> Step(c, a) == c
  {
  }

  lemma CountsOneMore(sent: seq<nat>, pulls: seq<nat>, n: nat)
    requires CountsTo(sent + pulls, n)
    ensures CountsTo(sent + (pulls + [n + 1]), n + 1)
  {
    assert sent + (pulls + [n + 1]) == (sent + pulls) + [n + 1];
  }

  lemma {:induction false} PullsAreNumbered(wanted: nat, window: nat, acts: seq<Arrival>)
    ensures var c := After(wanted, window, acts); CountsTo(Released(wanted, window, acts) + c.pulls, c.requestId)
  {
    if acts != [] {
      var front, a := acts[..|acts| - 1], acts[|acts| - 1];
      var c, sent := After(wanted, window, front), Released(wanted, window, front);
      var d := After(wanted, window, acts);
      PullsAreNumbered(wanted, window, front);
      StepMovesPulls(c, a);
      CountsOneMore(sent, c.pulls, c.requestId);
      if a.SendPull? && c.pulls != [] {
        assert Released(wanted, window, acts) + d.pulls == sent + c.pulls;
      } else {
        assert Released(wanted, window, acts) == sent;
      }
    }
  }

  // ---------------------------------------------------------------- which arrivals ask for a symbol

  /** The number that arrived at place `i` exceeds all earlier ones by more than `gap`; before the first it was 0. */
  ghost predicate Exceeds(ks: seq<nat>, i: nat, gap: nat)
    requires i < |ks|
  {
    ks[i] > gap && forall j :: 0 <= j < i ==> ks[i] > ks[j] + gap
  }

  /** The arrivals up to the (wanted - window)-th that bring a number above all earlier ones. */
  ghost function Replacers(wanted: nat, window: nat, ks: seq<nat>): set<nat> {
    set i | 0 <= i < |ks| && i + 1 <= wanted - window && Exceeds(ks, i, 0)
  }

  /** The arrivals up to the (wanted - window)-th that bring an older number. */
  ghost function Latecomers(wanted: nat, window: nat, ks: seq<nat>): set<nat> {
    set i | 0 <= i < |ks| && i + 1 <= wanted - window && !Exceeds(ks, i, 0)
  }

  /** The later arrivals but the last that leave out a number. */
  ghost function Skippers(wanted: nat, window: nat, ks: seq<nat>): set<nat> {
    set i | 0 <= i < |ks| && wanted - window < i + 1 < wanted && Exceeds(ks, i, 1)
  }

  function Headers(acts: seq<Arrival>): nat {
    if acts == [] then 0 else Headers(acts[..|acts| - 1]) + (if acts[|acts| - 1].TakeHeader? then 1 else 0)
  }

  /** Against the largest earlier number. */
  lemma ExceedsLargest(ks: seq<nat>, k: nat, gap: nat)
    ensures Exceeds(ks + [k], |ks|, gap) <==> k > Largest(ks) + gap
  {
    var more := ks + [k];
    assert forall j :: 0 <= j < |ks| ==> more[j] == ks[j];
    if Exceeds(more, |ks|, gap) && Largest(ks) > 0 {
      var j :| 0 <= j < |ks| && ks[j] == Largest(ks);
      assert more[|ks|] > more[j] + gap;
    }
  }

  lemma EarlierStay(ks: seq<nat>, k: nat, i: nat, gap: nat)
    requires i < |ks|
    ensures Exceeds(ks + [k], i, gap) <==> Exceeds(ks, i, gap)
  {
    assert forall j :: 0 <= j <= i ==> (ks + [k])[j] == ks[j];
  }

  /** One more arrival joins at most one of the three. */
  lemma OneMoreArrival(wanted: nat, window: nat, ks: seq<nat>, k: nat)
    ensures var more, n := ks + [k], |ks| + 1;
            && |Replacers(wanted, window, more)| == |Replacers(wanted, window, ks)|
                 + (if n <= wanted - window && k > Largest(ks) then 1 else 0)
            && |Latecomers(wanted, window, more)| == |Latecomers(wanted, window, ks)|
                 + (if n <= wanted - window && k <= Largest(ks) then 1 else 0)
            && |Skippers(wanted, window, more)| == |Skippers(wanted, window, ks)|
                 + (if wanted - window < n < wanted && k > Largest(ks) + 1 then 1 else 0)
  {
    ExceedsLargest(ks, k, 0);
    ExceedsLargest(ks, k, 1);
    forall i: nat | i < |ks|
      ensures Exceeds(ks + [k], i, 0) <==> Exceeds(ks, i, 0)
      ensures Exceeds(ks + [k], i, 1) <==> Exceeds(ks, i, 1)
    {
      EarlierStay(ks, k, i, 0);
      EarlierStay(ks, k, i, 1);
    }
    var more := ks + [k];
    GrowsBy(Replacers(wanted, window, ks), Replacers(wanted, window, more), |ks|);
    GrowsBy(Latecomers(wanted, window, ks), Latecomers(wanted, window, more), |ks|);
    GrowsBy(Skippers(wanted, window, ks), Skippers(wanted, window, more), |ks|);
  }

  lemma GrowsBy(s: set<nat>, t: set<nat>, n: nat)
    requires n !in s && forall i :: i in t <==> i in s || (i == n && n in t)
    ensures |t| == |s| + (if n in t then 1 else 0)
  {
    assert t == if n in t then s + {n} else s;
  }

  /** The last-window rule, over the arrivals alone: in every run as many pulls have been issued as headers came,
      numbers above all earlier ones up to the (wanted - window)-th arrival, and numbers that left one out between it
      and the last arrival wanted. */
  lemma {:induction false} PullsAreAskedFor(wanted: nat, window: nat, acts: seq<Arrival>)
    requires window > 0
    ensures var ks := Symbols(acts);
            After(wanted, window, acts).requestId ==
            Headers(acts) + |Replacers(wanted, window, ks)| + |Skippers(wanted, window, ks)|
  {
    var ks := Symbols(acts);
    if acts == [] {
      assert Replacers(wanted, window, ks) == {} && Skippers(wanted, window, ks) == {};
    } else {
      var front, a := acts[..|acts| - 1], acts[|acts| - 1];
      PullsAreAskedFor(wanted, window, front);
      RunCountsSymbols(wanted, window, front);
      IndexIsLargest(wanted, window, front);
      WindowStays(wanted, window, front);
      if a.TakeSymbol? {
        OneMoreArrival(wanted, window, Symbols(front), a.k);
      } else {
        assert ks == Symbols(front);
      }
      StepAsks(After(wanted, window, front), a);
    }
  }

  lemma {:induction false} WindowStays(wanted: nat, window: nat, acts: seq<Arrival>)
    ensures After(wanted, window, acts).window == window
  {
    if acts != [] {
      WindowStays(wanted, window, acts[..|acts| - 1]);
    }
  }

  lemma StepAsks(c: Conn, a: Arrival)
    requires Inv(c)
    ensures Step(c, a).requestId == c.requestId +
              match a
              case TakeSymbol(k) =>
                var n := c.received + 1;
                if n < c.wanted && ((n <= c.wanted - c.window && k > c.esi)
                                    || (n > c.wanted - c.window && k > c.esi + 1)) then 1 else 0
              case TakeHeader => 1
              case SendPull => 0
  {
  }

  /** Any arrival order: the application gets exactly the first min(n, W) symbols, in the order they came, and one
      PEER_CLOSED once n reaches W > 0; while n < W the index is the largest number seen; and the pulls that left and
      those that wait are together 1, 2, ..., request_id. */
  lemma ReceiverRun(wanted: nat, window: nat, acts: seq<Arrival>)
    ensures var c, ks := After(wanted, window, acts), Symbols(acts);
            && c.received == |ks|
            && c.toApp == ks[..Min(|ks|, wanted)]
            && c.peerClosed == (if 0 < wanted <= |ks| then 1 else 0)
            && c.esi == Index(wanted, ks)
            && (|ks| < wanted ==> c.esi == Largest(ks))
            && CountsTo(Released(wanted, window, acts) + c.pulls, c.requestId)
  {
    RunCountsSymbols(wanted, window, acts);
    IndexIsLargest(wanted, window, acts);
    PullsAreNumbered(wanted, window, acts);
  }
}

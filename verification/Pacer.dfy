/** The pull pacer of one host: one timer, a round robin over the registered connections, and the `nap` flag. */
module Pacer {
  import opened Receiver

  /** Microseconds between two pulls of one host. */
  const SPACING := 8.0

  datatype Timer = Off | At(due: real)

  /** A pull that left the host: when, from which slot of the table, and its number. */
  datatype Sent = Sent(time: real, slot: nat, pull: nat)

  /** `conns` are the host's receiving connections; `registered` is requestCONNMap, whose keys are 0, 1, ..., as the
      positions in `conns` of its values; `log` is the history of pulls sent. */
  datatype Host = Host(conns: seq<Conn>, registered: seq<nat>, counter: nat, nap: bool, timer: Timer, now: real,
                       log: seq<Sent>)
  {
    ghost predicate WellFormed() {
      && counter <= |registered|
      && (forall s :: 0 <= s < |registered| ==> registered[s] < |conns|)
    }
  }

  predicate AllEmpty(h: Host)
    requires h.WellFormed()
  {
    forall s :: 0 <= s < |h.registered| ==> h.conns[h.registered[s]].pulls == []
  }

  predicate AllFinished(h: Host)
    requires h.WellFormed()
  {
    forall s :: 0 <= s < |h.registered| ==> h.conns[h.registered[s]].finished
  }

  function Arm(h: Host): Host {
    h.(timer := At(h.now + SPACING))
  }

  /** What addRequestToPullsQueue does to the pacer. */
  function Wake(h: Host): Host {
    if h.nap then Arm(h) else h
  }

  /** Connection `i` joins the table, followed by sendFirstRequest. */
  function Register(h: Host, i: nat): Host
    requires h.WellFormed() && i < |h.conns|
  {
    var g := h.(registered := h.registered + [i]);
    if AllEmpty(g) then g else Arm(g)
  }

  /** allConnFinished, called for its effect. */
  function StopIfFinished(h: Host): Host
    requires h.WellFormed()
  {
    if AllFinished(h) then h.(timer := Off) else h
  }

  function OnSymbol(h: Host, i: nat, k: nat): (g: Host)
    requires h.WellFormed() && i < |h.conns|
    ensures g.WellFormed() && |g.conns| == |h.conns|
  {
    var c := h.conns[i];
    var h1 := h.(conns := h.conns[i := SymbolArrives(c, k)]);
    var h2 := if PullsFor(c, k) then Wake(h1) else h1;
    if c.received + 1 > c.wanted then StopIfFinished(h2)
    else if RegistersOnSymbol(c) then Register(h2, i)
    else h2
  }

  function OnHeader(h: Host, i: nat): (g: Host)
    requires h.WellFormed() && i < |h.conns|
    ensures g.WellFormed() && |g.conns| == |h.conns|
  {
    var c := h.conns[i];
    var h2 := Wake(h.(conns := h.conns[i := HeaderArrives(c)]));
    if RegistersOnHeader(c) then Register(h2, i) else h2
  }

  /** Every entry of the table is a connection. */
  ghost predicate Table(conns: seq<Conn>, registered: seq<nat>) {
    forall s :: 0 <= s < |registered| ==> registered[s] < |conns|
  }

  /** A counter that has reached the end of a table of `m` slots starts over. */
  function Around(s: nat, m: nat): nat {
    if s == m then 0 else s
  }

  /** The first slot with a waiting pull, looking `left` more slots from `s` on, around the table. */
  function Scan(conns: seq<Conn>, registered: seq<nat>, s: nat, left: nat): (r: nat)
    requires Table(conns, registered) && s < |registered|
    ensures r < |registered|
    decreases left
  {
    if left == 0 || conns[registered[s]].pulls != [] then s
    else Scan(conns, registered, Around(s + 1, |registered|), left - 1)
  }

  function NextSlot(h: Host): (r: nat)
    requires h.WellFormed() && h.registered != []
    ensures r < |h.registered|
  {
    Scan(h.conns, h.registered, Around(h.counter, |h.registered|), |h.registered|)
  }

  /** Slots from `p` around the table of `m` to `j`. */
  function Distance(p: nat, j: nat, m: nat): (d: nat)
    requires p < m && j < m
    ensures d < m
  {
    if p <= j then j - p else j + m - p
  }

  /** The scan finds a waiting queue, and no later than any other waiting queue. */
  lemma {:induction false} ScanFindsFirst(conns: seq<Conn>, registered: seq<nat>, s: nat, left: nat, j: nat)
    requires Table(conns, registered) && s < |registered| && j < |registered|
    requires conns[registered[j]].pulls != []
    requires Distance(s, j, |registered|) <= left
    ensures var r := Scan(conns, registered, s, left);
            && conns[registered[r]].pulls != []
            && Distance(s, r, |registered|) <= Distance(s, j, |registered|)
    decreases left
  {
    if left != 0 && conns[registered[s]].pulls == [] {
      ScanFindsFirst(conns, registered, Around(s + 1, |registered|), left - 1, j);
    }
  }

  /** Sends the pull of slot `s` and arms the timer. */
  function Serve(h: Host, s: nat): (g: Host)
    requires h.WellFormed() && s < |h.registered| && h.conns[h.registered[s]].pulls != []
    ensures g.WellFormed() && |g.conns| == |h.conns|
  {
    var i := h.registered[s];
    Arm(h.(conns := h.conns[i := ReleasePull(h.conns[i])],
           log := h.log + [Sent(h.now, s, h.conns[i].pulls[0])],
           nap := false,
           counter := s + 1))
  }

  /** process_REQUEST_TIMER, with the expired timer already off. */
  function Expire(h: Host): (g: Host)
    requires h.WellFormed()
    ensures g.WellFormed() && |g.conns| == |h.conns|
  {
    if AllFinished(h) then h.(timer := Off)
    else if AllEmpty(h) then h.(nap := true)
    else
      NextSlotWaits(h);
      Serve(h, NextSlot(h))
  }

  /** The timer fires. */
  function OnTimer(h: Host): (g: Host)
    requires h.WellFormed() && h.timer.At?
    ensures g.WellFormed() && |g.conns| == |h.conns|
  {
    Expire(h.(now := h.timer.due, timer := Off))
  }

  lemma NextSlotWaits(h: Host)
    requires h.WellFormed() && !AllEmpty(h)
    ensures h.registered != [] && h.conns[h.registered[NextSlot(h)]].pulls != []
  {
    var j :| 0 <= j < |h.registered| && h.conns[h.registered[j]].pulls != [];
    ScanFindsFirst(h.conns, h.registered, Around(h.counter, |h.registered|), |h.registered|, j);
  }

  /** setConnFinished, the forced close of a multi-source group, reaches registered connections only. */
  function OnForcedClose(h: Host, i: nat): (g: Host)
    requires h.WellFormed() && i < |h.conns|
    ensures g.WellFormed() && |g.conns| == |h.conns|
  {
    h.(conns := h.conns[i := h.conns[i].(finished := true)])
  }

  datatype Event =
    | Symbol(i: nat, k: nat, time: real)
    | Header(i: nat, time: real)
    | ForcedClose(i: nat, time: real)
    | Fire

  /** Events happen in order of time; symbols are numbered from 1. */
  predicate Enabled(h: Host, e: Event) {
    match e
    case Symbol(i, k, t) => i < |h.conns| && k >= 1 && OnTime(h, t)
    case Header(i, t) => i < |h.conns| && OnTime(h, t)
    case ForcedClose(i, t) => i < |h.conns| && i in h.registered && OnTime(h, t)
    case Fire => h.timer.At?
  }

  predicate OnTime(h: Host, t: real) {
    h.now <= t && (h.timer.At? ==> t <= h.timer.due)
  }

  function Do(h: Host, e: Event): (g: Host)
    requires h.WellFormed() && Enabled(h, e)
    ensures g.WellFormed() && |g.conns| == |h.conns|
  {
    match e
    case Symbol(i, k, t) => OnSymbol(h.(now := t), i, k)
    case Header(i, t) => OnHeader(h.(now := t), i)
    case ForcedClose(i, t) => OnForcedClose(h.(now := t), i)
    case Fire => OnTimer(h)
  }

  /** `wants[i]` and `windows[i]` configure connection i. */
  function Start(wants: seq<nat>, windows: seq<nat>): Host
    requires |wants| == |windows|
  {
    Host(seq(|wants|, i requires 0 <= i < |wants| => Fresh(wants[i], windows[i])), [], 0, false, Off, 0.0, [])
  }

  predicate Possible(h: Host, events: seq<Event>)
    requires h.WellFormed()
    decreases |events|
  {
    events == [] || (Enabled(h, events[0]) && Possible(Do(h, events[0]), events[1..]))
  }

  function Run(h: Host, events: seq<Event>): (g: Host)
    requires h.WellFormed() && Possible(h, events)
    ensures g.WellFormed()
    decreases |events|
  {
    if events == [] then h else Run(Do(h, events[0]), events[1..])
  }

  /** A waiting pull always has a scheduled timer, unless every connection is finished. */
  predicate NoLostWakeup(h: Host)
    requires h.WellFormed()
  {
    !AllFinished(h) && !AllEmpty(h) ==> h.timer.At?
  }

  /** A connection that wants some symbols but no more than the initial window issues no pull for its first symbol. */
  predicate SafeSize(wanted: nat, window: nat) {
    wanted == 0 || wanted > window
  }

  ghost predicate ConnInv(c: Conn) {
    && c.window > 0
    && (c.received == 0 ==> c.esi == 0)
    && (c.notAdded && c.wanted > 0 ==> c.received == 0 && !c.finished)
  }

  ghost predicate TableInv(h: Host)
    requires h.WellFormed()
  {
    && (forall i :: 0 <= i < |h.conns| ==> ConnInv(h.conns[i]))
    && (forall i :: 0 <= i < |h.conns| ==> (h.conns[i].notAdded <==> i !in h.registered))
  }

  /** With the timer off and something unfinished, the pacer naps and no pull waits. */
  ghost predicate WakeInv(h: Host)
    requires h.WellFormed()
  {
    !AllFinished(h) && h.timer == Off ==> h.nap && AllEmpty(h)
  }

  ghost predicate SafeSizes(h: Host) {
    forall i :: 0 <= i < |h.conns| ==> SafeSize(h.conns[i].wanted, h.conns[i].window)
  }

  /** Adding a pull to a connection, and waking a napping pacer, keeps the wake-up invariant. */
  lemma AddedPullWakes(h: Host, g: Host, i: nat)
    requires h.WellFormed() && i < |h.conns| && WakeInv(h)
    requires |g.conns| == |h.conns| && g.registered == h.registered && g.counter == h.counter
    requires g.timer == h.timer && g.nap == h.nap
    requires forall j :: 0 <= j < |h.conns| ==> g.conns[j].finished == h.conns[j].finished
    ensures Wake(g).WellFormed() && WakeInv(Wake(g))
  {
    assert AllFinished(h) ==> AllFinished(g);
  }

  lemma RegistrationArms(h: Host, i: nat)
    requires h.WellFormed() && i < |h.conns| && h.conns[i].pulls != []
    ensures Register(h, i).timer == At(h.now + SPACING)
  {
    var g := h.(registered := h.registered + [i]);
    assert g.registered[|h.registered|] == i;
  }

  /** An arriving symbol keeps the invariant, when no connection has an unsafe size. */
  lemma SymbolKeepsWakeInv(h: Host, i: nat, k: nat)
    requires h.WellFormed() && i < |h.conns| && k >= 1
    requires TableInv(h) && WakeInv(h) && SafeSizes(h)
    ensures WakeInv(OnSymbol(h, i, k))
  {
    var c := h.conns[i];
    var h1 := h.(conns := h.conns[i := SymbolArrives(c, k)]);
    if c.received + 1 > c.wanted {
      assert AllFinished(h) ==> AllFinished(h1);
      assert forall s :: 0 <= s < |h.registered| ==> h1.conns[h.registered[s]].pulls == h.conns[h.registered[s]].pulls;
    } else if PullsFor(c, k) {
      AddedPullWakes(h, h1, i);
      if RegistersOnSymbol(c) {
        RegistrationArms(Wake(h1), i);
      }
    } else {
      assert ConnInv(c) && SafeSize(c.wanted, c.window);
      assert !RegistersOnSymbol(c);
      assert AllFinished(h) ==> AllFinished(h1);
      assert forall s :: 0 <= s < |h.registered| ==> h1.conns[h.registered[s]].pulls == h.conns[h.registered[s]].pulls;
    }
  }

  lemma HeaderKeepsWakeInv(h: Host, i: nat)
    requires h.WellFormed() && i < |h.conns| && WakeInv(h)
    ensures WakeInv(OnHeader(h, i))
  {
    var h1 := h.(conns := h.conns[i := HeaderArrives(h.conns[i])]);
    AddedPullWakes(h, h1, i);
    if RegistersOnHeader(h.conns[i]) {
      RegistrationArms(Wake(h1), i);
    }
  }

  lemma TimerKeepsWakeInv(h: Host)
    requires h.WellFormed() && h.timer.At?
    ensures WakeInv(OnTimer(h))
  {
  }

  lemma ForcedCloseKeepsWakeInv(h: Host, i: nat)
    requires h.WellFormed() && i < |h.conns| && WakeInv(h)
    ensures WakeInv(OnForcedClose(h, i))
  {
    var g := OnForcedClose(h, i);
    assert AllFinished(h) ==> AllFinished(g);
    assert forall s :: 0 <= s < |h.registered| ==> g.conns[h.registered[s]].pulls == h.conns[h.registered[s]].pulls;
  }

  /** A step that replaces connection `i` by `c`, and registers it when it stops being unregistered, keeps the table. */
  lemma ReplacedConnKeepsTableInv(h: Host, g: Host, i: nat, c: Conn)
    requires h.WellFormed() && g.WellFormed() && i < |h.conns| && TableInv(h)
    requires g.conns == h.conns[i := c] && ConnInv(c)
    requires c.wanted == h.conns[i].wanted && c.window == h.conns[i].window
    requires c.notAdded ==> h.conns[i].notAdded
    requires g.registered == h.registered + (if h.conns[i].notAdded && !c.notAdded then [i] else [])
    ensures TableInv(g)
    ensures SafeSizes(h) ==> SafeSizes(g)
  {
    forall j | 0 <= j < |g.conns|
      ensures ConnInv(g.conns[j]) && (g.conns[j].notAdded <==> j !in g.registered)
      ensures SafeSizes(h) ==> SafeSize(g.conns[j].wanted, g.conns[j].window)
    {
      assert ConnInv(h.conns[j]) && (h.conns[j].notAdded <==> j !in h.registered);
      assert SafeSizes(h) ==> SafeSize(h.conns[j].wanted, h.conns[j].window);
    }
  }

  lemma StepKeepsTableInv(h: Host, e: Event)
    requires h.WellFormed() && Enabled(h, e) && TableInv(h)
    ensures TableInv(Do(h, e))
    ensures SafeSizes(h) ==> SafeSizes(Do(h, e))
  {
    var g := Do(h, e);
    match e
    case Symbol(i, k, t) =>
      assert ConnInv(h.conns[i]);
      ReplacedConnKeepsTableInv(h, g, i, SymbolArrives(h.conns[i], k));
    case Header(i, t) =>
      assert ConnInv(h.conns[i]);
      ReplacedConnKeepsTableInv(h, g, i, HeaderArrives(h.conns[i]));
    case ForcedClose(i, t) =>
      assert ConnInv(h.conns[i]);
      ReplacedConnKeepsTableInv(h, g, i, h.conns[i].(finished := true));
    case Fire =>
      var h1 := h.(now := h.timer.due, timer := Off);
      if !AllFinished(h1) && !AllEmpty(h1) {
        var i := h.registered[NextSlot(h1)];
        NextSlotWaits(h1);
        ReplacedConnKeepsTableInv(h, g, i, ReleasePull(h.conns[i]));
      }
  }

  lemma StepKeepsWakeInv(h: Host, e: Event)
    requires h.WellFormed() && Enabled(h, e) && TableInv(h) && WakeInv(h) && SafeSizes(h)
    ensures WakeInv(Do(h, e))
  {
    match e
    case Symbol(i, k, t) => SymbolKeepsWakeInv(h.(now := t), i, k);
    case Header(i, t) => HeaderKeepsWakeInv(h.(now := t), i);
    case ForcedClose(i, t) => ForcedCloseKeepsWakeInv(h.(now := t), i);
    case Fire => TimerKeepsWakeInv(h);
  }

  lemma {:induction false} RunKeepsWakeInv(h: Host, events: seq<Event>)
    requires h.WellFormed() && Possible(h, events) && TableInv(h) && WakeInv(h) && SafeSizes(h)
    ensures WakeInv(Run(h, events)) && TableInv(Run(h, events))
    decreases |events|
  {
    if events != [] {
      StepKeepsTableInv(h, events[0]);
      StepKeepsWakeInv(h, events[0]);
      RunKeepsWakeInv(Do(h, events[0]), events[1..]);
    }
  }

  /** A connection of unsafe size loses its wake-up in two events: its first symbol, then a header. */
  lemma UnsafeSizeLosesWakeup(wants: seq<nat>, windows: seq<nat>, i: nat)
    requires |wants| == |windows| && i < |wants| && 0 < wants[i] <= windows[i]
    ensures var h := Start(wants, windows);
            var events := [Symbol(i, 1, 0.0), Header(i, 0.0)];
            Possible(h, events) && !NoLostWakeup(Run(h, events))
  {
    var h := Start(wants, windows);
    var events := [Symbol(i, 1, 0.0), Header(i, 0.0)];
    var h1 := Do(h, events[0]);
    assert h1.registered == [i] && h1.timer == Off && !h1.nap;
    var h2 := Do(h1, events[1]);
    assert h2.registered[0] == i && h2.conns[i].pulls == [1] && !h2.conns[i].finished;
    assert events[1..] == [Header(i, 0.0)];
    assert events[1..][1..] == [];
    assert Run(h, events) == Run(h1, events[1..]) == Run(h2, []);
  }

  /** No run of a host loses a wake-up exactly when each of its connections wants nothing or more than its window. */
  lemma NoLostWakeupIffSafeSizes(wants: seq<nat>, windows: seq<nat>)
    requires |wants| == |windows|
    requires forall i :: 0 <= i < |windows| ==> windows[i] > 0
    ensures (forall events :: Possible(Start(wants, windows), events) ==>
               NoLostWakeup(Run(Start(wants, windows), events)))
            <==> (forall i :: 0 <= i < |wants| ==> SafeSize(wants[i], windows[i]))
  {
    var h := Start(wants, windows);
    if forall i :: 0 <= i < |wants| ==> SafeSize(wants[i], windows[i]) {
      forall events | Possible(h, events)
        ensures NoLostWakeup(Run(h, events))
      {
        RunKeepsWakeInv(h, events);
      }
    } else {
      var i :| 0 <= i < |wants| && !SafeSize(wants[i], windows[i]);
      UnsafeSizeLosesWakeup(wants, windows, i);
    }
  }

  /** Pulls are logged in order, a spacing apart, and the timer leaves room for the next one but no more. */
  ghost predicate SpacingInv(h: Host) {
    && (forall a, b :: 0 <= a < b < |h.log| ==> h.log[b].time - h.log[a].time >= SPACING)
    && (h.timer.At? ==> h.now <= h.timer.due <= h.now + SPACING)
    && (forall a :: 0 <= a < |h.log| ==> h.log[a].time <= h.now)
    && (forall a :: 0 <= a < |h.log| && h.timer.At? ==> h.log[a].time + SPACING <= h.timer.due)
  }

  lemma StepKeepsSpacing(h: Host, e: Event)
    requires h.WellFormed() && Enabled(h, e) && SpacingInv(h)
    ensures SpacingInv(Do(h, e))
  {
    if e.Fire? {
      FiringKeepsSpacing(h);
    }
  }

  lemma FiringKeepsSpacing(h: Host)
    requires h.WellFormed() && h.timer.At? && SpacingInv(h)
    ensures SpacingInv(OnTimer(h))
  {
  }

  lemma {:induction false} RunKeepsSpacing(h: Host, events: seq<Event>)
    requires h.WellFormed() && Possible(h, events) && SpacingInv(h)
    ensures SpacingInv(Run(h, events))
    decreases |events|
  {
    if events != [] {
      StepKeepsSpacing(h, events[0]);
      RunKeepsSpacing(Do(h, events[0]), events[1..]);
    }
  }

  /** Any two pulls a host sends are at least 8 microseconds apart, in every run. */
  lemma {:induction false} PullsAreSpaced(wants: seq<nat>, windows: seq<nat>, events: seq<Event>)
    requires |wants| == |windows| && Possible(Start(wants, windows), events)
    ensures var log := Run(Start(wants, windows), events).log;
            forall a, b :: 0 <= a < b < |log| ==> log[b].time - log[a].time >= 8.0
  {
    RunKeepsSpacing(Start(wants, windows), events);
  }

  /** The slots served by the firings of a run, in order. */
  function Served(h: Host, events: seq<Event>): seq<nat>
    requires h.WellFormed() && Possible(h, events)
    decreases |events|
  {
    if events == [] then []
    else
      (if events[0].Fire? && Serves(h) then [NextSlot(h)] else []) + Served(Do(h, events[0]), events[1..])
  }

  /** The next firing sends a pull. */
  predicate Serves(h: Host)
    requires h.WellFormed()
  {
    h.timer.At? && !AllFinished(h) && !AllEmpty(h)
  }

  function Fires(events: seq<Event>): nat {
    if events == [] then 0 else (if events[0].Fire? then 1 else 0) + Fires(events[1..])
  }

  /** Throughout the run no connection registers, slot `j` has a pull waiting, and something is unfinished. */
  predicate Waits(h: Host, events: seq<Event>, j: nat)
    requires h.WellFormed() && Possible(h, events) && j < |h.registered|
    decreases |events|
  {
    && h.conns[h.registered[j]].pulls != []
    && !AllFinished(h)
    && (events != [] ==>
          && Do(h, events[0]).registered == h.registered
          && Waits(Do(h, events[0]), events[1..], j))
  }

  /** A firing that does not serve slot `j` moves the scan closer to it. */
  lemma FiringMovesCloser(h: Host, j: nat)
    requires h.WellFormed() && h.timer.At? && j < |h.registered|
    requires h.conns[h.registered[j]].pulls != [] && !AllFinished(h)
    ensures Serves(h) && OnTimer(h).registered == h.registered
    ensures var m := |h.registered|;
            NextSlot(h) == j || Distance(Around(OnTimer(h).counter, m), j, m) < Distance(Around(h.counter, m), j, m)
  {
    ScanFindsFirst(h.conns, h.registered, Around(h.counter, |h.registered|), |h.registered|, j);
  }

  lemma OthersLeaveCounter(h: Host, e: Event)
    requires h.WellFormed() && Enabled(h, e) && !e.Fire? && Do(h, e).registered == h.registered
    ensures Do(h, e).counter == h.counter
  {
  }

  /** Fairness: while the table stays as it is and slot `j` has a pull waiting, every run with more firings than slots
      from the scan's position to `j` serves it; so `m` firings are enough for a table of `m` connections. */
  lemma {:induction false} WaitingSlotIsServed(h: Host, events: seq<Event>, j: nat)
    requires h.WellFormed() && Possible(h, events) && j < |h.registered| && Waits(h, events, j)
    requires Fires(events) > Distance(Around(h.counter, |h.registered|), j, |h.registered|)
    ensures j in Served(h, events)
    decreases |events|
  {
    var e := events[0];
    if e.Fire? {
      FiringMovesCloser(h, j);
      if NextSlot(h) == j {
        assert Served(h, events)[0] == j;
      } else {
        WaitingSlotIsServed(Do(h, e), events[1..], j);
      }
    } else {
      OthersLeaveCounter(h, e);
      WaitingSlotIsServed(Do(h, e), events[1..], j);
    }
  }

  /** A run with one more event. */
  lemma {:induction false} RunAppend(h: Host, events: seq<Event>, e: Event)
    requires h.WellFormed() && Possible(h, events) && Enabled(Run(h, events), e)
    ensures Possible(h, events + [e]) && Run(h, events + [e]) == Do(Run(h, events), e)
    decreases |events|
  {
    var more := events + [e];
    if events == [] {
      assert more == [e] && more[1..] == [];
    } else {
      assert more[0] == events[0] && more[1..] == events[1..] + [e];
      RunAppend(Do(h, events[0]), events[1..], e);
    }
  }

  /** How often an arrival sets the timer anew in a run. */
  function Rearms(h: Host, events: seq<Event>): nat
    requires h.WellFormed() && Possible(h, events)
    decreases |events|
  {
    if events == [] then 0
    else
      var g := Do(h, events[0]);
      (if !events[0].Fire? && g.timer != h.timer then 1 else 0) + Rearms(g, events[1..])
  }

  /** Slots from the scan's position around the table to `j`. */
  function Turns(h: Host, j: nat): nat
    requires h.WellFormed() && j < |h.registered|
  {
    Distance(Around(h.counter, |h.registered|), j, |h.registered|)
  }

  /** The first step of a run in which slot `j` waits. */
  lemma WaitsStep(h: Host, events: seq<Event>, j: nat)
    requires h.WellFormed() && Possible(h, events) && j < |h.registered| && Waits(h, events, j) && events != []
    ensures var g := Do(h, events[0]);
            && g.registered == h.registered && !AllFinished(g) && Possible(g, events[1..]) && Waits(g, events[1..], j)
  {
    assert Waits(Do(h, events[0]), events[1..], j);
  }

  /** An arrival while a slot waits leaves the timer on. It is set anew at most a spacing later than it was due, and
      only by a napping pacer. */
  lemma ArrivalSetsTimer(h: Host, e: Event)
    requires h.WellFormed() && Enabled(h, e) && !e.Fire? && h.timer.At? && h.now <= h.timer.due
    requires Do(h, e).registered == h.registered && !AllFinished(Do(h, e))
    ensures var g := Do(h, e);
            && g.timer.At? && g.nap == h.nap && g.now <= g.timer.due
            && (g.timer != h.timer ==> h.nap && g.timer.due <= h.timer.due + SPACING)
  {
  }

  /** A step that does not serve the waiting slot `j` uses up a turn, or sets the timer anew. */
  lemma TurnPasses(h: Host, e: Event, j: nat)
    requires h.WellFormed() && Enabled(h, e) && h.timer.At? && h.now <= h.timer.due
    requires j < |h.registered| && h.conns[h.registered[j]].pulls != [] && !AllFinished(h)
    requires Do(h, e).registered == h.registered && !AllFinished(Do(h, e)) && (e.Fire? ==> NextSlot(h) != j)
    ensures var g, again := Do(h, e), if !e.Fire? && Do(h, e).timer != h.timer then 1 else 0;
            && g.timer.At? && g.now <= g.timer.due
            && g.timer.due + SPACING * Turns(g, j) as real <= h.timer.due + SPACING * (Turns(h, j) + again) as real
  {
    if e.Fire? {
      FiringMovesCloser(h, j);
      FiringArms(h);
    } else {
      ArrivalSetsTimer(h, e);
      OthersLeaveCounter(h, e);
    }
  }

  lemma FiringArms(h: Host)
    requires h.WellFormed() && Serves(h)
    ensures var g := OnTimer(h); g.timer == At(h.timer.due + SPACING) && g.now == h.timer.due && !g.nap
  {
  }

  /** A slot that has not been served still waits within the time of its turn, and of one more spacing for each time the
      timer was set anew. */
  lemma {:induction false} UnservedIsEarly(h: Host, events: seq<Event>, j: nat)
    requires h.WellFormed() && Possible(h, events) && j < |h.registered| && Waits(h, events, j)
    requires h.timer.At? && h.now <= h.timer.due && j !in Served(h, events)
    ensures Run(h, events).now <= h.timer.due + SPACING * (Turns(h, j) + Rearms(h, events)) as real
    decreases |events|
  {
    if events != [] {
      var e, g := events[0], Do(h, events[0]);
      WaitsStep(h, events, j);
      if e.Fire? {
        FiringMovesCloser(h, j);
        assert Served(h, events)[0] == NextSlot(h);
      }
      TurnPasses(h, e, j);
      UnservedIsEarly(g, events[1..], j);
    }
  }

  /** A pacer that is awake stays awake while a slot waits, and then nothing sets its timer anew. */
  lemma {:induction false} AwakeIsNotRearmed(h: Host, events: seq<Event>, j: nat)
    requires h.WellFormed() && Possible(h, events) && j < |h.registered| && Waits(h, events, j)
    requires h.timer.At? && h.now <= h.timer.due && !h.nap
    ensures Rearms(h, events) == 0
    decreases |events|
  {
    if events != [] {
      WaitsStep(h, events, j);
      if events[0].Fire? {
        FiringMovesCloser(h, j);
        FiringArms(h);
      } else {
        ArrivalSetsTimer(h, events[0]);
      }
      AwakeIsNotRearmed(Do(h, events[0]), events[1..], j);
    }
  }

  /** `n` headers for connection `i`, a spacing apart from time `t` on. */
  function Headers(i: nat, t: real, n: nat): seq<Event>
    decreases n
  {
    if n == 0 then [] else [Header(i, t)] + Headers(i, t + SPACING, n - 1)
  }

  /** The pacer naps, its timer runs, and slot `j` waits. */
  ghost predicate NapsOver(h: Host, j: nat) {
    && h.WellFormed() && TableInv(h) && j < |h.registered|
    && h.conns[h.registered[j]].pulls != [] && !AllFinished(h)
    && h.nap && h.timer.At? && h.now <= h.timer.due
  }

  lemma HeaderKeepsNapping(h: Host, j: nat) returns (e: Event, g: Host)
    requires NapsOver(h, j)
    ensures e == Header(h.registered[j], h.timer.due) && Enabled(h, e) && g == Do(h, e) && g.registered == h.registered
    ensures NapsOver(g, j) && g.timer == At(h.timer.due + SPACING) && g.now == h.timer.due
  {
    HeaderWakes(h, h.registered[j]);
    e := Header(h.registered[j], h.timer.due);
    StepKeepsTableInv(h, e);
    g := Do(h, e);
  }

  /** Headers that keep arriving when the timer of a napping pacer is due put it off every time. */
  lemma {:induction false} HeadersPutOff(h: Host, j: nat, n: nat)
    requires NapsOver(h, j)
    ensures var events := Headers(h.registered[j], h.timer.due, n);
            && Possible(h, events) && Waits(h, events, j) && Served(h, events) == []
            && (n > 0 ==> Run(h, events).now == h.timer.due + SPACING * (n - 1) as real)
    decreases n
  {
    if n > 0 {
      var e, g := HeaderKeepsNapping(h, j);
      HeadersPutOff(g, j, n - 1);
      var rest := Headers(h.registered[j], g.timer.due, n - 1);
      ArrivalFirst(h, e, rest, j);
      assert n == 1 ==> rest == [] && Run(g, rest) == g;
    }
  }

  /** One more arrival in front of a run in which slot `j` waits. */
  lemma ArrivalFirst(h: Host, e: Event, rest: seq<Event>, j: nat)
    requires h.WellFormed() && j < |h.registered| && h.conns[h.registered[j]].pulls != [] && !AllFinished(h)
    requires Enabled(h, e) && !e.Fire? && Do(h, e).registered == h.registered
    requires Possible(Do(h, e), rest) && Waits(Do(h, e), rest, j)
    ensures var events := [e] + rest;
            && Possible(h, events) && Waits(h, events, j)
            && Served(h, events) == Served(Do(h, e), rest) && Run(h, events) == Run(Do(h, e), rest)
  {
    var events := [e] + rest;
    assert events[0] == e && events[1..] == rest;
  }

  lemma HeaderWakes(h: Host, i: nat)
    requires h.WellFormed() && i < |h.conns| && h.nap && h.timer.At? && h.now <= h.timer.due && !h.conns[i].notAdded
    ensures var g := Do(h, Header(i, h.timer.due));
            && g.registered == h.registered && g.nap && g.timer == At(h.timer.due + SPACING) && g.now == h.timer.due
            && (AllFinished(g) ==> AllFinished(h))
            && forall s :: 0 <= s < |h.registered| && h.conns[h.registered[s]].pulls != [] ==>
                 g.conns[h.registered[s]].pulls != []
  {
    var g := Do(h, Header(i, h.timer.due));
    assert forall s :: 0 <= s < |h.registered| ==>
        g.conns[h.registered[s]].finished == h.conns[h.registered[s]].finished;
  }

  /** Some run serves slot `j` not before `bound`, although it waits all the time. */
  ghost predicate PutOff(h: Host, j: nat, bound: real)
    requires h.WellFormed() && j < |h.registered|
  {
    exists events :: Possible(h, events) && Waits(h, events, j) && j !in Served(h, events) && Run(h, events).now > bound
  }

  /** With the timer off nothing is served before the next arrival, however late that is. */
  lemma NothingFires(h: Host, j: nat, bound: real)
    requires h.WellFormed() && TableInv(h) && h.timer == Off
    requires j < |h.registered| && h.conns[h.registered[j]].pulls != [] && !AllFinished(h)
    ensures PutOff(h, j, bound)
  {
    var i, t := h.registered[j], if bound < h.now then h.now else bound + 1.0;
    assert !h.conns[i].notAdded;
    HeaderAdds(h, i, t);
    var rest: seq<Event> := [];
    ArrivalFirst(h, Header(i, t), rest, j);
    var events := [Header(i, t)] + rest;
    assert Possible(h, events) && Waits(h, events, j) && j !in Served(h, events) && Run(h, events).now > bound;
  }

  lemma HeaderAdds(h: Host, i: nat, t: real)
    requires h.WellFormed() && i < |h.conns| && h.timer == Off && h.now <= t && !h.conns[i].notAdded
    ensures var g := Do(h, Header(i, t));
            && g.registered == h.registered && g.now == t && (AllFinished(g) ==> AllFinished(h))
            && forall s :: 0 <= s < |h.registered| && h.conns[h.registered[s]].pulls != [] ==>
                 g.conns[h.registered[s]].pulls != []
  {
    var g := Do(h, Header(i, t));
    assert forall s :: 0 <= s < |h.registered| ==>
        g.conns[h.registered[s]].finished == h.conns[h.registered[s]].finished;
  }

  /** A waiting slot of a pacer that is awake with its timer running is served in time. */
  lemma {:induction false} AwakeServesInTime(h: Host, j: nat)
    requires h.WellFormed() && SpacingInv(h) && h.timer.At? && !h.nap
    requires j < |h.registered| && h.conns[h.registered[j]].pulls != [] && !AllFinished(h)
    ensures !PutOff(h, j, h.now + SPACING * |h.registered| as real)
  {
    forall events | Possible(h, events) && Waits(h, events, j) && j !in Served(h, events)
      ensures Run(h, events).now <= h.now + SPACING * |h.registered| as real
    {
      UnservedIsEarly(h, events, j);
      AwakeIsNotRearmed(h, events, j);
    }
  }

  lemma {:induction false} RunKeepsTable(h: Host, events: seq<Event>)
    requires h.WellFormed() && Possible(h, events) && TableInv(h)
    ensures TableInv(Run(h, events))
    decreases |events|
  {
    if events != [] {
      StepKeepsTableInv(h, events[0]);
      RunKeepsTable(Do(h, events[0]), events[1..]);
    }
  }

  lemma Reached(wants: seq<nat>, windows: seq<nat>, events: seq<Event>)
    requires |wants| == |windows| && (forall i :: 0 <= i < |windows| ==> windows[i] > 0)
    requires Possible(Start(wants, windows), events)
    ensures var h := Run(Start(wants, windows), events); TableInv(h) && SpacingInv(h)
  {
    var h := Start(wants, windows);
    assert TableInv(h) && SpacingInv(h);
    RunKeepsTable(h, events);
    RunKeepsSpacing(h, events);
  }

  /** Slot `j` cannot be put off longer than 8 microseconds for each slot if the timer runs and the pacer is awake, and
      past any time if not. */
  ghost predicate InTimeIffAwake(h: Host, j: nat)
    requires h.WellFormed() && j < |h.registered|
  {
    var inTime := h.now + 8.0 * |h.registered| as real;
    if h.timer.At? && !h.nap then !PutOff(h, j, inTime) else forall bound: real :: PutOff(h, j, bound)
  }

  /** Fairness in time, after any run of a host, on a table of `m` connections that stays as it is: a waiting slot is
      served within 8 m microseconds if the timer runs and the pacer is awake; otherwise it can be put off past any
      time. */
  lemma {:induction false} ServedInTimeIff(wants: seq<nat>, windows: seq<nat>, before: seq<Event>, j: nat)
    requires |wants| == |windows| && (forall i :: 0 <= i < |windows| ==> windows[i] > 0)
    requires Possible(Start(wants, windows), before)
    requires var h := Run(Start(wants, windows), before);
             j < |h.registered| && h.conns[h.registered[j]].pulls != [] && !AllFinished(h)
    ensures InTimeIffAwake(Run(Start(wants, windows), before), j)
  {
    var h := Run(Start(wants, windows), before);
    Reached(wants, windows, before);
    InTimeOrPutOff(h, j);
  }

  lemma InTimeOrPutOff(h: Host, j: nat)
    requires h.WellFormed() && TableInv(h) && SpacingInv(h)
    requires j < |h.registered| && h.conns[h.registered[j]].pulls != [] && !AllFinished(h)
    ensures InTimeIffAwake(h, j)
  {
    if h.timer.At? && !h.nap {
      AwakeServesInTime(h, j);
    } else {
      forall bound: real
        ensures PutOff(h, j, bound)
      {
        NapOrOffPutsOff(h, j, bound);
      }
    }
  }

  lemma NapOrOffPutsOff(h: Host, j: nat, bound: real)
    requires h.WellFormed() && TableInv(h) && SpacingInv(h) && (h.timer == Off || h.nap)
    requires j < |h.registered| && h.conns[h.registered[j]].pulls != [] && !AllFinished(h)
    ensures PutOff(h, j, bound)
  {
    if h.timer.At? {
      NappingPutsOff(h, j, bound);
    } else {
      NothingFires(h, j, bound);
    }
  }

  lemma NappingPutsOff(h: Host, j: nat, bound: real)
    requires NapsOver(h, j)
    ensures PutOff(h, j, bound)
  {
    var n: nat := if bound < h.timer.due then 1 else (bound - h.timer.due).Floor + 2;
    HeadersPutOff(h, j, n);
    var events := Headers(h.registered[j], h.timer.due, n);
    assert Possible(h, events) && Waits(h, events, j) && j !in Served(h, events);
  }

  /** A pacer can nap with a pull waiting: when a pull has been sent and nothing else came, the next header finds it
      so. */
  lemma NapsWhileOneWaits(wants: seq<nat>, windows: seq<nat>, i: nat) returns (h: Host)
    requires |wants| == |windows| && i < |wants|
    ensures var events := [Header(i, 0.0), Fire, Fire, Header(i, 16.0)];
            Possible(Start(wants, windows), events) && h == Run(Start(wants, windows), events)
    ensures h.nap && h.timer.At? && |h.registered| == 1 && h.conns[h.registered[0]].pulls != [] && !AllFinished(h)
  {
    var h1 := Do(Start(wants, windows), Header(i, 0.0));
    assert h1.registered[0] == i && h1.conns[i].pulls == [1] && h1.timer == At(8.0);
    var h2 := FiresAlone(h1, i);
    h := FiresIdle(h2, i);
    var events := [Header(i, 0.0), Fire, Fire, Header(i, 16.0)];
    var h3 := Do(h2, Fire);
    assert Possible(h, []) && Run(h, []) == h;
    assert Possible(h3, events[3..]) && Run(h3, events[3..]) == h;
    assert Possible(h2, events[2..]) && Run(h2, events[2..]) == h;
    assert Possible(h1, events[1..]) && Run(h1, events[1..]) == h;
  }

  /** The only connection's pull is sent. */
  lemma FiresAlone(h: Host, i: nat) returns (g: Host)
    requires h.WellFormed() && i < |h.conns| && h.registered == [i] && h.timer.At? && |h.conns[i].pulls| == 1
             && !h.conns[i].finished
    ensures Enabled(h, Fire) && g == Do(h, Fire) && g.registered == [i] && g.timer == At(h.timer.due + 8.0)
    ensures g.conns[i].pulls == [] && !g.conns[i].finished && g.conns[i].notAdded == h.conns[i].notAdded
  {
    assert !AllEmpty(h) && !AllFinished(h) by { assert h.registered[0] == i; }
    NextSlotWaits(h.(now := h.timer.due, timer := Off));
    g := Do(h, Fire);
  }

  /** The timer fires for nothing, and a header wakes the pacer again. */
  lemma FiresIdle(h: Host, i: nat) returns (g: Host)
    requires h.WellFormed() && i < |h.conns| && h.registered == [i] && h.timer.At? && h.conns[i].pulls == []
    requires !h.conns[i].finished && !h.conns[i].notAdded
    ensures Enabled(h, Fire) && var e := Header(i, h.timer.due); Enabled(Do(h, Fire), e) && g == Do(Do(h, Fire), e)
    ensures g.nap && g.timer.At? && g.registered == [i] && g.conns[i].pulls != [] && !AllFinished(g)
  {
    assert AllEmpty(h) && !AllFinished(h) by { assert h.registered[0] == i; }
    var idle := Do(h, Fire);
    assert idle.nap && idle.conns == h.conns;
    g := Do(idle, Header(i, h.timer.due));
    assert !AllFinished(g) by { assert g.registered[0] == i; }
  }

  // ---------------------------------------------------------------- who is served at all

  /** The first arrival for connection `i` puts it into the table: a header always, a symbol if any is wanted. */
  predicate Joins(events: seq<Event>, i: nat, wanted: nat)
    decreases |events|
  {
    events != [] &&
    match events[0]
    case Symbol(i', _, _) => if i' == i then wanted > 0 else Joins(events[1..], i, wanted)
    case Header(i', _) => i' == i || Joins(events[1..], i, wanted)
    case _ => Joins(events[1..], i, wanted)
  }

  /** What an event adds to the table. */
  function Newcomer(h: Host, e: Event): seq<nat>
    requires Enabled(h, e)
  {
    match e
    case Symbol(i, _, _) =>
      if i !in h.registered && h.conns[i].received == 0 && h.conns[i].wanted > 0 then [i] else []
    case Header(i, _) => if i !in h.registered && h.conns[i].received == 0 then [i] else []
    case _ => []
  }

  lemma TableGrows(h: Host, e: Event)
    requires h.WellFormed() && Enabled(h, e) && TableInv(h)
    ensures Do(h, e).registered == h.registered + Newcomer(h, e)
  {
  }

  lemma ArrivalsAreCounted(h: Host, e: Event, i: nat)
    requires h.WellFormed() && Enabled(h, e) && i < |h.conns|
    ensures var c := Do(h, e).conns[i];
            && c.wanted == h.conns[i].wanted
            && c.received == h.conns[i].received + (if e.Symbol? && e.i == i then 1 else 0)
  {
    if e.Fire? {
      FiringOnlySends(h, i);
    } else if e.Symbol? {
      assert Do(h, e).conns == h.conns[e.i := SymbolArrives(h.conns[e.i], e.k)];
    }
  }

  /** A firing changes nothing of a connection but its waiting pulls. */
  lemma FiringOnlySends(h: Host, i: nat)
    requires h.WellFormed() && h.timer.At? && i < |h.conns|
    ensures var c := OnTimer(h).conns[i]; c == h.conns[i].(pulls := c.pulls)
  {
  }

  lemma {:induction false} TableOverRun(h: Host, events: seq<Event>, i: nat)
    requires h.WellFormed() && Possible(h, events) && TableInv(h) && i < |h.conns| && NoneTwice(h.registered)
    ensures NoneTwice(Run(h, events).registered)
    ensures i in Run(h, events).registered <==>
            i in h.registered || (h.conns[i].received == 0 && Joins(events, i, h.conns[i].wanted))
    decreases |events|
  {
    if events != [] {
      StepKeepsTableInv(h, events[0]);
      TableGrows(h, events[0]);
      ArrivalsAreCounted(h, events[0], i);
      TableOverRun(Do(h, events[0]), events[1..], i);
    }
  }

  ghost predicate NoneTwice(slots: seq<nat>) {
    forall a, b :: 0 <= a < b < |slots| ==> slots[a] != slots[b]
  }

  /** In every run a connection is in the table at most once, and it is there exactly if its first arrival was a header,
      or a symbol of which it wants any. */
  lemma {:induction false} RegisteredIff(wants: seq<nat>, windows: seq<nat>, events: seq<Event>, i: nat)
    requires |wants| == |windows| && (forall j :: 0 <= j < |windows| ==> windows[j] > 0)
    requires Possible(Start(wants, windows), events) && i < |wants|
    ensures var slots := Run(Start(wants, windows), events).registered;
            NoneTwice(slots) && (i in slots <==> Joins(events, i, wants[i]))
  {
    assert TableInv(Start(wants, windows));
    TableOverRun(Start(wants, windows), events, i);
  }

  // ---------------------------------------------------------------- the end of a connection

  function SymbolsFor(i: nat, events: seq<Event>): nat {
    if events == [] then 0
    else (if events[0].Symbol? && events[0].i == i then 1 else 0) + SymbolsFor(i, events[1..])
  }

  function HeadersFor(i: nat, events: seq<Event>): nat {
    if events == [] then 0
    else (if events[0].Header? && events[0].i == i then 1 else 0) + HeadersFor(i, events[1..])
  }

  lemma SymbolAtFinished(c: Conn, k: nat)
    requires c.finished
    ensures var d := SymbolArrives(c, k);
            && d.finished && d.wanted == c.wanted && d.received == c.received + 1
            && d.toApp == c.toApp && d.requestId == c.requestId
            && d.reported == (c.reported || c.received < c.wanted)
            && d.peerClosed == c.peerClosed + (if !c.reported && c.received < c.wanted then 1 else 0)
  {
  }

  lemma StepAtFinished(h: Host, e: Event, i: nat)
    requires h.WellFormed() && Enabled(h, e) && i < |h.conns| && h.conns[i].finished
    ensures var c, d := h.conns[i], Do(h, e).conns[i];
            var mine := e.Symbol? && e.i == i;
            && d.finished && d.toApp == c.toApp && d.wanted == c.wanted
            && d.received == c.received + (if mine then 1 else 0)
            && d.requestId == c.requestId + (if e.Header? && e.i == i then 1 else 0)
            && d.reported == (c.reported || (mine && c.received < c.wanted))
            && d.peerClosed == c.peerClosed + (if mine && !c.reported && c.received < c.wanted then 1 else 0)
  {
    if e.Fire? {
      FiringOnlySends(h, i);
    } else if e.Symbol? {
      assert Do(h, e).conns == h.conns[e.i := SymbolArrives(h.conns[e.i], e.k)];
      if e.i == i {
        SymbolAtFinished(h.conns[i], e.k);
      }
    }
  }

  lemma {:induction false} FinishedStaysSilent(h: Host, events: seq<Event>, i: nat)
    requires h.WellFormed() && Possible(h, events) && i < |h.conns| && h.conns[i].finished
    ensures var c := h.conns[i];
            i < |Run(h, events).conns| && var d := Run(h, events).conns[i];
            && d.toApp == c.toApp
            && d.requestId == c.requestId + HeadersFor(i, events)
            && d.peerClosed ==
               c.peerClosed + (if !c.reported && c.received < c.wanted && SymbolsFor(i, events) > 0 then 1 else 0)
    decreases |events|
  {
    if events != [] {
      StepAtFinished(h, events[0], i);
      FinishedStaysSilent(Do(h, events[0]), events[1..], i);
    }
  }

  /** After a forced close, whatever follows: the application gets no further symbol of the connection and hears
      PEER_CLOSED with the next one that comes, if it was still missing any; only headers issue pulls. */
  lemma {:induction false} ForcedCloseSilences(wants: seq<nat>, windows: seq<nat>, before: seq<Event>, i: nat, t: real,
                                               after: seq<Event>)
    requires |wants| == |windows| && Possible(Start(wants, windows), before)
    requires Enabled(Run(Start(wants, windows), before), ForcedClose(i, t))
    requires Possible(Do(Run(Start(wants, windows), before), ForcedClose(i, t)), after)
    ensures var h := Run(Start(wants, windows), before);
            var g := Run(Do(h, ForcedClose(i, t)), after);
            i < |g.conns| && var c, d := h.conns[i], g.conns[i];
            && d.toApp == c.toApp
            && d.requestId == c.requestId + HeadersFor(i, after)
            && d.peerClosed ==
               c.peerClosed + (if !c.reported && c.received < c.wanted && SymbolsFor(i, after) > 0 then 1 else 0)
  {
    FinishedStaysSilent(Do(Run(Start(wants, windows), before), ForcedClose(i, t)), after, i);
  }

  /** A surplus symbol turns the timer off exactly if every connection of the table is finished then, and the timer of
      such a host, should it run, fires once without sending. */
  lemma FinishedHostStops(h: Host, e: Event)
    requires h.WellFormed() && Enabled(h, e)
    ensures e.Symbol? && h.conns[e.i].received >= h.conns[e.i].wanted ==>
              var g := Do(h, e);
              g.log == h.log && g.registered == h.registered && g.timer == if AllFinished(g) then Off else h.timer
    ensures e.Fire? && AllFinished(h) ==> Do(h, e).log == h.log && Do(h, e).timer == Off
  {
    if e.Symbol? && h.conns[e.i].received >= h.conns[e.i].wanted {
      assert !PullsFor(h.conns[e.i], e.k);
    }
  }

  ghost function Views(conns: seq<RQConnection>): (r: seq<Conn>)
    reads conns
    ensures |r| == |conns| && forall i :: 0 <= i < |conns| ==> r[i] == conns[i].View()
  {
    seq(|conns|, i requires 0 <= i < |conns| reads conns => conns[i].View())
  }

  /** The module object: its connections and pacer fields. */
  class RaptorQ {
    var conns: seq<RQConnection>
    var requestCONNMap: seq<nat>
    var counter: nat
    var nap: bool
    var timer: Timer
    var now: real
    var log: seq<Sent>

    ghost predicate Valid()
      reads this
    {
      && (forall i, j :: 0 <= i < j < |conns| ==> conns[i] != conns[j])
      && (forall s :: 0 <= s < |requestCONNMap| ==> requestCONNMap[s] < |conns|)
      && counter <= |requestCONNMap|
    }

    ghost function View(): Host
      reads this, conns
    {
      Host(Views(conns), requestCONNMap, counter, nap, timer, now, log)
    }

    constructor (conns: seq<RQConnection>)
      requires forall i, j :: 0 <= i < j < |conns| ==> conns[i] != conns[j]
      ensures Valid() && this.conns == conns && requestCONNMap == [] && timer == Off && !nap && counter == 0
    {
      this.conns := conns;
      requestCONNMap, counter, nap, timer, now, log := [], 0, false, Off, 0.0, [];
    }

    method AllPullQueuesEmpty() returns (r: bool)
      requires Valid()
      ensures r == AllEmpty(View())
    {
      var iter := 0;
      while iter < |requestCONNMap|
        invariant 0 <= iter <= |requestCONNMap|
        invariant forall s :: 0 <= s < iter ==> conns[requestCONNMap[s]].pulls == []
      {
        var pullsQueueLength := |conns[requestCONNMap[iter]].pulls|;
        if pullsQueueLength > 0 {
          assert View().conns[requestCONNMap[iter]].pulls != [];
          return false;
        }
        iter := iter + 1;
      }
      return true;
    }

    method CancelRequestTimer()
      requires Valid()
      modifies this`timer
      ensures Valid() && View() == old(View()).(timer := Off)
    {
      timer := Off;
    }

    method RequestTimer()
      requires Valid()
      modifies this`timer
      ensures Valid() && View() == Arm(old(View()))
    {
      CancelRequestTimer();
      timer := At(now + SPACING);
    }

    method AllConnFinished() returns (r: bool)
      requires Valid()
      modifies this`timer
      ensures Valid() && r == AllFinished(old(View())) && View() == StopIfFinished(old(View()))
    {
      var iter := 0;
      while iter < |requestCONNMap|
        invariant 0 <= iter <= |requestCONNMap|
        invariant View() == old(View())
        invariant forall s :: 0 <= s < iter ==> conns[requestCONNMap[s]].finished
      {
        if !conns[requestCONNMap[iter]].finished {
          assert !View().conns[requestCONNMap[iter]].finished;
          return false;
        }
        iter := iter + 1;
      }
      CancelRequestTimer();
      return true;
    }

    method SendFirstRequest()
      requires Valid()
      modifies this`timer
      ensures Valid() && View() == if AllEmpty(old(View())) then old(View()) else Arm(old(View()))
    {
      var allEmpty := AllPullQueuesEmpty();
      if !allEmpty {
        RequestTimer();
      }
    }

    /** `RegisterConn` followed by sendFirstRequest, as the arrival handlers do it. */
    method RegisterConn(i: nat)
      requires Valid() && i < |conns|
      modifies this`requestCONNMap, this`timer
      ensures Valid() && View() == Register(old(View()), i)
    {
      requestCONNMap := requestCONNMap + [i];
      SendFirstRequest();
    }

    /** View() after one connection's object changed. */
    twostate lemma OneConnChanged(i: nat)
      requires old(Valid()) && Valid() && i < |conns| && conns == old(conns)
      requires requestCONNMap == old(requestCONNMap) && counter == old(counter) && nap == old(nap)
      requires timer == old(timer) && now == old(now) && log == old(log)
      requires forall j :: 0 <= j < |conns| && j != i ==> conns[j].View() == old(conns[j].View())
      ensures View() == Replaced(old(View()), i, conns[i].View())
    {
    }

    /** Counts the symbol at connection `i`; a pull it issues wakes a napping pacer. */
    method CountAndWake(i: nat, k: nat) returns (surplus: bool)
      requires Valid() && i < |conns|
      modifies this`timer, conns[i]
      ensures Valid()
      ensures var c := old(View()).conns[i];
              && surplus == (c.received + 1 > c.wanted)
              && conns[i].View() == Counted(c, k)
              && View() == WakeIf(PullsFor(c, k), Replaced(old(View()), i, Counted(c, k)))
    {
      var pulled;
      pulled, surplus := conns[i].CountSymbol(k);
      OneConnChanged(i);
      if pulled && nap {
        RequestTimer();
      }
    }

    /** Registers connection `i` and clears its connNotAddedYet. */
    method RegisterAndMark(i: nat)
      requires Valid() && i < |conns|
      modifies this`requestCONNMap, this`timer, conns[i]
      ensures Valid()
      ensures View() == Replaced(Register(old(View()), i), i, old(View()).conns[i].(notAdded := false))
    {
      RegisterConn(i);
      label L:
      conns[i].notAdded := false;
      OneConnChanged@L(i);
    }

    method HandOver(i: nat, k: nat)
      requires Valid() && i < |conns|
      modifies conns[i]
      ensures Valid()
      ensures View() == Replaced(old(View()), i, HandedOver(old(View()).conns[i], k))
    {
      conns[i].HandOver(k);
      OneConnChanged(i);
    }

    method RegisterAndHandOver(i: nat, k: nat)
      requires Valid() && i < |conns|
      modifies this`requestCONNMap, this`timer, conns[i]
      ensures Valid()
      ensures var h := old(View());
              var c := h.conns[i];
              View() == if c.received == 1 && c.notAdded
                        then Replaced(Register(h, i), i, HandedOver(c.(notAdded := false), k))
                        else Replaced(h, i, HandedOver(c, k))
    {
      var registers := conns[i].received == 1 && conns[i].notAdded;
      if registers {
        RegisterAndMark(i);
      }
      HandOver(i, k);
    }

    /** The symbol branch of processSegment1stThru8th, at connection `i`. */
    method SymbolArrival(i: nat, k: nat)
      requires Valid() && i < |conns|
      modifies this`requestCONNMap, this`timer, conns[i]
      ensures Valid() && View() == OnSymbol(old(View()), i, k)
    {
      ghost var h := View();
      var surplus := CountAndWake(i, k);
      ghost var counted := View();
      if surplus {
        var _ := AllConnFinished();
        assert View() == StopIfFinished(counted);
      } else {
        RegisterAndHandOver(i, k);
      }
      SymbolPieces(h, i, k, counted);
    }

    method AddAndWake(i: nat)
      requires Valid() && i < |conns|
      modifies this`timer, conns[i]
      ensures Valid() && View() == Wake(Replaced(old(View()), i, AddPull(old(View()).conns[i])))
    {
      conns[i].AddRequestToPullsQueue();
      OneConnChanged(i);
      if nap {
        RequestTimer();
      }
    }

    /** The header branch of processSegment1stThru8th, at connection `i`. */
    method HeaderArrival(i: nat)
      requires Valid() && i < |conns|
      modifies this`requestCONNMap, this`timer, conns[i]
      ensures Valid() && View() == OnHeader(old(View()), i)
    {
      ghost var h := View();
      var registers := conns[i].received == 0 && conns[i].notAdded;
      AddAndWake(i);
      if registers {
        RegisterAndMark(i);
      }
      HeaderPieces(h, i);
    }

    /** setConnFinished */
    method SetConnFinished(i: nat)
      requires Valid() && i < |conns|
      modifies conns[i]
      ensures Valid() && View() == OnForcedClose(old(View()), i)
    {
      conns[i].finished := true;
      OneConnChanged(i);
    }

    /** The timer fires. */
    method TimerFires() returns (scanned: nat)
      requires Valid() && timer.At?
      modifies this`counter, this`nap, this`timer, this`now, this`log, conns
      ensures Valid() && View() == OnTimer(old(View()))
      ensures scanned <= |requestCONNMap|
    {
      Elapse();
      scanned := ProcessRequestTimer();
    }

    method Elapse()
      requires Valid() && timer.At?
      modifies this`timer, this`now
      ensures Valid() && View() == old(View()).(now := old(timer).due, timer := Off)
    {
      now := timer.due;
      timer := Off;
    }

    /** process_REQUEST_TIMER. `scanned` counts the slots it looked at. */
    method ProcessRequestTimer() returns (scanned: nat)
      requires Valid()
      modifies this`counter, this`nap, this`timer, this`log, conns
      ensures Valid() && View() == Expire(old(View()))
      ensures scanned <= |requestCONNMap|
    {
      ghost var h := View();
      var allEmpty := AllPullQueuesEmpty();
      var allDone := AllConnFinished();
      scanned := 0;
      if allDone {
        CancelRequestTimer();
      } else if !allDone && allEmpty {
        SetNap(true);
      } else if !allDone && !allEmpty {
        scanned := ServeAwake();
      }
    }

    method ServeAwake() returns (scanned: nat)
      requires Valid() && !AllEmpty(View())
      modifies this`counter, this`nap, this`timer, this`log, conns
      ensures Valid() && scanned <= |requestCONNMap|
      ensures var h := old(View());
              && h.registered != [] && h.conns[h.registered[NextSlot(h)]].pulls != []
              && View() == Serve(h, NextSlot(h))
    {
      ghost var h := View();
      SetNap(false);
      assert NextSlot(h.(nap := false)) == NextSlot(h);
      scanned := ServeNext();
    }

    method SetNap(nap: bool)
      requires Valid()
      modifies this`nap
      ensures Valid() && View() == old(View()).(nap := nap)
    {
      this.nap := nap;
    }

    /** The scan of process_REQUEST_TIMER. */
    method ServeNext() returns (scanned: nat)
      requires Valid() && !AllEmpty(View())
      modifies this`counter, this`timer, this`log, conns
      ensures Valid()
      ensures var h := old(View());
              && h.registered != [] && h.conns[h.registered[NextSlot(h)]].pulls != []
              && View() == Serve(h, NextSlot(h)).(nap := h.nap)
      ensures scanned <= |requestCONNMap|
    {
      ghost var h := View();
      ScanStarts(h);
      scanned := ScanSlots(h);
    }

    method ScanSlots(ghost h: Host) returns (scanned: nat)
      requires Valid() && View() == h && ScanAt(h, Around(counter, |requestCONNMap|), |requestCONNMap|)
      modifies this`counter, this`timer, this`log, conns
      ensures Valid() && scanned <= |requestCONNMap|
      ensures View() == Serve(h, NextSlot(h)).(nap := h.nap)
    {
      scanned := 0;
      ghost var left: nat := |requestCONNMap|;
      var sendNewRequest := false;
      while !sendNewRequest
        invariant Valid() && requestCONNMap == h.registered && scanned + left == |requestCONNMap|
        invariant !sendNewRequest ==>
                    View() == h.(counter := counter)
                    && ScanAt(h, Around(counter, |requestCONNMap|), left)
        invariant sendNewRequest ==> View() == Serve(h, NextSlot(h)).(nap := h.nap)
        decreases !sendNewRequest, left
      {
        sendNewRequest := LookAtSlot(h, left);
        scanned, left := scanned + 1, left - 1;
      }
    }

    /** One round of the scan: wrap around, look at the slot, send if it has a pull, and move on. */
    method LookAtSlot(ghost h: Host, ghost left: nat) returns (found: bool)
      requires Valid() && h.WellFormed() && View() == h.(counter := counter)
      requires ScanAt(h, Around(counter, |requestCONNMap|), left)
      modifies this`counter, this`timer, this`log, conns
      ensures Valid() && left > 0 && requestCONNMap == h.registered
      ensures found ==> View() == Serve(h, NextSlot(h)).(nap := h.nap)
      ensures !found ==>
                && left > 1 && View() == h.(counter := counter)
                && ScanAt(h, Around(counter, |requestCONNMap|), left - 1)
    {
      var pullsQueueLength := SlotLength();
      ScanStep(h, counter, left);
      found := pullsQueueLength > 0;
      if found {
        ServeSlot(h);
      } else {
        MoveOn();
      }
    }

    /** Sends from the slot at the counter and moves on. */
    method ServeSlot(ghost h: Host)
      requires Valid() && h.WellFormed() && View() == h.(counter := counter) && counter < |requestCONNMap|
      requires h.conns[h.registered[counter]].pulls != []
      modifies this`counter, this`timer, this`log, conns
      ensures Valid() && View() == Serve(h, old(counter)).(nap := h.nap)
    {
      ServePieces(h, counter);
      SendFrom(requestCONNMap[counter]);
      MoveOn();
    }

    method MoveOn()
      requires Valid() && counter < |requestCONNMap|
      modifies this`counter
      ensures Valid() && View() == old(View()).(counter := old(counter) + 1)
    {
      counter := counter + 1;
    }

    /** Wraps the counter around and reads the queue length of its slot. */
    method SlotLength() returns (length: nat)
      requires Valid() && requestCONNMap != []
      modifies this`counter
      ensures Valid() && View() == old(View()).(counter := counter)
      ensures counter == Around(old(counter), |requestCONNMap|)
      ensures counter < |requestCONNMap| && length == |View().conns[requestCONNMap[counter]].pulls|
    {
      if counter == |requestCONNMap| {
        counter := 0;
      }
      length := |conns[requestCONNMap[counter]].pulls|;
    }

    method PopFrom(i: nat) returns (sent: seq<nat>)
      requires Valid() && i < |conns| && conns[i].pulls != []
      modifies conns[i]
      ensures Valid() && |sent| == 1 && sent[0] == old(View()).conns[i].pulls[0]
      ensures View() == Replaced(old(View()), i, ReleasePull(old(View()).conns[i]))
    {
      sent := conns[i].SendRequestFromPullsQueue();
      OneConnChanged(i);
    }

    /** Pops and logs the front pull of connection `i`, which sits in slot `counter`, and arms the timer. */
    method SendFrom(i: nat)
      requires Valid() && counter < |requestCONNMap| && i == requestCONNMap[counter]
      requires conns[i].pulls != []
      modifies this`timer, this`log, conns[i]
      ensures Valid() && View() == Serve(old(View()), old(counter)).(counter := old(counter), nap := old(nap))
    {
      ghost var h := View();
      var sent := PopFrom(i);
      LogAndArm(sent[0]);
      SendPieces(h, counter);
    }

    method LogAndArm(pull: nat)
      requires Valid()
      modifies this`timer, this`log
      ensures Valid() && View() == Arm(old(View()).(log := old(log) + [Sent(now, counter, pull)]))
    {
      log := log + [Sent(now, counter, pull)];
      RequestTimer();
    }
  }

  /** The scan from slot `s` with `left` slots to go finds the slot to serve, and finds it in time. */
  ghost predicate ScanAt(h: Host, s: nat, left: nat)
    requires h.WellFormed()
  {
    && s < |h.registered|
    && h.conns[h.registered[NextSlot(h)]].pulls != []
    && Scan(h.conns, h.registered, s, left) == NextSlot(h)
    && Distance(s, NextSlot(h), |h.registered|) < left
  }

  lemma ScanStarts(h: Host)
    requires h.WellFormed() && !AllEmpty(h)
    ensures h.registered != [] && ScanAt(h, Around(h.counter, |h.registered|), |h.registered|)
  {
    NextSlotWaits(h);
  }

  lemma ScanStep(h: Host, s: nat, left: nat)
    requires h.WellFormed() && ScanAt(h, s, left)
    ensures if h.conns[h.registered[s]].pulls != [] then NextSlot(h) == s
            else left > 1 && ScanAt(h, Around(s + 1, |h.registered|), left - 1)
  {
  }

  lemma SendPieces(h: Host, s: nat)
    requires h.WellFormed() && s < |h.registered| && h.conns[h.registered[s]].pulls != []
    ensures var i := h.registered[s];
            var popped := Replaced(h, i, ReleasePull(h.conns[i]));
            Arm(popped.(log := h.log + [Sent(h.now, s, h.conns[i].pulls[0])])) ==
            Serve(h, s).(counter := h.counter, nap := h.nap)
  {
  }

  /** Serving a slot from a host whose counter is there already. */
  lemma ServePieces(h: Host, s: nat)
    requires h.WellFormed() && s < |h.registered| && h.conns[h.registered[s]].pulls != []
    ensures var at := h.(counter := s);
            Serve(at, s).(counter := s, nap := h.nap).(counter := s + 1) == Serve(h, s).(nap := h.nap)
  {
  }

  /** Host `h` with connection `i` replaced. */
  function Replaced(h: Host, i: nat, c: Conn): Host
    requires i < |h.conns|
  {
    h.(conns := h.conns[i := c])
  }

  function WakeIf(pulled: bool, h: Host): Host {
    if pulled then Wake(h) else h
  }

  /** What happens to a connection after registration does not change which timer registration sets. */
  lemma RegisterIgnoresHandOver(h: Host, i: nat, c: Conn)
    requires h.WellFormed() && i < |h.conns| && c.pulls == h.conns[i].pulls
    ensures Register(Replaced(h, i, c), i) == Replaced(Register(h, i), i, c)
  {
    var g, g' := h.(registered := h.registered + [i]), Replaced(h.(registered := h.registered + [i]), i, c);
    assert forall s :: 0 <= s < |g.registered| ==>
      g'.conns[g.registered[s]].pulls == g.conns[g.registered[s]].pulls;
  }

  lemma HeaderPieces(h: Host, i: nat)
    requires h.WellFormed() && i < |h.conns|
    ensures var c := h.conns[i];
            var woken := Wake(Replaced(h, i, AddPull(c)));
            OnHeader(h, i) == if RegistersOnHeader(c)
                              then Replaced(Register(woken, i), i, AddPull(c).(notAdded := false))
                              else woken
  {
    var c := h.conns[i];
    var woken := Wake(Replaced(h, i, AddPull(c)));
    if RegistersOnHeader(c) {
      RegisterIgnoresHandOver(woken, i, HeaderArrives(c));
      assert woken.conns[i := HeaderArrives(c)] == h.conns[i := HeaderArrives(c)];
    }
  }

  lemma SymbolPieces(h: Host, i: nat, k: nat, counted: Host)
    requires h.WellFormed() && i < |h.conns|
    requires counted == WakeIf(PullsFor(h.conns[i], k), Replaced(h, i, Counted(h.conns[i], k)))
    ensures var c := Counted(h.conns[i], k);
            OnSymbol(h, i, k) ==
            if c.received > c.wanted then StopIfFinished(counted)
            else if c.received == 1 && c.notAdded
            then Replaced(Register(counted, i), i, HandedOver(c.(notAdded := false), k))
            else Replaced(counted, i, HandedOver(c, k))
  {
    var c := Counted(h.conns[i], k);
    var d := SymbolArrives(h.conns[i], k);
    if c.received > c.wanted {
      assert c == d;
    } else {
      assert d == HandedOver(c.(notAdded := c.notAdded && c.received != 1), k);
      RegisterIgnoresHandOver(counted, i, d);
      assert counted.conns[i := d] == h.conns[i := d];
    }
  }
}

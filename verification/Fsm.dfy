/** The connection state machine (RFC 793, sections 3.2 and 3.9) with its timers and its indications to the
    application. */
module Fsm {
  import opened SeqNum
  import opened Wrappers
  import RcvQueue

  datatype State =
    | INIT | LISTEN | SYN_SENT | SYN_RCVD | ESTABLISHED | CLOSE_WAIT | LAST_ACK
    | FIN_WAIT_1 | FIN_WAIT_2 | CLOSING | TIME_WAIT | CLOSED

  datatype Event =
    | IGNORE | OPEN_ACTIVE | OPEN_PASSIVE | SEND | CLOSE | ABORT | STATUS | QUEUE_BYTES_LIMIT | READ
    | TIMEOUT_CONN_ESTAB | TIMEOUT_2MSL | TIMEOUT_FIN_WAIT_2
    | RCV_SYN | RCV_SYN_ACK | RCV_ACK | RCV_FIN | RCV_FIN_ACK | RCV_RST | RCV_UNEXP_SYN

  /** A deleted timer must not be touched again. */
  datatype Timer = Deleted | Idle | Scheduled

  /** A connection: its state, its timers, and how often the application was told CLOSED and PEER_CLOSED by them. */
  datatype Conn = Conn(
    maxRcvBuffer: uint32,
    st: State, active: bool, synAcked: bool,
    connEstab: Timer, synRexmit: Timer, msl: Timer, finWait2: Timer,
    toldClosed: nat, toldPeerClosed: nat)

  function Fresh(maxRcvBuffer: uint32): Conn {
    Conn(maxRcvBuffer, INIT, false, false, Idle, Idle, Idle, Idle, 0, 0)
  }

  /** Where an event leads, event by event. */
  function Goto(s: State, e: Event, active: bool): State {
    match e
    case OPEN_PASSIVE => if s == INIT then LISTEN else s
    case OPEN_ACTIVE => if s in {INIT, LISTEN} then SYN_SENT else s
    case SEND => if s == LISTEN then SYN_SENT else s
    case CLOSE =>
      if s in {LISTEN, SYN_SENT} then CLOSED
      else if s in {SYN_RCVD, ESTABLISHED} then FIN_WAIT_1
      else if s == CLOSE_WAIT then LAST_ACK else s
    case ABORT => if s == INIT then s else CLOSED
    case TIMEOUT_CONN_ESTAB =>
      if s == SYN_SENT || (s == SYN_RCVD && active) then CLOSED else if s == SYN_RCVD then LISTEN else s
    case TIMEOUT_2MSL => if s == TIME_WAIT then CLOSED else s
    case TIMEOUT_FIN_WAIT_2 => if s == FIN_WAIT_2 then CLOSED else s
    case RCV_SYN => if s in {LISTEN, SYN_SENT} then SYN_RCVD else s
    case RCV_SYN_ACK => if s == SYN_SENT then ESTABLISHED else s
    case RCV_ACK =>
      if s == SYN_RCVD then ESTABLISHED
      else if s == FIN_WAIT_1 then FIN_WAIT_2
      else if s == CLOSING then TIME_WAIT
      else if s == LAST_ACK then CLOSED else s
    case RCV_FIN =>
      if s in {SYN_RCVD, ESTABLISHED} then CLOSE_WAIT
      else if s == FIN_WAIT_1 then CLOSING
      else if s == FIN_WAIT_2 then TIME_WAIT else s
    case RCV_FIN_ACK => if s == FIN_WAIT_1 then TIME_WAIT else s
    case RCV_RST => if s in {INIT, LISTEN} then s else if s == SYN_RCVD && !active then LISTEN else CLOSED
    case RCV_UNEXP_SYN => if s in {INIT, LISTEN, SYN_SENT} then s else CLOSED
    case _ => s
  }

  function Cancelled(t: Timer): Timer {
    if t == Scheduled then Idle else t
  }

  /** The actions on entering a state; None if a deleted timer is touched. */
  function Entered(c: Conn, oldState: State, e: Event): Option<Conn> {
    match c.st
    case LISTEN =>
      if c.connEstab.Deleted? || c.synRexmit.Deleted? then None
      else Some(c.(connEstab := Idle, synRexmit := Idle))
    case ESTABLISHED =>
      if c.connEstab.Deleted? || c.synRexmit.Deleted? then None
      else Some(c.(connEstab := Deleted, synRexmit := Deleted))
    case CLOSE_WAIT =>
      Some(c.(connEstab := Cancelled(c.connEstab), synRexmit := Cancelled(c.synRexmit),
        toldPeerClosed := c.toldPeerClosed + 1))
    case LAST_ACK => Some(c.(connEstab := Cancelled(c.connEstab), synRexmit := Cancelled(c.synRexmit)))
    case FIN_WAIT_1 => Some(c.(connEstab := Cancelled(c.connEstab), synRexmit := Cancelled(c.synRexmit)))
    case FIN_WAIT_2 => Some(c.(connEstab := Cancelled(c.connEstab), synRexmit := Cancelled(c.synRexmit)))
    case CLOSING => Some(c.(connEstab := Cancelled(c.connEstab), synRexmit := Cancelled(c.synRexmit)))
    case TIME_WAIT => Some(c.(toldClosed := c.toldClosed + 1))
    case CLOSED =>
      Some(c.(toldClosed := if oldState != TIME_WAIT && e != ABORT then c.toldClosed + 1 else c.toldClosed,
              msl := Cancelled(c.msl), connEstab := Cancelled(c.connEstab),
              finWait2 := Cancelled(c.finWait2), synRexmit := Cancelled(c.synRexmit)))
    case _ => Some(c)
  }

  function Transition(c: Conn, e: Event): Option<Conn> {
    var s := Goto(c.st, e, c.active);
    if s == c.st then Some(c) else Entered(c.(st := s), c.st, e)
  }

  // ---------------------------------------------------------------- handlers

  /** What the handlers look at in a segment: `knownFile` stands for the requested file, `ackOk` for an acknowledgement
      beyond our SYN, `finAcked` for our FIN having been acknowledged. */
  datatype Segment = Segment(seqNo: uint32, payloadLength: uint32, syn: bool, ack: bool, rst: bool, fin: bool,
                             ackOk: bool, knownFile: bool, finAcked: bool)

  /** The payload of a SYN is accepted. The receive queue has just been set up behind the SYN itself. */
  predicate TakesPayload(c: Conn, g: Segment) {
    g.payloadLength == 0 || RcvQueue.HasEnoughSpace(Add(g.seqNo, 1), g.seqNo, g.payloadLength, c.maxRcvBuffer)
  }

  /** The space check looks for the payload one byte too early, so that it refuses every payload, whatever the space. */
  lemma SynPayloadIsRefused(c: Conn, g: Segment)
    ensures TakesPayload(c, g) <==> g.payloadLength == 0
  {
    assert Sub(g.seqNo, Add(g.seqNo, 1)) == LIMIT - 1;
  }

  datatype Action =
    | Open(asActive: bool) | Send | Close(pending: bool) | Abort | Query(what: Event)
    | Arrive(seg: Segment)
    | FireConnEstab | FireSynRexmit(giveUp: bool) | FireMsl | FireFinWait2

  /** A handler's effect and the event it returns; or the handler throws an internal error. */
  datatype Handled = Handled(conn: Conn, event: Event) | Throws

  /** scheduleTimeout, which must not be given a running or a deleted timer. */
  predicate CanSchedule(t: Timer) { t == Idle }

  function InListen(c: Conn, g: Segment): Handled {
    if g.rst || g.ack || !g.syn then Handled(c, IGNORE)
    else if c.connEstab.Deleted? then Throws
    else Handled(c.(connEstab := Scheduled), if TakesPayload(c, g) then RCV_SYN else IGNORE)
  }

  function InSynSent(c: Conn, g: Segment): Handled {
    if g.ack && !g.ackOk then Handled(c, IGNORE)
    else if g.rst then Handled(c, if g.ack then RCV_RST else IGNORE)
    else if !g.syn then Handled(c, IGNORE)
    else
      var d := c.(synAcked := c.synAcked || g.ack);
      if d.synAcked then Handled(d, if TakesPayload(c, g) then RCV_SYN_ACK else IGNORE)
      else if d.synRexmit.Deleted? then Throws
      else Handled(d.(synRexmit := Scheduled), if TakesPayload(c, g) then RCV_SYN else IGNORE)
  }

  function FirstThruEighth(c: Conn, g: Segment): Handled {
    if g.fin then
      if c.st == FIN_WAIT_1 && g.finAcked then
        if CanSchedule(c.msl) then Handled(c.(finWait2 := Cancelled(c.finWait2), msl := Scheduled), RCV_FIN_ACK)
          else Throws
      else if c.st == FIN_WAIT_2 then Handled(c.(msl := Cancelled(c.msl)), RCV_FIN)
      else if c.st == TIME_WAIT then Handled(c.(msl := Scheduled), TIMEOUT_2MSL)
      else Handled(c, RCV_FIN)
    else
      match c.st
      case CLOSE_WAIT => Handled(c, CLOSE)
      case LAST_ACK => Handled(c, RCV_ACK)
      case FIN_WAIT_1 => Handled(c, RCV_ACK)
      case CLOSING =>
        if !g.finAcked then Handled(c, IGNORE)
        else if CanSchedule(c.msl) then Handled(c.(finWait2 := Cancelled(c.finWait2), msl := Scheduled), RCV_ACK)
        else Throws
      case TIME_WAIT => Handled(c.(msl := Scheduled), IGNORE)
      case SYN_RCVD => Handled(c, RCV_ACK)
      case _ => Handled(c, IGNORE)
  }

  function Handle(c: Conn, a: Action): Handled {
    match a
    case Open(asActive) => Handled(c.(active := asActive), if asActive then OPEN_ACTIVE else OPEN_PASSIVE)
    case Send =>
      if c.st != LISTEN then Handled(c, SEND)
      else if CanSchedule(c.connEstab) && !c.synRexmit.Deleted? then
        Handled(c.(active := true, synRexmit := Scheduled, connEstab := Scheduled), SEND)
      else Throws
    case Close(pending) =>
      Handled(c, if pending && c.st in {SYN_RCVD, ESTABLISHED, CLOSE_WAIT} then IGNORE else CLOSE)
    case Abort => Handled(c, ABORT)
    case Query(what) => Handled(c, what)
    case Arrive(g) =>
      if c.st == LISTEN && g.knownFile then InListen(c, g)
      else if c.st == SYN_SENT then InSynSent(c, g)
      else FirstThruEighth(c, g)
    case FireConnEstab =>
      if c.st in {SYN_RCVD, SYN_SENT} then Handled(c.(connEstab := Idle), TIMEOUT_CONN_ESTAB) else Throws
    case FireSynRexmit(giveUp) =>
      if giveUp then Handled(c.(synRexmit := Idle), ABORT)
      else if c.st in {SYN_SENT, SYN_RCVD} then Handled(c, IGNORE)
      else Throws
    case FireMsl => if c.st == TIME_WAIT then Handled(c.(msl := Idle), TIMEOUT_2MSL) else Throws
    case FireFinWait2 => if c.st == FIN_WAIT_2 then Handled(c.(finWait2 := Idle), TIMEOUT_FIN_WAIT_2) else Throws
  }

  /** What can happen next: the application keeps to the interface, only running timers fire, and nothing reaches a
      closed connection. */
  predicate Possible(c: Conn, a: Action) {
    && c.st != CLOSED
    && match a
       case Open(_) => c.st == INIT
       case Send => c.st in {LISTEN, SYN_SENT, SYN_RCVD, ESTABLISHED, CLOSE_WAIT}
       case Close(_) => c.st in {LISTEN, SYN_SENT, SYN_RCVD, ESTABLISHED, CLOSE_WAIT}
       case Abort => c.st != INIT
       case Query(what) => c.st != INIT && what in {STATUS, QUEUE_BYTES_LIMIT, READ}
       case Arrive(_) => c.st != INIT
       case FireConnEstab => c.connEstab == Scheduled
       case FireSynRexmit(_) => c.synRexmit == Scheduled
       case FireMsl => c.msl == Scheduled
       case FireFinWait2 => c.finWait2 == Scheduled
  }

  /** One step: the handler, then the state transition. None is an internal error. */
  function Step(c: Conn, a: Action): Option<Conn> {
    match Handle(c, a)
    case Throws => None
    case Handled(d, e) => Transition(d, e)
  }

  // ---------------------------------------------------------------- whole runs

  /** Runs of a connection without an internal error so far. */
  ghost predicate Run(from: Conn, acts: seq<Action>, to: Conn)
    decreases |acts|
  {
    if acts == [] then from == to
    else
      && Possible(from, acts[0])
      && Step(from, acts[0]).Some?
      && Run(Step(from, acts[0]).value, acts[1..], to)
  }

  predicate Setup(s: State) {
    s in {INIT, LISTEN, SYN_SENT, SYN_RCVD}
  }

  /** What the indications say about the state. */
  predicate ToldRight(c: Conn) {
    && (c.st != CLOSED ==> c.toldClosed == if c.st == TIME_WAIT then 1 else 0)
    && (c.st != CLOSED ==> c.toldPeerClosed == if c.st in {CLOSE_WAIT, LAST_ACK} then 1 else 0)
    && c.toldClosed <= 1 && c.toldPeerClosed <= 1
  }

  /** The setup timers live exactly until the connection is established. */
  predicate SetupTimers(c: Conn) {
    && (c.connEstab.Deleted? <==> c.synRexmit.Deleted?)
    && (Setup(c.st) ==> !c.connEstab.Deleted?)
    && (c.st == ESTABLISHED ==> c.connEstab.Deleted?)
    && c.finWait2 == Idle && c.msl != Deleted
  }

  /** Kept by every step. */
  predicate Inv(c: Conn) {
    && SetupTimers(c) && ToldRight(c)
    && (c.connEstab.Scheduled? ==> c.st in {LISTEN, SYN_SENT, SYN_RCVD})
    && (c.synRexmit.Scheduled? ==> c.st in {SYN_SENT, SYN_RCVD})
    && (c.msl.Scheduled? ==> c.st == TIME_WAIT)
  }

  /** Between a handler and the transition on its event: a handler may have started a timer for the state to come. */
  predicate Ready(c: Conn, e: Event) {
    && SetupTimers(c) && ToldRight(c) && c.st != CLOSED
    && (c.connEstab.Scheduled? ==> c.st in {LISTEN, SYN_SENT, SYN_RCVD})
    && (c.synRexmit.Scheduled? ==> c.st in {SYN_SENT, SYN_RCVD} || (c.st == LISTEN && e == SEND))
    && (c.msl.Scheduled? ==>
          c.st == TIME_WAIT || (c.st == FIN_WAIT_1 && e == RCV_FIN_ACK) || (c.st == CLOSING && e == RCV_ACK))
  }

  lemma ArrivalIsReady(c: Conn, g: Segment)
    requires Inv(c) && c.st !in {INIT, CLOSED} && Handle(c, Arrive(g)).Handled?
    ensures var h := Handle(c, Arrive(g));
            && Ready(h.conn, h.event) && h.conn.st == c.st
            && (h.conn.connEstab.Deleted? <==> c.connEstab.Deleted?)
  {
  }

  lemma {:induction false} HandlersAreReady(c: Conn, a: Action)
    requires Inv(c) && Possible(c, a) && Handle(c, a).Handled?
    ensures var h := Handle(c, a);
            && Ready(h.conn, h.event) && h.conn.st == c.st
            && (h.conn.connEstab.Deleted? <==> c.connEstab.Deleted?)
  {
    if a.Arrive? {
      ArrivalIsReady(c, a.seg);
    }
  }

  /** What the transition table says about a change of state. */
  predicate Edge(s: State, t: State, e: Event) {
    && (Setup(t) || t == ESTABLISHED ==> Setup(s))
    && (s == TIME_WAIT ==> t == CLOSED)
    && (s == LAST_ACK ==> t == CLOSED)
    && (s == CLOSE_WAIT <==> t == LAST_ACK || (s == CLOSE_WAIT && t == CLOSED))
    && (t == CLOSE_WAIT ==> s in {SYN_RCVD, ESTABLISHED})
    && (t == TIME_WAIT ==> s in {FIN_WAIT_1, FIN_WAIT_2, CLOSING})
    && (s == LISTEN && e == SEND ==> t == SYN_SENT)
    && (s == FIN_WAIT_1 && e == RCV_FIN_ACK ==> t == TIME_WAIT)
    && (s == CLOSING && e == RCV_ACK ==> t == TIME_WAIT)
    && t != INIT && s != CLOSED
  }

  lemma GotoIsEdge(s: State, e: Event, active: bool)
    requires s != CLOSED
    ensures var t := Goto(s, e, active);
            if t != s then Edge(s, t, e)
            else && !(s == LISTEN && e == SEND)
                 && !(s == FIN_WAIT_1 && e == RCV_FIN_ACK)
                 && !(s == CLOSING && e == RCV_ACK)
  {
  }

  lemma EnteredKeepsInv(c: Conn, t: State, e: Event)
    requires Ready(c, e) && Edge(c.st, t, e)
    ensures var r := Entered(c.(st := t), c.st, e);
            && r.Some? && Inv(r.value) && r.value.st == t
            && (c.connEstab.Deleted? ==> r.value.connEstab.Deleted?)
            && (t == CLOSED ==> r.value.toldClosed == if e == ABORT && c.st != TIME_WAIT then 0 else 1)
  {
  }

  /** No transition touches a deleted timer, and each one restores the invariant. */
  lemma {:induction false} TransitionKeepsInv(c: Conn, e: Event)
    requires Ready(c, e)
    ensures Transition(c, e).Some? && Inv(Transition(c, e).value)
    ensures c.connEstab.Deleted? ==> Transition(c, e).value.connEstab.Deleted?
    ensures var d := Transition(c, e).value;
            d.st == CLOSED ==> d.toldClosed == if e == ABORT && c.st != TIME_WAIT then 0 else 1
  {
    GotoIsEdge(c.st, e, c.active);
    var t := Goto(c.st, e, c.active);
    if t != c.st {
      EnteredKeepsInv(c, t, e);
    }
  }

  lemma {:induction false} StepKeepsInv(c: Conn, a: Action)
    requires Inv(c) && Possible(c, a) && Step(c, a).Some?
    ensures Inv(Step(c, a).value)
    ensures c.connEstab.Deleted? ==> Step(c, a).value.connEstab.Deleted?
  {
    HandlersAreReady(c, a);
    TransitionKeepsInv(Handle(c, a).conn, Handle(c, a).event);
  }

  lemma {:induction false} RunKeepsInv(from: Conn, acts: seq<Action>, to: Conn)
    requires Inv(from) && Run(from, acts, to)
    ensures Inv(to)
    decreases |acts|
  {
    if acts != [] {
      StepKeepsInv(from, acts[0]);
      RunKeepsInv(Step(from, acts[0]).value, acts[1..], to);
    }
  }

  /** In a reachable state some possible step is an internal error (a timeout in an unexpected state, a timer started
      twice or touched after its deletion) exactly if the establishment timer runs in LISTEN. */
  lemma InternalErrorIff(max: uint32, acts: seq<Action>, c: Conn)
    requires Run(Fresh(max), acts, c)
    ensures (exists a :: Possible(c, a) && Step(c, a).None?) <==> c.st == LISTEN && c.connEstab == Scheduled
  {
    RunKeepsInv(Fresh(max), acts, c);
    if c.st == LISTEN && c.connEstab == Scheduled {
      assert Possible(c, FireConnEstab) && Step(c, FireConnEstab).None?;
    }
    forall a | Possible(c, a) && Step(c, a).None?
      ensures c.st == LISTEN && c.connEstab == Scheduled
    {
      if Handle(c, a).Handled? {
        HandlersAreReady(c, a);
        TransitionKeepsInv(Handle(c, a).conn, Handle(c, a).event);
      } else {
        HandlerThrows(c, a);
      }
    }
  }

  lemma HandlerThrows(c: Conn, a: Action)
    requires Inv(c) && Possible(c, a) && Handle(c, a).Throws?
    ensures c.st == LISTEN && c.connEstab == Scheduled
  {
  }

  /** A SYN for a known file that carries a payload, in LISTEN: it is dropped, but only after the timer was started. */
  predicate DropsSyn(c: Conn, a: Action) {
    a.Arrive? && c.st == LISTEN && var g := a.seg; g.knownFile && g.syn && !g.ack && !g.rst && g.payloadLength > 0
  }

  /** A segment that processSegmentInListen takes as a SYN. */
  predicate TakesSyn(c: Conn, g: Segment) {
    c.st == LISTEN && g.knownFile && g.syn && !g.ack && !g.rst
  }

  /** A SYN in LISTEN is never an internal error, and it leads to SYN_RCVD exactly if it carries no payload. */
  lemma SynIsTaken(c: Conn, g: Segment)
    requires Inv(c) && TakesSyn(c, g)
    ensures var r := Step(c, Arrive(g));
            && r.Some? && Inv(r.value) && r.value.connEstab == Scheduled
            && r.value.st == (if g.payloadLength == 0 then SYN_RCVD else LISTEN) && r.value.active == c.active
  {
    SynPayloadIsRefused(c, g);
    HandlersAreReady(c, Arrive(g));
    TransitionKeepsInv(Handle(c, Arrive(g)).conn, Handle(c, Arrive(g)).event);
  }

  lemma OpenedListens(c: Conn)
    requires Inv(c) && c.st == INIT
    ensures var r := Step(c, Open(false)); r.Some? && Inv(r.value) && r.value.st == LISTEN && !r.value.active
  {
  }

  /** A passively opened connection goes back to LISTEN when its establishment timer fires. */
  lemma TimeoutListensAgain(c: Conn)
    requires Inv(c) && c.st == SYN_RCVD && !c.active && c.connEstab == Scheduled
    ensures Possible(c, FireConnEstab)
    ensures var r := Step(c, FireConnEstab);
            r.Some? && Inv(r.value) && r.value.st == LISTEN && r.value.connEstab == Idle
  {
  }

  /** A SYN, or the answer to ours, is dropped and leaves the state as it is if it carries any payload. */
  lemma SynWithPayloadIsDropped(c: Conn, g: Segment)
    requires c.st in {LISTEN, SYN_SENT} && g.syn && !g.rst && g.payloadLength > 0
    requires c.st == LISTEN ==> g.knownFile
    ensures var h := Handle(c, Arrive(g)); h.Handled? ==> h.event == IGNORE && h.conn.st == c.st
  {
    SynPayloadIsRefused(c, g);
  }

  /** Some step of the run drops a SYN so and stays in LISTEN. */
  ghost predicate Drops(from: Conn, acts: seq<Action>)
    decreases |acts|
  {
    acts != [] && (DropsSyn(from, acts[0])
      || (Step(from, acts[0]).Some? && Drops(Step(from, acts[0]).value, acts[1..])))
  }

  lemma StepLeavesListenQuiet(c: Conn, a: Action)
    requires Inv(c) && Possible(c, a) && Step(c, a).Some? && !DropsSyn(c, a)
    requires c.st == LISTEN ==> c.connEstab == Idle
    ensures var d := Step(c, a).value; d.st == LISTEN ==> d.connEstab == Idle
  {
    if a.Arrive? {
      SynPayloadIsRefused(c, a.seg);
    }
    HandlersAreReady(c, a);
    TransitionKeepsInv(Handle(c, a).conn, Handle(c, a).event);
  }

  lemma {:induction false} RunLeavesListenQuiet(from: Conn, acts: seq<Action>, to: Conn)
    requires Inv(from) && Run(from, acts, to) && !Drops(from, acts)
    requires from.st == LISTEN ==> from.connEstab == Idle
    ensures to.st == LISTEN ==> to.connEstab == Idle
    decreases |acts|
  {
    if acts != [] {
      StepKeepsInv(from, acts[0]);
      StepLeavesListenQuiet(from, acts[0]);
      RunLeavesListenQuiet(Step(from, acts[0]).value, acts[1..], to);
    }
  }

  /** A run that never drops a SYN in LISTEN meets no internal error; and right after such a drop the next expiry is
      one. */
  lemma RunsAreSafeUnlessSynDropped(max: uint32, acts: seq<Action>, c: Conn, a: Action)
    requires Run(Fresh(max), acts, c) && Possible(c, a)
    ensures !Drops(Fresh(max), acts) ==> Step(c, a).Some?
    ensures DropsSyn(c, a) && Step(c, a).Some? ==>
              var d := Step(c, a).value; Possible(d, FireConnEstab) && Step(d, FireConnEstab).None?
  {
    RunKeepsInv(Fresh(max), acts, c);
    if a.Arrive? {
      SynPayloadIsRefused(c, a.seg);
    }
    if !Drops(Fresh(max), acts) {
      RunLeavesListenQuiet(Fresh(max), acts, c);
      InternalErrorIff(max, acts, c);
    }
  }

  /** The setup timers are there in the setup states, gone once the connection has been established, and never come
      back; at the end nothing is left running. */
  lemma {:induction false} TimersOverRuns(max: uint32, acts: seq<Action>, c: Conn, more: seq<Action>, d: Conn)
    requires Run(Fresh(max), acts, c) && Run(c, more, d)
    ensures Setup(c.st) ==> c.connEstab != Deleted && c.synRexmit != Deleted
    ensures c.st == ESTABLISHED ==> d.connEstab == Deleted && d.synRexmit == Deleted && !Setup(d.st)
    ensures c.st == CLOSED ==> Scheduled !in {c.connEstab, c.synRexmit, c.msl, c.finWait2}
  {
    RunKeepsInv(Fresh(max), acts, c);
    RunKeepsInv(c, more, d);
    if c.connEstab.Deleted? {
      DeletedStays(c, more, d);
    }
  }

  lemma {:induction false} DeletedStays(from: Conn, acts: seq<Action>, to: Conn)
    requires Inv(from) && from.connEstab.Deleted? && Run(from, acts, to)
    ensures to.connEstab.Deleted? && to.synRexmit.Deleted?
    decreases |acts|
  {
    if acts != [] {
      StepKeepsInv(from, acts[0]);
      DeletedStays(Step(from, acts[0]).value, acts[1..], to);
    }
  }

  // ---------------------------------------------------------------- the order of the states

  function Rank(s: State): nat {
    match s
    case INIT => 0 case LISTEN => 1 case SYN_SENT => 2 case SYN_RCVD => 3 case ESTABLISHED => 4
    case FIN_WAIT_1 => 5 case FIN_WAIT_2 => 6 case CLOSING => 6 case CLOSE_WAIT => 5 case LAST_ACK => 6
    case TIME_WAIT => 7 case CLOSED => 8
  }

  /** The only way back is from SYN_RCVD to LISTEN, for a connection that was opened passively. */
  lemma OnlyBackToListen(s: State, e: Event, active: bool)
    ensures var t := Goto(s, e, active); t != s ==> Rank(t) > Rank(s) || (s == SYN_RCVD && t == LISTEN && !active)
  {
  }

  /** The application hears CLOSED once by the end, unless an abort outside TIME_WAIT ended the connection: then not at
      all. */
  lemma ClosedIsToldOnce(max: uint32, acts: seq<Action>, c: Conn, a: Action)
    requires Run(Fresh(max), acts, c) && Possible(c, a) && Step(c, a).Some?
    ensures c.toldClosed <= 1 && c.toldPeerClosed <= 1
    ensures var d := Step(c, a).value;
            d.st == CLOSED ==> d.toldClosed == if Handle(c, a).event == ABORT && c.st != TIME_WAIT then 0 else 1
  {
    RunKeepsInv(Fresh(max), acts, c);
    HandlersAreReady(c, a);
    TransitionKeepsInv(Handle(c, a).conn, Handle(c, a).event);
  }

  // ---------------------------------------------------------------- the end of a connection

  predicate IsTimer(a: Action) {
    a.FireConnEstab? || a.FireSynRexmit? || a.FireMsl? || a.FireFinWait2?
  }

  /** TIME_WAIT is entered with the 2MSL timer running, except from FIN_WAIT_2. */
  lemma EntersTimeWait(c: Conn, a: Action)
    requires Inv(c) && c.st != TIME_WAIT && Possible(c, a) && Step(c, a).Some? && Step(c, a).value.st == TIME_WAIT
    ensures c.st in {FIN_WAIT_1, FIN_WAIT_2, CLOSING}
    ensures Step(c, a).value.msl == Scheduled <==> c.st != FIN_WAIT_2
  {
    HandlersAreReady(c, a);
  }

  /** In TIME_WAIT every segment starts the timer anew, and a FIN ends the connection at once. */
  lemma StepInTimeWait(c: Conn, a: Action)
    requires Inv(c) && c.st == TIME_WAIT && Possible(c, a) && Step(c, a).Some?
    ensures var d := Step(c, a).value;
            d.st == CLOSED || (d.st == TIME_WAIT && d.msl == if a.Arrive? then Scheduled else c.msl)
  {
  }

  lemma {:induction false} RunInTimeWait(from: Conn, acts: seq<Action>, to: Conn)
    requires Inv(from) && from.st == TIME_WAIT && Run(from, acts, to) && to.st == TIME_WAIT
    ensures to.msl == Scheduled <==> from.msl == Scheduled || exists i :: 0 <= i < |acts| && acts[i].Arrive?
    decreases |acts|
  {
    if acts != [] {
      var d := Step(from, acts[0]).value;
      StepKeepsInv(from, acts[0]);
      StepInTimeWait(from, acts[0]);
      RunInTimeWait(d, acts[1..], to);
      assert forall i :: 1 <= i < |acts| ==> acts[i] == acts[1..][i - 1];
    }
  }

  /** In every run: a connection in TIME_WAIT has its 2MSL timer running exactly if it came from FIN_WAIT_1 or CLOSING,
      or a segment has come since; otherwise no timer runs, and it never closes by itself. */
  lemma {:induction false} TimeWaitEndsIff(max: uint32, before: seq<Action>, p: Conn, e: Action, after: seq<Action>,
                                           c: Conn)
    requires Run(Fresh(max), before, p) && p.st != TIME_WAIT
    requires Possible(p, e) && Step(p, e).Some? && Step(p, e).value.st == TIME_WAIT
    requires Run(Step(p, e).value, after, c) && c.st == TIME_WAIT
    ensures c.msl == Scheduled <==>
              p.st in {FIN_WAIT_1, CLOSING} || exists i :: 0 <= i < |after| && after[i].Arrive?
    ensures (exists a :: IsTimer(a) && Possible(c, a)) <==> c.msl == Scheduled
  {
    RunKeepsInv(Fresh(max), before, p);
    EntersTimeWait(p, e);
    StepKeepsInv(p, e);
    RunInTimeWait(Step(p, e).value, after, c);
    RunKeepsInv(Step(p, e).value, after, c);
    if c.msl == Scheduled {
      assert IsTimer(FireMsl) && Possible(c, FireMsl);
    }
  }

  // ---------------------------------------------------------------- what leads where

  /** An acceptable answer to our SYN: both handlers drop one with payload. `answered` says that an acceptable SYN+ACK
      came before. */
  predicate AnswersSyn(g: Segment, answered: bool) {
    g.syn && !g.rst && g.payloadLength == 0 && (if g.ack then g.ackOk else answered)
  }

  /** The steps into each other state, by what the application, the peer or a timer does. */
  predicate Enters(c: Conn, a: Action, t: State) {
    match t
    case INIT => false
    case LISTEN => (c.st == INIT && a == Open(false)) || (c.st == SYN_RCVD && !c.active && a.FireConnEstab?)
    case SYN_SENT => (c.st == INIT && a == Open(true)) || (c.st == LISTEN && a.Send?)
    case SYN_RCVD =>
      a.Arrive? && var g := a.seg;
      g.syn && !g.ack && !g.rst && g.payloadLength == 0
      && ((c.st == LISTEN && g.knownFile) || (c.st == SYN_SENT && !c.synAcked))
    case ESTABLISHED =>
      a.Arrive? && ((c.st == SYN_RCVD && !a.seg.fin) || (c.st == SYN_SENT && AnswersSyn(a.seg, c.synAcked)))
    case CLOSE_WAIT => a.Arrive? && a.seg.fin && c.st in {SYN_RCVD, ESTABLISHED}
    case LAST_ACK => c.st == CLOSE_WAIT && (a == Close(false) || (a.Arrive? && !a.seg.fin))
    case FIN_WAIT_1 => c.st in {SYN_RCVD, ESTABLISHED} && a == Close(false)
    case FIN_WAIT_2 => c.st == FIN_WAIT_1 && a.Arrive? && !a.seg.fin
    case CLOSING => c.st == FIN_WAIT_1 && a.Arrive? && a.seg.fin && !a.seg.finAcked
    case TIME_WAIT =>
      a.Arrive? && var g := a.seg;
      if g.fin then (c.st == FIN_WAIT_1 && g.finAcked) || c.st == FIN_WAIT_2 else c.st == CLOSING && g.finAcked
    case CLOSED =>
      || a.Abort? || a == FireSynRexmit(true)
      || (c.st in {LISTEN, SYN_SENT} && a.Close?)
      || (a.FireConnEstab? && (c.st == SYN_SENT || (c.st == SYN_RCVD && c.active)))
      || (c.st == SYN_SENT && a.Arrive? && a.seg.rst && a.seg.ack && a.seg.ackOk)
      || (c.st == LAST_ACK && a.Arrive? && !a.seg.fin)
      || (c.st == TIME_WAIT && (a.FireMsl? || (a.Arrive? && a.seg.fin)))
  }

  lemma StepEnters(c: Conn, a: Action, t: State)
    requires Inv(c) && Possible(c, a) && Step(c, a).Some? && t != c.st
    ensures Step(c, a).value.st == t <==> Enters(c, a, t)
  {
    HandlersAreReady(c, a);
    TransitionGoes(Handle(c, a).conn, Handle(c, a).event);
    if a.Arrive? {
      SynPayloadIsRefused(c, a.seg);
      ArrivalEnters(c, a.seg, t);
    } else {
      CallEnters(c, a, t);
    }
  }

  lemma TransitionGoes(c: Conn, e: Event)
    requires Transition(c, e).Some?
    ensures Transition(c, e).value.st == Goto(c.st, e, c.active)
  {
  }

  lemma ArrivalEnters(c: Conn, g: Segment, t: State)
    requires Inv(c) && Possible(c, Arrive(g)) && Handle(c, Arrive(g)).Handled? && t != c.st
    requires TakesPayload(c, g) <==> g.payloadLength == 0
    ensures var h := Handle(c, Arrive(g)); Goto(c.st, h.event, h.conn.active) == t <==> Enters(c, Arrive(g), t)
  {
    if !Setup(c.st) {
      ArrivalEntersLater(c, g, t);
    }
  }

  lemma ArrivalEntersLater(c: Conn, g: Segment, t: State)
    requires !Setup(c.st) && c.st != CLOSED && Handle(c, Arrive(g)).Handled? && t != c.st
    ensures var h := Handle(c, Arrive(g)); Goto(c.st, h.event, h.conn.active) == t <==> Enters(c, Arrive(g), t)
  {
  }

  lemma CallEnters(c: Conn, a: Action, t: State)
    requires Inv(c) && Possible(c, a) && !a.Arrive? && Handle(c, a).Handled? && t != c.st
    ensures var h := Handle(c, a); Goto(c.st, h.event, h.conn.active) == t <==> Enters(c, a, t)
  {
  }

  /** In every run: another state is entered exactly by the steps named for it. */
  lemma EntersExactly(max: uint32, acts: seq<Action>, c: Conn, a: Action, t: State)
    requires Run(Fresh(max), acts, c) && Possible(c, a) && Step(c, a).Some? && t != c.st
    ensures Step(c, a).value.st == t <==> Enters(c, a, t)
  {
    RunKeepsInv(Fresh(max), acts, c);
    StepEnters(c, a, t);
  }

  /** The whole table, target by target: the states and events that lead to another state. */
  predicate Leads(s: State, e: Event, active: bool, t: State) {
    match t
    case INIT => false
    case LISTEN =>
      (s == INIT && e == OPEN_PASSIVE) || (s == SYN_RCVD && !active && e in {TIMEOUT_CONN_ESTAB, RCV_RST})
    case SYN_SENT => (s == INIT && e == OPEN_ACTIVE) || (s == LISTEN && e in {OPEN_ACTIVE, SEND})
    case SYN_RCVD => s in {LISTEN, SYN_SENT} && e == RCV_SYN
    case ESTABLISHED => (s == SYN_SENT && e == RCV_SYN_ACK) || (s == SYN_RCVD && e == RCV_ACK)
    case CLOSE_WAIT => s in {SYN_RCVD, ESTABLISHED} && e == RCV_FIN
    case LAST_ACK => s == CLOSE_WAIT && e == CLOSE
    case FIN_WAIT_1 => s in {SYN_RCVD, ESTABLISHED} && e == CLOSE
    case FIN_WAIT_2 => s == FIN_WAIT_1 && e == RCV_ACK
    case CLOSING => s == FIN_WAIT_1 && e == RCV_FIN
    case TIME_WAIT =>
      (s == FIN_WAIT_1 && e == RCV_FIN_ACK) || (s == FIN_WAIT_2 && e == RCV_FIN) || (s == CLOSING && e == RCV_ACK)
    case CLOSED =>
      match s
      case INIT => false
      case LISTEN => e in {CLOSE, ABORT}
      case SYN_SENT => e in {CLOSE, ABORT, TIMEOUT_CONN_ESTAB, RCV_RST}
      case SYN_RCVD => e in {ABORT, RCV_UNEXP_SYN} || (active && e in {TIMEOUT_CONN_ESTAB, RCV_RST})
      case LAST_ACK => e in {ABORT, RCV_RST, RCV_UNEXP_SYN, RCV_ACK}
      case FIN_WAIT_2 => e in {ABORT, RCV_RST, RCV_UNEXP_SYN, TIMEOUT_FIN_WAIT_2}
      case TIME_WAIT => e in {ABORT, RCV_RST, RCV_UNEXP_SYN, TIMEOUT_2MSL}
      case _ => e in {ABORT, RCV_RST, RCV_UNEXP_SYN}
  }

  lemma {:induction false} TableByTarget(s: State, e: Event, active: bool, t: State)
    requires s != CLOSED && t != s
    ensures Goto(s, e, active) == t <==> Leads(s, e, active, t)
  {
    if t == CLOSED {
      match s {
        case INIT => case LISTEN => case SYN_SENT => case SYN_RCVD => case ESTABLISHED => case CLOSE_WAIT =>
        case LAST_ACK => case FIN_WAIT_1 => case FIN_WAIT_2 => case CLOSING => case TIME_WAIT =>
      }
    }
  }

  // ---------------------------------------------------------------- establishment

  /** An acceptable SYN+ACK comes in SYN_SENT. */
  predicate IsAnswer(c: Conn, a: Action) {
    c.st == SYN_SENT && a.Arrive? && var g := a.seg; g.syn && g.ack && g.ackOk && !g.rst
  }

  /** Some step of the run is one. */
  ghost predicate Answered(from: Conn, acts: seq<Action>)
    decreases |acts|
  {
    acts != [] && (IsAnswer(from, acts[0])
      || (Step(from, acts[0]).Some? && Answered(Step(from, acts[0]).value, acts[1..])))
  }

  lemma StepAnswers(c: Conn, a: Action)
    requires Inv(c) && Possible(c, a) && Step(c, a).Some?
    ensures Step(c, a).value.synAcked <==> c.synAcked || IsAnswer(c, a)
  {
    HandlerAnswers(c, a);
    TransitionAnswers(Handle(c, a).conn, Handle(c, a).event);
  }

  lemma HandlerAnswers(c: Conn, a: Action)
    requires Handle(c, a).Handled?
    ensures Handle(c, a).conn.synAcked <==> c.synAcked || IsAnswer(c, a)
  {
    if !(a.Arrive? && c.st == SYN_SENT) {
      OthersKeepAnswer(c, a);
    }
  }

  lemma OthersKeepAnswer(c: Conn, a: Action)
    requires Handle(c, a).Handled? && !(a.Arrive? && c.st == SYN_SENT)
    ensures Handle(c, a).conn.synAcked == c.synAcked
  {
  }

  lemma TransitionAnswers(c: Conn, e: Event)
    requires Transition(c, e).Some?
    ensures Transition(c, e).value.synAcked == c.synAcked
  {
  }

  lemma {:induction false} SynAckedIff(from: Conn, acts: seq<Action>, to: Conn)
    requires Inv(from) && Run(from, acts, to)
    ensures to.synAcked <==> from.synAcked || Answered(from, acts)
    decreases |acts|
  {
    if acts != [] {
      StepKeepsInv(from, acts[0]);
      StepAnswers(from, acts[0]);
      SynAckedIff(Step(from, acts[0]).value, acts[1..], to);
    }
  }

  /** A segment without FIN establishes a connection in SYN_RCVD; besides, only an acceptable SYN+ACK without payload
      does in SYN_SENT, or a plain SYN once one with payload has been dropped. Both setup timers are deleted then. */
  lemma EstablishedIff(max: uint32, acts: seq<Action>, c: Conn, a: Action)
    requires Run(Fresh(max), acts, c) && Possible(c, a) && c.st != ESTABLISHED
    ensures var r := Step(c, a);
            r.Some? && r.value.st == ESTABLISHED <==>
            a.Arrive? && ((c.st == SYN_RCVD && !a.seg.fin)
                          || (c.st == SYN_SENT && AnswersSyn(a.seg, Answered(Fresh(max), acts))))
    ensures var r := Step(c, a);
            r.Some? && r.value.st == ESTABLISHED ==> r.value.connEstab == Deleted && r.value.synRexmit == Deleted
  {
    RunKeepsInv(Fresh(max), acts, c);
    SynAckedIff(Fresh(max), acts, c);
    InternalErrorIff(max, acts, c);
    if Step(c, a).Some? {
      StepEnters(c, a, ESTABLISHED);
      StepKeepsInv(c, a);
    }
  }

  lemma OneStepMore(from: Conn, a: Action, acts: seq<Action>, to: Conn)
    requires Possible(from, a) && Step(from, a).Some? && Run(Step(from, a).value, acts, to)
    ensures Run(from, [a] + acts, to)
  {
    assert ([a] + acts)[1..] == acts;
  }

  /** An active opener is established by the peer's SYN+ACK. */
  lemma ActiveOpenerConnects(max: uint32, answer: Segment)
    requires AnswersSyn(answer, false)
    ensures exists c :: Run(Fresh(max), [Open(true), Arrive(answer)], c) && c.st == ESTABLISHED
  {
    SynPayloadIsRefused(Fresh(max), answer);
    var c := Step(Fresh(max), Open(true)).value;
    var d := Step(c, Arrive(answer)).value;
    assert Run(d, [], d);
    OneStepMore(c, Arrive(answer), [], d);
    assert [Arrive(answer)] + [] == [Arrive(answer)];
    OneStepMore(Fresh(max), Open(true), [Arrive(answer)], d);
    assert [Open(true)] + [Arrive(answer)] == [Open(true), Arrive(answer)];
  }

  lemma SynThenNext(c: Conn, syn: Segment, next: Segment)
    requires Inv(c) && TakesSyn(c, syn) && syn.payloadLength == 0 && !next.fin
    ensures var d := Step(c, Arrive(syn));
            && d.Some? && Possible(c, Arrive(syn)) && Possible(d.value, Arrive(next))
            && Step(d.value, Arrive(next)).Some? && Step(d.value, Arrive(next)).value.st == ESTABLISHED
  {
    SynIsTaken(c, syn);
    TransitionKeepsInv(Step(c, Arrive(syn)).value, RCV_ACK);
  }

  /** A passive opener is established by the peer's SYN for a known file and the segment that follows it. */
  lemma PassiveOpenerConnects(max: uint32, syn: Segment, next: Segment)
    requires syn.syn && !syn.ack && !syn.rst && syn.knownFile && syn.payloadLength == 0 && !next.fin
    ensures exists c :: Run(Fresh(max), [Open(false), Arrive(syn), Arrive(next)], c) && c.st == ESTABLISHED
  {
    OpenedListens(Fresh(max));
    var b := Step(Fresh(max), Open(false)).value;
    SynThenNext(b, syn, next);
    var c := Step(b, Arrive(syn)).value;
    var d := Step(c, Arrive(next)).value;
    ThreeSteps(Fresh(max), Open(false), b, Arrive(syn), c, Arrive(next), d);
  }

  lemma ThreeSteps(from: Conn, a: Action, b: Conn, a': Action, c: Conn, a'': Action, d: Conn)
    requires Possible(from, a) && Step(from, a) == Some(b)
    requires Possible(b, a') && Step(b, a') == Some(c)
    requires Possible(c, a'') && Step(c, a'') == Some(d)
    ensures Run(from, [a, a', a''], d)
  {
    assert Run(d, [], d);
    OneStepMore(c, a'', [], d);
    assert [a''] + [] == [a''];
    OneStepMore(b, a', [a''], d);
    assert [a'] + [a''] == [a', a''];
    OneStepMore(from, a, [a', a''], d);
    assert [a] + [a', a''] == [a, a', a''];
  }

  /** Which setup timers run, by how the connection was opened. */
  predicate TimedBy(c: Conn, passive: bool) {
    if c.st in {SYN_SENT, SYN_RCVD} then
      && (c.connEstab == Scheduled <==> passive)
      && (c.st == SYN_SENT ==> c.active && (passive ==> c.synRexmit == Scheduled))
      && (c.st == SYN_RCVD ==> (c.active <==> c.synRexmit == Scheduled) && (!passive ==> c.active))
    else c.st == LISTEN ==> passive && !c.active
  }

  lemma ArrivalKeepsTimed(c: Conn, g: Segment, passive: bool)
    requires Inv(c) && c.st !in {INIT, CLOSED} && TimedBy(c, passive) && Step(c, Arrive(g)).Some?
    ensures TimedBy(Step(c, Arrive(g)).value, passive)
  {
    if Setup(c.st) {
      HandlerKeepsTimed(c, g, passive);
    } else {
      NoWayUp(c, Arrive(g));
    }
  }

  lemma HandlerKeepsTimed(c: Conn, g: Segment, passive: bool)
    requires Inv(c) && c.st in {LISTEN, SYN_SENT, SYN_RCVD} && TimedBy(c, passive) && Step(c, Arrive(g)).Some?
    ensures TimedBy(Step(c, Arrive(g)).value, passive)
  {
    var h := Handle(c, Arrive(g));
    assert h.event in {IGNORE, RCV_SYN, RCV_SYN_ACK, RCV_RST, RCV_ACK, RCV_FIN};
  }

  lemma CallKeepsTimed(c: Conn, a: Action, passive: bool)
    requires Inv(c) && c.st != INIT && !a.Arrive? && Possible(c, a) && TimedBy(c, passive) && Step(c, a).Some?
    ensures TimedBy(Step(c, a).value, passive)
  {
    if !Setup(c.st) {
      NoWayUp(c, a);
    }
  }

  lemma NoWayUp(c: Conn, a: Action)
    requires Inv(c) && !Setup(c.st) && Possible(c, a) && Step(c, a).Some?
    ensures !Setup(Step(c, a).value.st)
  {
    if Step(c, a).value.st != c.st {
      StepEnters(c, a, Step(c, a).value.st);
    }
  }

  lemma {:induction false} RunKeepsTimed(from: Conn, acts: seq<Action>, to: Conn, passive: bool)
    requires Inv(from) && from.st != INIT && TimedBy(from, passive) && Run(from, acts, to)
    ensures TimedBy(to, passive)
    decreases |acts|
  {
    if acts != [] {
      var a, d := acts[0], Step(from, acts[0]).value;
      StepKeepsInv(from, a);
      StepEnters(from, a, INIT);
      match a {
        case Arrive(g) => ArrivalKeepsTimed(from, g, passive);
        case _ => CallKeepsTimed(from, a, passive);
      }
      RunKeepsTimed(d, acts[1..], to, passive);
    }
  }

  /** While a connection is set up, its establishment timer runs exactly if it was opened passively: an active open
      starts none, so that without an answer the attempt never ends by itself. The retransmission timer runs once a SYN
      of ours was sent from LISTEN or crossed the peer's. */
  lemma SetupIsTimedIff(max: uint32, acts: seq<Action>, c: Conn)
    requires Run(Fresh(max), acts, c) && c.st in {SYN_SENT, SYN_RCVD}
    ensures acts != [] && acts[0].Open?
    ensures c.connEstab == Scheduled <==> acts[0] == Open(false)
    ensures c.st == SYN_SENT ==> c.active && (acts[0] == Open(false) ==> c.synRexmit == Scheduled)
    ensures c.st == SYN_RCVD ==> (c.synRexmit == Scheduled <==> c.active)
  {
    StepKeepsInv(Fresh(max), acts[0]);
    RunKeepsTimed(Step(Fresh(max), acts[0]).value, acts[1..], c, acts[0] == Open(false));
  }

  /** Some state of the run, the last one included, is `s`. */
  ghost predicate Passes(from: Conn, acts: seq<Action>, s: State)
    decreases |acts|
  {
    from.st == s
    || (acts != [] && Step(from, acts[0]).Some? && Passes(Step(from, acts[0]).value, acts[1..], s))
  }

  lemma StepActivates(c: Conn, a: Action)
    requires Inv(c) && Possible(c, a) && Step(c, a).Some? && (c.st == INIT ==> !c.active)
    ensures var d := Step(c, a).value;
            d.st != INIT && (d.active <==> c.active || (d.st == SYN_SENT && c.st != SYN_SENT))
  {
    if c.st != SYN_SENT {
      StepEnters(c, a, SYN_SENT);
    }
    if c.st != INIT {
      StepEnters(c, a, INIT);
    }
    TransitionKeepsActive(Handle(c, a).conn, Handle(c, a).event);
  }

  lemma TransitionKeepsActive(c: Conn, e: Event)
    requires Transition(c, e).Some?
    ensures Transition(c, e).value.active == c.active
  {
  }

  lemma {:induction false} RunActivates(from: Conn, acts: seq<Action>, to: Conn)
    requires Inv(from) && Run(from, acts, to) && (from.st == INIT ==> !from.active)
             && (from.st == SYN_SENT ==> from.active)
    ensures to.active <==> from.active || Passes(from, acts, SYN_SENT)
    decreases |acts|
  {
    if acts != [] {
      StepKeepsInv(from, acts[0]);
      StepActivates(from, acts[0]);
      RunActivates(Step(from, acts[0]).value, acts[1..], to);
    }
  }

  /** An opener counts as active, for which the loss of the setup ends the connection, exactly if it has sent a SYN. */
  lemma ActiveIff(max: uint32, acts: seq<Action>, c: Conn)
    requires Run(Fresh(max), acts, c)
    ensures c.active <==> Passes(Fresh(max), acts, SYN_SENT)
  {
    RunActivates(Fresh(max), acts, c);
  }

  // ---------------------------------------------------------------- closing

  predicate IsFin(a: Action) {
    a.Arrive? && a.seg.fin
  }

  /** Our close with nothing left to send. */
  lemma CloseStartsClosing(max: uint32, acts: seq<Action>, c: Conn)
    requires Run(Fresh(max), acts, c) && c.st in {ESTABLISHED, CLOSE_WAIT}
    ensures Possible(c, Close(false)) && Step(c, Close(false)).Some?
    ensures Step(c, Close(false)).value.st == (if c.st == ESTABLISHED then FIN_WAIT_1 else LAST_ACK)
    ensures Step(c, Close(true)) == Some(c)
  {
    RunKeepsInv(Fresh(max), acts, c);
    InternalErrorIff(max, acts, c);
    StepEnters(c, Close(false), if c.st == ESTABLISHED then FIN_WAIT_1 else LAST_ACK);
  }

  lemma StepAfterEstablished(c: Conn, a: Action)
    requires Inv(c) && c.connEstab.Deleted? && !Setup(c.st) && Possible(c, a) && Step(c, a).Some?
    ensures var d := Step(c, a).value;
            d.connEstab.Deleted? && !Setup(d.st) && (d.st == CLOSED ==> a.Abort? || c.st in {LAST_ACK, TIME_WAIT})
  {
    StepKeepsInv(c, a);
    StepEnters(c, a, CLOSED);
  }

  lemma {:induction false} ClosedAfter(from: Conn, acts: seq<Action>, to: Conn)
    requires Inv(from) && from.connEstab.Deleted? && !Setup(from.st) && from.st != CLOSED
    requires Run(from, acts, to) && to.st == CLOSED
    ensures Abort in acts || Passes(from, acts, LAST_ACK) || Passes(from, acts, TIME_WAIT)
    decreases |acts|
  {
    var d := Step(from, acts[0]).value;
    StepKeepsInv(from, acts[0]);
    StepAfterEstablished(from, acts[0]);
    if d.st != CLOSED {
      ClosedAfter(d, acts[1..], to);
    }
  }

  /** A connection that has been established ends by an abort of the application, or through LAST_ACK or TIME_WAIT. */
  lemma EstablishedClosesInOrder(max: uint32, acts: seq<Action>, c: Conn, more: seq<Action>, d: Conn)
    requires Run(Fresh(max), acts, c) && c.st == ESTABLISHED && Run(c, more, d) && d.st == CLOSED
    ensures Abort in more || Passes(c, more, LAST_ACK) || Passes(c, more, TIME_WAIT)
  {
    RunKeepsInv(Fresh(max), acts, c);
    ClosedAfter(c, more, d);
  }

  predicate BothUp(s: State) {
    Setup(s) || s == ESTABLISHED
  }

  lemma WaysDown(c: Conn, a: Action)
    requires Inv(c) && Possible(c, a) && Step(c, a).Some?
    ensures var t := Step(c, a).value.st;
            && (BothUp(c.st) ==>
                  BothUp(t) || (t == FIN_WAIT_1 && a == Close(false)) || (t == CLOSE_WAIT && IsFin(a)) || t == CLOSED)
            && (c.st in {FIN_WAIT_1, FIN_WAIT_2} ==>
                  t in {FIN_WAIT_1, FIN_WAIT_2, CLOSED} || (t in {CLOSING, TIME_WAIT} && IsFin(a)))
            && (c.st in {CLOSE_WAIT, LAST_ACK} ==> t in {CLOSE_WAIT, LAST_ACK, CLOSED})
  {
    var t := Step(c, a).value.st;
    if t != c.st {
      StepEnters(c, a, t);
    }
  }

  lemma {:induction false} PassiveCloserStays(from: Conn, acts: seq<Action>, to: Conn)
    requires Inv(from) && from.st in {CLOSE_WAIT, LAST_ACK, CLOSED} && Run(from, acts, to)
    ensures to.st in {CLOSE_WAIT, LAST_ACK, CLOSED}
    decreases |acts|
  {
    if acts != [] {
      StepKeepsInv(from, acts[0]);
      WaysDown(from, acts[0]);
      PassiveCloserStays(Step(from, acts[0]).value, acts[1..], to);
    }
  }

  lemma {:induction false} FinFollows(from: Conn, acts: seq<Action>, to: Conn)
    requires Inv(from) && from.st in {FIN_WAIT_1, FIN_WAIT_2} && Run(from, acts, to) && to.st in {CLOSING, TIME_WAIT}
    ensures exists i :: 0 <= i < |acts| && IsFin(acts[i])
    decreases |acts|
  {
    var d := Step(from, acts[0]).value;
    StepKeepsInv(from, acts[0]);
    WaysDown(from, acts[0]);
    if d.st != CLOSED && !IsFin(acts[0]) {
      FinFollows(d, acts[1..], to);
      var i :| 0 <= i < |acts[1..]| && IsFin(acts[1..][i]);
      assert IsFin(acts[i + 1]);
    }
  }

  /** Our close comes at `i` and, where the states call for it, the peer's FIN behind it. */
  ghost predicate ClosesThenFin(acts: seq<Action>, i: nat, fin: bool) {
    i < |acts| && acts[i] == Close(false) && (fin ==> exists j :: i < j < |acts| && IsFin(acts[j]))
  }

  predicate NeedsFin(s: State) {
    s in {CLOSING, TIME_WAIT}
  }

  lemma LaterCloses(acts: seq<Action>, i: nat, fin: bool)
    requires acts != [] && ClosesThenFin(acts[1..], i, fin)
    ensures ClosesThenFin(acts, i + 1, fin)
  {
    if fin {
      var j :| i < j < |acts[1..]| && IsFin(acts[1..][j]);
      assert IsFin(acts[j + 1]);
    }
  }

  lemma {:induction false} ActiveCloserCloses(from: Conn, acts: seq<Action>, to: Conn)
    requires Inv(from) && BothUp(from.st) && Run(from, acts, to)
    requires to.st in {FIN_WAIT_1, FIN_WAIT_2, CLOSING, TIME_WAIT}
    ensures exists i: nat :: ClosesThenFin(acts, i, NeedsFin(to.st))
    decreases |acts|
  {
    var d, fin := Step(from, acts[0]).value, NeedsFin(to.st);
    StepKeepsInv(from, acts[0]);
    WaysDown(from, acts[0]);
    if BothUp(d.st) {
      ActiveCloserCloses(d, acts[1..], to);
      var i: nat :| ClosesThenFin(acts[1..], i, fin);
      LaterCloses(acts, i, fin);
    } else if d.st == FIN_WAIT_1 {
      if fin {
        FinFollows(d, acts[1..], to);
        var j :| 0 <= j < |acts[1..]| && IsFin(acts[1..][j]);
        assert IsFin(acts[j + 1]);
      }
      assert ClosesThenFin(acts, 0, fin);
    } else {
      PassiveCloserStays(d, acts[1..], to);
    }
  }

  lemma {:induction false} PassiveCloserHasFin(from: Conn, acts: seq<Action>, to: Conn)
    requires Inv(from) && BothUp(from.st) && Run(from, acts, to) && to.st in {CLOSE_WAIT, LAST_ACK}
    ensures exists i :: 0 <= i < |acts| && IsFin(acts[i])
    decreases |acts|
  {
    var d := Step(from, acts[0]).value;
    StepKeepsInv(from, acts[0]);
    WaysDown(from, acts[0]);
    if BothUp(d.st) {
      PassiveCloserHasFin(d, acts[1..], to);
      var i :| 0 <= i < |acts[1..]| && IsFin(acts[1..][i]);
      assert IsFin(acts[i + 1]);
    } else if d.st != CLOSE_WAIT {
      ActiveCloserStays(d, acts[1..], to);
    }
  }

  lemma {:induction false} ActiveCloserStays(from: Conn, acts: seq<Action>, to: Conn)
    requires Inv(from) && !BothUp(from.st) && from.st !in {CLOSE_WAIT, LAST_ACK} && Run(from, acts, to)
    ensures !BothUp(to.st) && to.st !in {CLOSE_WAIT, LAST_ACK}
    decreases |acts|
  {
    if acts != [] {
      var t := Step(from, acts[0]).value.st;
      StepKeepsInv(from, acts[0]);
      if t != from.st {
        StepEnters(from, acts[0], t);
      }
      ActiveCloserStays(Step(from, acts[0]).value, acts[1..], to);
    }
  }

  /** In every run: the active closer's states come only after the application's close, TIME_WAIT and CLOSING only after
      the peer's FIN behind it, and the passive closer's states only after the peer's FIN. */
  lemma ClosingTakesBoth(max: uint32, acts: seq<Action>, c: Conn)
    requires Run(Fresh(max), acts, c)
    ensures c.st in {FIN_WAIT_1, FIN_WAIT_2} ==> Close(false) in acts
    ensures c.st in {CLOSING, TIME_WAIT} ==>
              exists i, j :: 0 <= i < j < |acts| && acts[i] == Close(false) && IsFin(acts[j])
    ensures c.st in {CLOSE_WAIT, LAST_ACK} ==> exists i :: 0 <= i < |acts| && IsFin(acts[i])
  {
    if c.st in {FIN_WAIT_1, FIN_WAIT_2, CLOSING, TIME_WAIT} {
      ActiveCloserCloses(Fresh(max), acts, c);
      var i: nat :| ClosesThenFin(acts, i, NeedsFin(c.st));
    } else if c.st in {CLOSE_WAIT, LAST_ACK} {
      PassiveCloserHasFin(Fresh(max), acts, c);
    }
  }

  /** The connection object. */
  class RQConnection {
    const maxRcvBuffer: uint32
    var fsm: State
    var active: bool
    var synAcked: bool
    var connEstabTimer: Timer
    var synRexmitTimer: Timer
    var the2MSLTimer: Timer
    var finWait2Timer: Timer
    var toldClosed: nat
    var toldPeerClosed: nat

    function View(): Conn
      reads this
    {
      Conn(maxRcvBuffer, fsm, active, synAcked, connEstabTimer, synRexmitTimer, the2MSLTimer, finWait2Timer, toldClosed,
        toldPeerClosed)
    }

    constructor (maxRcvBuffer: uint32)
      ensures View() == Fresh(maxRcvBuffer) && Inv(View())
    {
      this.maxRcvBuffer := maxRcvBuffer;
      fsm, active, synAcked := INIT, false, false;
      connEstabTimer, synRexmitTimer, the2MSLTimer, finWait2Timer := Idle, Idle, Idle, Idle;
      toldClosed, toldPeerClosed := 0, 0;
    }

    /** The state that follows on an event, state by state. */
    method NextState(event: Event) returns (s: State)
      requires fsm != CLOSED
      ensures s == Goto(fsm, event, active)
    {
      s := fsm;
      match fsm {
        case INIT =>
          match event {
            case OPEN_PASSIVE => s := LISTEN;
            case OPEN_ACTIVE => s := SYN_SENT;
            case _ =>
          }
        case LISTEN =>
          match event {
            case OPEN_ACTIVE => s := SYN_SENT;
            case SEND => s := SYN_SENT;
            case CLOSE => s := CLOSED;
            case ABORT => s := CLOSED;
            case RCV_SYN => s := SYN_RCVD;
            case _ =>
          }
        case SYN_RCVD =>
          match event {
            case CLOSE => s := FIN_WAIT_1;
            case ABORT => s := CLOSED;
            case TIMEOUT_CONN_ESTAB => s := if active then CLOSED else LISTEN;
            case RCV_RST => s := if active then CLOSED else LISTEN;
            case RCV_ACK => s := ESTABLISHED;
            case RCV_FIN => s := CLOSE_WAIT;
            case RCV_UNEXP_SYN => s := CLOSED;
            case _ =>
          }
        case SYN_SENT =>
          match event {
            case CLOSE => s := CLOSED;
            case ABORT => s := CLOSED;
            case TIMEOUT_CONN_ESTAB => s := CLOSED;
            case RCV_RST => s := CLOSED;
            case RCV_SYN_ACK => s := ESTABLISHED;
            case RCV_SYN => s := SYN_RCVD;
            case _ =>
          }
        case ESTABLISHED =>
          match event {
            case CLOSE => s := FIN_WAIT_1;
            case ABORT => s := CLOSED;
            case RCV_FIN => s := CLOSE_WAIT;
            case RCV_RST => s := CLOSED;
            case RCV_UNEXP_SYN => s := CLOSED;
            case _ =>
          }
        case CLOSE_WAIT =>
          match event {
            case CLOSE => s := LAST_ACK;
            case ABORT => s := CLOSED;
            case RCV_RST => s := CLOSED;
            case RCV_UNEXP_SYN => s := CLOSED;
            case _ =>
          }
        case LAST_ACK =>
          match event {
            case ABORT => s := CLOSED;
            case RCV_ACK => s := CLOSED;
            case RCV_RST => s := CLOSED;
            case RCV_UNEXP_SYN => s := CLOSED;
            case _ =>
          }
        case FIN_WAIT_1 =>
          match event {
            case ABORT => s := CLOSED;
            case RCV_FIN => s := CLOSING;
            case RCV_ACK => s := FIN_WAIT_2;
            case RCV_FIN_ACK => s := TIME_WAIT;
            case RCV_RST => s := CLOSED;
            case RCV_UNEXP_SYN => s := CLOSED;
            case _ =>
          }
        case FIN_WAIT_2 =>
          match event {
            case ABORT => s := CLOSED;
            case RCV_FIN => s := TIME_WAIT;
            case TIMEOUT_FIN_WAIT_2 => s := CLOSED;
            case RCV_RST => s := CLOSED;
            case RCV_UNEXP_SYN => s := CLOSED;
            case _ =>
          }
        case CLOSING =>
          match event {
            case ABORT => s := CLOSED;
            case RCV_ACK => s := TIME_WAIT;
            case RCV_RST => s := CLOSED;
            case RCV_UNEXP_SYN => s := CLOSED;
            case _ =>
          }
        case TIME_WAIT =>
          match event {
            case ABORT => s := CLOSED;
            case TIMEOUT_2MSL => s := CLOSED;
            case RCV_RST => s := CLOSED;
            case RCV_UNEXP_SYN => s := CLOSED;
            case _ =>
          }
        case CLOSED =>
      }
    }

    /** performStateTransition, on the event of a handler. The result says whether the connection lives on. */
    method PerformStateTransition(event: Event) returns (alive: bool)
      requires fsm != CLOSED && Transition(View(), event).Some?
      modifies this
      ensures Transition(old(View()), event) == Some(View())
      ensures alive <==> fsm != CLOSED
    {
      if event == IGNORE {
        return true;
      }
      var oldState := fsm;
      fsm := NextState(event);
      GotoIsEdge(oldState, event, active);
      if oldState != fsm {
        StateEntered(oldState, event);
      }
      return fsm != CLOSED;
    }

    /** stateEntered */
    method StateEntered(oldState: State, event: Event)
      requires fsm !in {INIT, oldState} && Entered(View(), oldState, event).Some?
      modifies this
      ensures Entered(old(View()), oldState, event) == Some(View())
    {
      match fsm {
        case INIT =>
        case LISTEN =>
          assert connEstabTimer != Deleted && synRexmitTimer != Deleted;
          connEstabTimer, synRexmitTimer := Idle, Idle;
        case SYN_RCVD =>
        case SYN_SENT =>
        case ESTABLISHED =>
          assert connEstabTimer != Deleted && synRexmitTimer != Deleted;
          connEstabTimer, synRexmitTimer := Deleted, Deleted;
        case TIME_WAIT =>
          toldClosed := toldClosed + 1;
        case CLOSED =>
          if oldState != TIME_WAIT && event != ABORT {
            toldClosed := toldClosed + 1;
          }
          if the2MSLTimer != Deleted {
            the2MSLTimer := Idle;
          }
          CancelSetupTimers();
          if finWait2Timer != Deleted {
            finWait2Timer := Idle;
          }
        case CLOSE_WAIT =>
          toldPeerClosed := toldPeerClosed + 1;
          CancelSetupTimers();
        case _ =>
          CancelSetupTimers();
      }
    }

    method CancelSetupTimers()
      modifies this`connEstabTimer, this`synRexmitTimer
      ensures connEstabTimer == Cancelled(old(connEstabTimer)) && synRexmitTimer == Cancelled(old(synRexmitTimer))
    {
      if connEstabTimer != Deleted {
        connEstabTimer := Idle;
      }
      if synRexmitTimer != Deleted {
        synRexmitTimer := Idle;
      }
    }
  }
}

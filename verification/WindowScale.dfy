/** The advertised receive window and its 16-bit field (RFC 1323, section 2). */
module WindowScale {
  import opened SeqNum

  const RQ_MAX_WIN: nat := 65535
  const MAX_SHIFT: nat := 14

  /** x >> s */
  function Shifted(x: nat, s: nat): nat {
    if s == 0 then x else Shifted(x / 2, s - 1)
  }

  lemma {:induction false} ShiftedStep(x: nat, s: nat)
    ensures Shifted(x, s + 1) == Shifted(x, s) / 2
  {
    if s > 0 {
      ShiftedStep(x / 2, s - 1);
    }
  }

  lemma {:induction false} ShiftedMonotone(x: nat, y: nat, s: nat)
    requires x <= y
    ensures Shifted(x, s) <= Shifted(y, s)
  {
    if s > 0 {
      ShiftedMonotone(x / 2, y / 2, s - 1);
    }
  }

  function Pow2(s: nat): nat {
    if s == 0 then 1 else 2 * Pow2(s - 1)
  }

  lemma Doubled(a: nat, p: nat)
    ensures a * (2 * p) == 2 * (a * p)
  {
  }

  /** A shifted value times the shift is at most the value and less than one step below it. */
  lemma {:induction false} ShiftedIsQuotient(x: nat, s: nat)
    ensures Shifted(x, s) * Pow2(s) <= x < (Shifted(x, s) + 1) * Pow2(s)
  {
    if s > 0 {
      ShiftedIsQuotient(x / 2, s - 1);
      Doubled(Shifted(x / 2, s - 1), Pow2(s - 1));
      Doubled(Shifted(x / 2, s - 1) + 1, Pow2(s - 1));
    }
  }

  /** Some allowed shift makes the buffer size fit 16 bits exactly if it is below 2^30, and then the largest does. */
  lemma ShiftFitsIff(maxRcvBuffer: nat)
    ensures (exists s: nat :: s <= MAX_SHIFT && Shifted(maxRcvBuffer, s) <= RQ_MAX_WIN) <==> maxRcvBuffer < 0x4000_0000
  {
    ShiftedIsQuotient(maxRcvBuffer, MAX_SHIFT);
    assert Pow2(4) == 16;
    assert Pow2(8) == 256;
    assert Pow2(12) == 4096;
    assert Pow2(MAX_SHIFT) == 16384;
    if s: nat :| s <= MAX_SHIFT && Shifted(maxRcvBuffer, s) <= RQ_MAX_WIN {
      MoreShiftIsSmaller(maxRcvBuffer, s, MAX_SHIFT);
    }
  }

  lemma {:induction false} MoreShiftIsSmaller(x: nat, s: nat, t: nat)
    requires s <= t
    ensures Shifted(x, t) <= Shifted(x, s)
  {
    if s < t {
      MoreShiftIsSmaller(x, s, t - 1);
      ShiftedStep(x, t - 1);
    }
  }

  /** The least allowed shift, from `s` on, that makes `x` fit 16 bits; the largest allowed one if none does. */
  function LeastShift(x: nat, s: nat): (r: nat)
    requires s <= MAX_SHIFT
    ensures s <= r <= MAX_SHIFT && (Shifted(x, r) <= RQ_MAX_WIN || r == MAX_SHIFT)
    ensures forall t: nat :: s <= t < r ==> Shifted(x, t) > RQ_MAX_WIN
    decreases MAX_SHIFT - s
  {
    if Shifted(x, s) > RQ_MAX_WIN && s < MAX_SHIFT then LeastShift(x, s + 1) else s
  }

  /** The window updateRcvWnd settles on: the free space, unless that is a silly amount; never less than was advertised
      before; at most 16 bits without scaling. */
  function Window(maxRcvBuffer: nat, free: nat, mss: nat, advertised: int, scaling: bool): nat {
    var offered := if free < maxRcvBuffer / 4 && free < mss then 0 else free;
    var kept := Max(offered, advertised);
    if scaling then kept else Min(kept, RQ_MAX_WIN)
  }

  lemma LessFactor(a: nat, b: nat, p: nat)
    requires a * p < b * p
    ensures a < b
  {
  }

  /** A power of two from 2^16 to 2^29. */
  ghost predicate WholePower(x: nat) {
    exists s: nat :: s < MAX_SHIFT && x == 0x1_0000 * Pow2(s)
  }

  /** The shift that is looked for with one byte less fits the whole buffer, too, unless the buffer is too large for any
      shift or a power of two. */
  lemma {:induction false} ShiftOfOneLessFitsIff(x: nat)
    requires x > 0
    ensures Shifted(x, LeastShift(x - 1, 0)) <= RQ_MAX_WIN <==> x < 0x4000_0000 && !WholePower(x)
  {
    var r := LeastShift(x - 1, 0);
    if x < 0x4000_0000 {
      OneLessFits(x);
      ShiftedIsQuotient(x - 1, r);
      ShiftedIsQuotient(x, r);
      if Shifted(x, r) > RQ_MAX_WIN {
        ReachesPower(x, r);
      } else if s: nat :| s < MAX_SHIFT && x == 0x1_0000 * Pow2(s) {
        PowerIsMissed(x, s);
      }
    } else {
      ShiftFitsIff(x);
      assert r <= MAX_SHIFT;
    }
  }

  lemma OneLessFits(x: nat)
    requires 0 < x < 0x4000_0000
    ensures Shifted(x - 1, LeastShift(x - 1, 0)) <= RQ_MAX_WIN
  {
    ShiftFitsIff(x - 1);
    var s: nat :| s <= MAX_SHIFT && Shifted(x - 1, s) <= RQ_MAX_WIN;
    MoreShiftIsSmaller(x - 1, s, MAX_SHIFT);
  }

  lemma ReachesPower(x: nat, r: nat)
    requires 0 < x < 0x4000_0000 && r <= MAX_SHIFT && Shifted(x - 1, r) <= RQ_MAX_WIN < Shifted(x, r)
    ensures WholePower(x)
  {
    ShiftedIsQuotient(x - 1, r);
    ShiftedIsQuotient(x, r);
    var p := Pow2(r);
    assert x - 1 < 0x1_0000 * p by {
      SmallerFactor(Shifted(x - 1, r) + 1, 0x1_0000, p);
    }
    assert 0x1_0000 * p <= x by {
      SmallerFactor(0x1_0000, Shifted(x, r), p);
    }
    if r == MAX_SHIFT {
      PowersOfTwo();
    }
  }

  lemma SmallerFactor(a: nat, b: nat, p: nat)
    requires a <= b
    ensures a * p <= b * p
  {
  }

  lemma PowersOfTwo()
    ensures Pow2(MAX_SHIFT) == 16384
  {
    assert Pow2(4) == 16;
    assert Pow2(8) == 256;
    assert Pow2(12) == 4096;
  }

  lemma PowerIsMissed(x: nat, s: nat)
    requires s < MAX_SHIFT && x == 0x1_0000 * Pow2(s) && x > 0
    ensures Shifted(x, LeastShift(x - 1, 0)) > RQ_MAX_WIN
  {
    ShiftedIsQuotient(x - 1, s);
    LessFactor(Shifted(x - 1, s), 0x1_0000, Pow2(s));
    ShiftedIsQuotient(x, s);
    LessFactor(0x1_0000, Shifted(x, s) + 1, Pow2(s));
    assert LeastShift(x - 1, 0) <= s;
    MoreShiftIsSmaller(x, LeastShift(x - 1, 0), s);
  }

  // ---------------------------------------------------------------- whole runs

  /** What the parameters say: the buffer, and a shift of its own if `manualScale` is not negative; and who opens. */
  datatype Config = Config(maxRcvBuffer: uint32, mss: uint32, wsSupport: bool, manualScale: int, active: bool)

  /** The receive window of a connection. `nxt` and `adv` are the positions of rcv_nxt and rcv_adv, `first` that of the
      receive queue, which stands at -1 until a SYN sets it up. */
  datatype Edge = Edge(nxt: nat, first: int, adv: nat, wnd: nat, sndWs: bool, rcvWs: bool, wsEnabled: bool, scale: nat)

  /** configureStateVariables, unless it throws. */
  function Configured(c: Config): Edge {
    Edge(0, -1, c.maxRcvBuffer, c.maxRcvBuffer, false, false, false, 0)
  }

  predicate ConfigOk(c: Config) {
    c.wsSupport || 0 < c.maxRcvBuffer <= RQ_MAX_WIN
  }

  /** The shift that goes into our own SYN, looked for so that it fits `space`. */
  function ScaleFor(c: Config, space: uint32): nat {
    if c.manualScale > -1 then c.manualScale else LeastShift(space, 0)
  }

  /** The space that is looked at, in 32-bit arithmetic: the end of the buffer behind the queue, less rcv_nxt. */
  function SpaceSeen(c: Config, w: Edge): uint32 {
    Wrap(w.first + c.maxRcvBuffer - w.nxt)
  }

  datatype Action =
    | SynArrives(seqNo: uint32) | ScaleOption | SendSyn(opening: bool)
    | InOrder(bytes: nat) | Update(free: nat)

  function Next(c: Config, w: Edge, a: Action): Edge {
    match a
    case SynArrives(seqNo) => w.(nxt := seqNo + 1, first := seqNo + 1, adv := seqNo + 1 + w.wnd)
    case ScaleOption => w.(rcvWs := true, wsEnabled := c.wsSupport && w.sndWs)
    case SendSyn(opening) =>
      if c.wsSupport && (w.rcvWs || opening)
      then w.(scale := ScaleFor(c, SpaceSeen(c, w)), sndWs := true, wsEnabled := w.rcvWs)
      else w
    case InOrder(bytes) => w.(nxt := w.nxt + bytes)
    case Update(free) =>
      var win := Window(c.maxRcvBuffer, free, c.mss, w.adv - w.nxt, w.wsEnabled);
      w.(wnd := win, adv := if win > 0 && SeqGE(Wrap(w.nxt + win), Wrap(w.adv)) then w.nxt + win else w.adv)
  }

  /** Only an active opener sends a SYN of its own, before or after the peer's; a SYN is sent while no byte has come.
      Bytes arrive only behind a SYN and inside the advertised window, and no more than the buffer is free. */
  predicate Possible(c: Config, w: Edge, a: Action) {
    match a
    case SendSyn(opening) => w.first == w.nxt || (w.first == -1 && opening && c.active)
    case InOrder(bytes) => w.first >= 0 && w.nxt + bytes <= w.adv
    case Update(free) => free <= c.maxRcvBuffer
    case _ => true
  }

  /** The assertions at the end of updateRcvWnd: the shift is allowed, and the shifted window fits the 16-bit field. */
  predicate FieldFits(w: Edge) {
    if w.wsEnabled && w.scale != 0 then w.scale <= MAX_SHIFT && Shifted(w.wnd, w.scale) <= RQ_MAX_WIN
    else w.wnd <= RQ_MAX_WIN
  }

  predicate Fails(c: Config, w: Edge, a: Action) {
    a.Update? && !FieldFits(Next(c, w, a))
  }

  /** Runs in which no assertion has failed so far. */
  ghost predicate Run(c: Config, from: Edge, acts: seq<Action>, to: Edge)
    decreases |acts|
  {
    if acts == [] then from == to
    else Possible(c, from, acts[0]) && !Fails(c, from, acts[0]) && Run(c, Next(c, from, acts[0]), acts[1..], to)
  }

  /** The shift was looked for with the whole buffer, or, by an active opener before any SYN came, with a byte less. */
  predicate ScaleKnown(c: Config, scale: nat) {
    || scale == ScaleFor(c, c.maxRcvBuffer)
    || (c.active && scale == ScaleFor(c, Wrap(c.maxRcvBuffer - 1)))
  }

  /** What is advertised lies between rcv_nxt and a full buffer beyond it; scaling needs both options and our own
      shift. */
  predicate Inv(c: Config, w: Edge) {
    && w.nxt <= w.adv <= w.nxt + c.maxRcvBuffer && w.wnd <= c.maxRcvBuffer
    && (w.first < 0 ==> w.first == -1 && w.nxt == 0)
    && (w.wsEnabled ==> c.wsSupport && w.sndWs && w.rcvWs)
    && (w.sndWs ==> ScaleKnown(c, w.scale))
  }

  lemma StepKeepsInv(c: Config, w: Edge, a: Action)
    requires Inv(c, w) && Possible(c, w, a)
    ensures Inv(c, Next(c, w, a))
  {
    if a.SendSyn? {
      WrapSmall(c.maxRcvBuffer);
    }
  }

  lemma {:induction false} RunKeepsInv(c: Config, from: Edge, acts: seq<Action>, to: Edge)
    requires Inv(c, from) && Run(c, from, acts, to)
    ensures Inv(c, to)
    decreases |acts|
  {
    if acts != [] {
      StepKeepsInv(c, from, acts[0]);
      RunKeepsInv(c, Next(c, from, acts[0]), acts[1..], to);
    }
  }

  /** The shift is allowed and a full buffer fits the field with it. */
  predicate FitsWith(c: Config, scale: nat) {
    scale <= MAX_SHIFT && Shifted(c.maxRcvBuffer, scale) <= RQ_MAX_WIN
  }

  /** The buffer fits the field: a shift set by hand must be allowed and large enough; one that is looked for is found
      below 2^30, and by an active opener only if the buffer is no power of two from 2^16 up. */
  ghost predicate BufferFits(c: Config) {
    if c.manualScale > -1 then FitsWith(c, c.manualScale)
    else c.maxRcvBuffer < 0x4000_0000 && (c.active ==> !WholePower(c.maxRcvBuffer))
  }

  lemma PassiveScaleFitsIff(c: Config)
    ensures FitsWith(c, ScaleFor(c, c.maxRcvBuffer)) <==>
              if c.manualScale > -1 then FitsWith(c, c.manualScale) else c.maxRcvBuffer < 0x4000_0000
  {
    ShiftFitsIff(c.maxRcvBuffer);
    if s: nat :| s <= MAX_SHIFT && Shifted(c.maxRcvBuffer, s) <= RQ_MAX_WIN {
      MoreShiftIsSmaller(c.maxRcvBuffer, s, MAX_SHIFT);
    }
  }

  lemma ActiveScaleFitsIff(c: Config)
    requires c.active
    ensures FitsWith(c, ScaleFor(c, Wrap(c.maxRcvBuffer - 1))) <==> BufferFits(c)
  {
    if c.maxRcvBuffer > 0 {
      WrapSmall(c.maxRcvBuffer - 1);
      ShiftOfOneLessFitsIff(c.maxRcvBuffer);
    } else {
      NothingToShift(c);
    }
  }

  lemma NothingToShift(c: Config)
    requires c.maxRcvBuffer == 0
    ensures (c.manualScale > -1 || FitsWith(c, LeastShift(Wrap(c.maxRcvBuffer - 1), 0))) && !WholePower(0)
  {
    var s := LeastShift(Wrap(c.maxRcvBuffer - 1), 0);
    MoreShiftIsSmaller(0, 0, s);
    forall t: nat | t < MAX_SHIFT
      ensures 0 != 0x1_0000 * Pow2(t)
    {
      PowIsPositive(t);
    }
  }

  lemma {:induction false} PowIsPositive(s: nat)
    ensures Pow2(s) > 0
  {
    if s > 0 {
      PowIsPositive(s - 1);
    }
  }

  /** Every shift that our SYN can carry fits exactly if the buffer does. */
  lemma KnownScaleFits(c: Config, scale: nat)
    requires BufferFits(c) && ScaleKnown(c, scale)
    ensures FitsWith(c, scale)
  {
    PassiveScaleFitsIff(c);
    if c.active {
      ActiveScaleFitsIff(c);
    }
  }

  /** Under the invariant an update fails at most where a full buffer does not fit the scaled field. */
  lemma UpdateIsSafe(c: Config, w: Edge, free: nat)
    requires ConfigOk(c) && Inv(c, w) && free <= c.maxRcvBuffer && (c.wsSupport ==> BufferFits(c))
    ensures !Fails(c, w, Update(free))
  {
    var v := Next(c, w, Update(free));
    if w.wsEnabled {
      KnownScaleFits(c, w.scale);
      ShiftedMonotone(v.wnd, c.maxRcvBuffer, v.scale);
    }
  }

  /** A peer that scales opens the connection: its SYN with the option is read, and our answer goes out with our own. */
  lemma PassiveStart(c: Config, opening: seq<Action>) returns (w: Edge)
    requires ConfigOk(c) && c.wsSupport
    requires opening == [SynArrives(0), ScaleOption, Update(c.maxRcvBuffer), SendSyn(false)]
    ensures Run(c, Configured(c), opening, w)
    ensures w.wsEnabled && w.scale == ScaleFor(c, c.maxRcvBuffer) && w.nxt <= w.adv <= w.nxt + c.maxRcvBuffer
  {
    var w1 := Next(c, Configured(c), SynArrives(0));
    var w2 := Next(c, w1, ScaleOption);
    var w3 := Next(c, w2, Update(c.maxRcvBuffer));
    w := Next(c, w3, SendSyn(false));
    StepKeepsInv(c, w2, Update(c.maxRcvBuffer));
    WrapSmall(c.maxRcvBuffer);
    assert Run(c, w, [], w);
    assert Run(c, w3, opening[3..], w);
    assert Run(c, w2, opening[2..], w);
    assert Run(c, w1, opening[1..], w);
  }

  /** We open the connection, and the answer of a peer that scales is read. */
  lemma ActiveStart(c: Config, opening: seq<Action>) returns (w: Edge)
    requires ConfigOk(c) && c.wsSupport && c.active
    requires opening == [Update(c.maxRcvBuffer), SendSyn(true), SynArrives(0), ScaleOption]
    ensures Run(c, Configured(c), opening, w)
    ensures w.wsEnabled && w.scale == ScaleFor(c, Wrap(c.maxRcvBuffer - 1)) && w.nxt <= w.adv <= w.nxt + c.maxRcvBuffer
  {
    var w1 := Next(c, Configured(c), Update(c.maxRcvBuffer));
    var w2 := Next(c, w1, SendSyn(true));
    var w3 := Next(c, w2, SynArrives(0));
    w := Next(c, w3, ScaleOption);
    assert Run(c, w, [], w);
    assert Run(c, w3, opening[3..], w);
    assert Run(c, w2, opening[2..], w);
    assert Run(c, w1, opening[1..], w);
  }

  /** The window of an empty queue is the whole buffer once scaling is on; it is what the field must hold. */
  lemma FullWindowFailsIff(c: Config, w: Edge)
    requires w.wsEnabled && w.nxt <= w.adv <= w.nxt + c.maxRcvBuffer
    ensures Fails(c, w, Update(c.maxRcvBuffer)) <==> !FitsWith(c, w.scale)
  {
    assert Next(c, w, Update(c.maxRcvBuffer)).wnd == c.maxRcvBuffer;
  }

  /** Some run of the configuration is followed by an update that fails. */
  ghost predicate CanFail(c: Config) {
    exists acts, w, a :: Run(c, Configured(c), acts, w) && Possible(c, w, a) && Fails(c, w, a)
  }

  /** No run of a configuration ever overflows the window field or the shift exactly if it does not offer scaling or the
      buffer fits. Otherwise the first update after the handshake fails. */
  lemma {:induction false} FieldHoldsIff(c: Config)
    requires ConfigOk(c)
    ensures CanFail(c) <==> c.wsSupport && !BufferFits(c)
  {
    if !c.wsSupport || BufferFits(c) {
      forall acts, w, a | Run(c, Configured(c), acts, w) && Possible(c, w, a)
        ensures !Fails(c, w, a)
      {
        RunKeepsInv(c, Configured(c), acts, w);
        if a.Update? {
          UpdateIsSafe(c, w, a.free);
        }
      }
    } else {
      FirstUpdateFails(c);
    }
  }

  lemma FirstUpdateFails(c: Config)
    requires ConfigOk(c) && c.wsSupport && !BufferFits(c)
    ensures CanFail(c)
  {
    var a := Update(c.maxRcvBuffer);
    if c.active {
      var opening := [Update(c.maxRcvBuffer), SendSyn(true), SynArrives(0), ScaleOption];
      var w := ActiveStart(c, opening);
      ActiveScaleFitsIff(c);
      FullWindowFailsIff(c, w);
      assert Run(c, Configured(c), opening, w) && Possible(c, w, a) && Fails(c, w, a);
    } else {
      var opening := [SynArrives(0), ScaleOption, Update(c.maxRcvBuffer), SendSyn(false)];
      var w := PassiveStart(c, opening);
      PassiveScaleFitsIff(c);
      FullWindowFailsIff(c, w);
      assert Run(c, Configured(c), opening, w) && Possible(c, w, a) && Fails(c, w, a);
    }
  }

  /** Some run of the configuration is followed by an update that moves the advertised edge to the left. */
  ghost predicate CanShrink(c: Config) {
    exists acts, w, free: nat ::
      Run(c, Configured(c), acts, w) && free <= c.maxRcvBuffer && Next(c, w, Update(free)).adv < w.adv
  }

  /** What is advertised never moves left, exactly up to half a turn and one unscaled window; beyond that the circular
      comparison takes the capped window for an advance. */
  lemma {:induction false} EdgeMovesLeftIff(c: Config)
    requires ConfigOk(c)
    ensures CanShrink(c) <==> c.maxRcvBuffer > HALF + RQ_MAX_WIN
  {
    if c.maxRcvBuffer > HALF + RQ_MAX_WIN {
      var w, none: seq<Action> := Configured(c), [];
      WrapGap(RQ_MAX_WIN, c.maxRcvBuffer);
      WrapArithmetic(0, RQ_MAX_WIN - c.maxRcvBuffer);
      assert Run(c, w, none, w) && Next(c, w, Update(c.maxRcvBuffer)).adv < w.adv;
    } else {
      forall acts, w, free: nat | Run(c, Configured(c), acts, w) && free <= c.maxRcvBuffer
        ensures Next(c, w, Update(free)).adv >= w.adv
      {
        RunKeepsInv(c, Configured(c), acts, w);
        UpdateKeepsEdge(c, w, free);
      }
    }
  }

  lemma UpdateKeepsEdge(c: Config, w: Edge, free: nat)
    requires Inv(c, w) && free <= c.maxRcvBuffer <= HALF + RQ_MAX_WIN
    ensures var v := Next(c, w, Update(free));
            v.adv >= w.adv && (c.maxRcvBuffer < HALF ==> v.adv == Max(w.adv, w.nxt + v.wnd))
  {
    var win := Window(c.maxRcvBuffer, free, c.mss, w.adv - w.nxt, w.wsEnabled);
    var d := w.adv - w.nxt - win;
    WrapGap(w.nxt + win, w.adv);
    if d > 0 {
      WrapArithmetic(0, -d);
      WrapSmall(0);
    } else {
      WrapSmall(-d);
    }
  }

  /** What the field without scaling can say at most. */
  function Capped(space: nat, scaling: bool): nat {
    if scaling then space else Min(space, RQ_MAX_WIN)
  }

  /** The announced window `wnd` is never less than what is still advertised, up to the cap; it grows exactly if more is
      free, enough for a segment or a quarter of the buffer, and then it is all that is free. */
  predicate Announces(c: Config, advertised: nat, free: nat, scaling: bool, wnd: nat) {
    var kept, all := Capped(advertised, scaling), Capped(free, scaling);
    && wnd >= kept
    && (wnd > kept <==> all > kept && (free >= c.mss || free >= c.maxRcvBuffer / 4))
    && (wnd > kept ==> wnd == all)
  }

  lemma UpdateAnnounces(c: Config, w: Edge, free: nat)
    requires Inv(c, w) && free <= c.maxRcvBuffer
    ensures var v := Next(c, w, Update(free));
            && Inv(c, v)
            && Announces(c, w.adv - w.nxt, free, w.wsEnabled, v.wnd)
            && (c.maxRcvBuffer <= HALF + RQ_MAX_WIN ==> w.adv <= v.adv)
            && (c.maxRcvBuffer < HALF ==> v.adv == Max(w.adv, w.nxt + v.wnd))
  {
    StepKeepsInv(c, w, Update(free));
    if c.maxRcvBuffer <= HALF + RQ_MAX_WIN {
      UpdateKeepsEdge(c, w, free);
    }
  }

  /** The peer shifts the field back: over any run it never believes in more than the window, and misses less than one
      step of the scale. */
  lemma {:induction false} PeerSeesTheWindow(c: Config, acts: seq<Action>, w: Edge)
    requires ConfigOk(c) && Run(c, Configured(c), acts, w) && w.wsEnabled
    ensures var seen := Shifted(w.wnd, w.scale) * Pow2(w.scale);
            seen <= w.wnd <= c.maxRcvBuffer && w.wnd - seen < Pow2(w.scale) && ScaleKnown(c, w.scale)
  {
    RunKeepsInv(c, Configured(c), acts, w);
    ShiftedIsQuotient(w.wnd, w.scale);
    Distribute(Shifted(w.wnd, w.scale), Pow2(w.scale));
  }

  lemma Distribute(a: nat, p: nat)
    ensures (a + 1) * p == a * p + p
  {
  }

  /** A SYN of ours carries the option: we open the connection, or the peer's option came before. */
  predicate Offers(acts: seq<Action>, heard: bool)
    decreases |acts|
  {
    acts != [] &&
    ((acts[0].SendSyn? && (acts[0].opening || heard)) || Offers(acts[1..], heard || acts[0].ScaleOption?))
  }

  lemma {:induction false} OptionsOverRun(c: Config, from: Edge, acts: seq<Action>, to: Edge)
    requires Run(c, from, acts, to) && (from.wsEnabled <==> c.wsSupport && from.sndWs && from.rcvWs)
    ensures to.rcvWs <==> from.rcvWs || ScaleOption in acts
    ensures to.sndWs <==> from.sndWs || (c.wsSupport && Offers(acts, from.rcvWs))
    ensures to.wsEnabled <==> c.wsSupport && to.sndWs && to.rcvWs
    decreases |acts|
  {
    if acts != [] {
      OptionsOverRun(c, Next(c, from, acts[0]), acts[1..], to);
    }
  }

  /** In every run the window is scaled exactly if it is supported, the peer's option has come, and ours has gone out on
      a SYN that opens the connection or answers that option. */
  lemma ScalesIff(c: Config, acts: seq<Action>, w: Edge)
    requires Run(c, Configured(c), acts, w)
    ensures w.wsEnabled <==> c.wsSupport && ScaleOption in acts && Offers(acts, false)
  {
    OptionsOverRun(c, Configured(c), acts, w);
  }

  // ---------------------------------------------------------------- the connection

  /** The numbers behind a SYN are those of the positions. */
  lemma SynNumbers(seqNo: uint32, wnd: uint32)
    ensures Add(seqNo, 1) == Wrap(seqNo + 1) && Add(Add(seqNo, 1), wnd) == Wrap(seqNo + 1 + wnd)
  {
    WrapSmall(seqNo);
    WrapArithmetic(seqNo, 1);
    WrapArithmetic(seqNo + 1, wnd);
  }

  lemma SpaceNumbers(first: int, nxt: nat, maxRcvBuffer: uint32)
    ensures Sub(Add(Wrap(first), maxRcvBuffer), Wrap(nxt)) == Wrap(first + maxRcvBuffer - nxt)
  {
    WrapArithmetic(first, maxRcvBuffer);
    WrapGap(first + maxRcvBuffer, nxt);
  }

  class RQConnection {
    const maxRcvBuffer: uint32
    const snd_mss: uint32
    const ws_support: bool
    const ws_manual_scale: int
    const active: bool
    var rcv_nxt: uint32
    /** The first number of the receive queue. */
    var queueFirst: uint32
    var rcv_adv: uint32
    var rcv_wnd: uint32
    var snd_ws: bool
    var rcv_ws: bool
    var ws_enabled: bool
    var rcv_wnd_scale: nat
    /** The positions of rcv_nxt, the queue's first number and rcv_adv. */
    ghost var nxt: nat
    ghost var first: int
    ghost var adv: nat

    ghost function Parameters(): Config {
      Config(maxRcvBuffer, snd_mss, ws_support, ws_manual_scale, active)
    }

    ghost function View(): Edge
      reads this
    {
      Edge(nxt, first, adv, rcv_wnd, snd_ws, rcv_ws, ws_enabled, rcv_wnd_scale)
    }

    ghost predicate Valid()
      reads this
    {
      && rcv_nxt == Wrap(nxt) && queueFirst == Wrap(first) && rcv_adv == Wrap(adv)
      && Inv(Parameters(), View())
    }

    constructor (advertisedWindow: uint32, mss: uint32, wsSupport: bool, manualScale: int, active: bool)
      ensures Valid() && Parameters() == Config(advertisedWindow, mss, wsSupport, manualScale, active)
      ensures View() == Configured(Parameters())
    {
      snd_mss, ws_support, ws_manual_scale, this.active := mss, wsSupport, manualScale, active;
      snd_ws, rcv_ws, ws_enabled, rcv_wnd_scale := false, false, false, 0;
      rcv_nxt, nxt := 0, 0;
      queueFirst, first := LIMIT - 1, -1;
      rcv_wnd := advertisedWindow;
      rcv_adv, adv := advertisedWindow, advertisedWindow;
      maxRcvBuffer := advertisedWindow;
    }

    /** configureStateVariables throws if the window does not fit the field and there is no scaling. */
    static method ConfigureStateVariables(advertisedWindow: uint32, mss: uint32, wsSupport: bool, manualScale: int,
                                          active: bool)
      returns (conn: RQConnection?)
      ensures var c := Config(advertisedWindow, mss, wsSupport, manualScale, active);
              if !ConfigOk(c) then conn == null
              else conn != null && fresh(conn) && conn.Valid() && conn.Parameters() == c && conn.View() == Configured(c)
      ensures conn == null <==>
                var c := Config(advertisedWindow, mss, wsSupport, manualScale, active);
                !wsSupport && (advertisedWindow == 0 || !FieldFits(Configured(c)))
    {
      if !wsSupport && (advertisedWindow > RQ_MAX_WIN || advertisedWindow <= 0) {
        return null;
      }
      conn := new RQConnection(advertisedWindow, mss, wsSupport, manualScale, active);
    }

    /** A SYN sets rcv_nxt and the receive queue behind it and promises rcv_wnd bytes. */
    method ReceiveSyn(seqNo: uint32)
      requires Valid()
      modifies this`rcv_nxt, this`queueFirst, this`rcv_adv, this`nxt, this`first, this`adv
      ensures Valid() && View() == Next(Parameters(), old(View()), SynArrives(seqNo))
      ensures rcv_nxt == queueFirst == Add(seqNo, 1) && adv - nxt == rcv_wnd && Sub(rcv_adv, rcv_nxt) == rcv_wnd
    {
      SynNumbers(seqNo, rcv_wnd);
      rcv_nxt, nxt := Add(seqNo, 1), seqNo + 1;
      rcv_adv, adv := Add(rcv_nxt, rcv_wnd), nxt + rcv_wnd;
      queueFirst, first := rcv_nxt, nxt;
    }

    method ProcessWSOption()
      requires Valid()
      modifies this`rcv_ws, this`ws_enabled
      ensures Valid() && View() == Next(Parameters(), old(View()), ScaleOption)
    {
      rcv_ws := true;
      ws_enabled := ws_support && snd_ws && rcv_ws;
    }

    /** The window scale part of writeHeaderOptions on our SYN. `opening` says that we open the connection. */
    method WriteHeaderOptions(opening: bool)
      requires Valid() && Possible(Parameters(), View(), SendSyn(opening))
      modifies this`rcv_wnd_scale, this`snd_ws, this`ws_enabled
      ensures Valid() && View() == Next(Parameters(), old(View()), SendSyn(opening))
    {
      StepKeepsInv(Parameters(), View(), SendSyn(opening));
      if ws_support && (rcv_ws || opening) {
        if ws_manual_scale > -1 {
          rcv_wnd_scale := ws_manual_scale;
        } else {
          SearchScale(SpaceSeen(Parameters(), View()));
        }
        snd_ws := true;
        ws_enabled := ws_support && snd_ws && rcv_ws;
      }
    }

    /** The shift loop. */
    method SearchScale(ghost space: uint32)
      requires rcv_nxt == Wrap(nxt) && queueFirst == Wrap(first) && space == Wrap(first + maxRcvBuffer - nxt)
      modifies this`rcv_wnd_scale
      ensures rcv_wnd_scale == LeastShift(space, 0)
    {
      SpaceNumbers(first, nxt, maxRcvBuffer);
      var scaled_rcv_wnd: nat := Sub(Add(queueFirst, maxRcvBuffer), rcv_nxt);
      rcv_wnd_scale := 0;
      while scaled_rcv_wnd > RQ_MAX_WIN && rcv_wnd_scale < MAX_SHIFT
        invariant rcv_wnd_scale <= MAX_SHIFT && scaled_rcv_wnd == Shifted(space, rcv_wnd_scale)
        invariant LeastShift(space, rcv_wnd_scale) == LeastShift(space, 0)
      {
        ShiftedStep(space, rcv_wnd_scale);
        scaled_rcv_wnd := scaled_rcv_wnd / 2;
        rcv_wnd_scale := rcv_wnd_scale + 1;
      }
    }

    /** Bytes arrive in order from a peer that keeps to the advertised window. */
    method Advance(bytes: uint32)
      requires Valid() && Possible(Parameters(), View(), InOrder(bytes))
      modifies this`rcv_nxt, this`nxt
      ensures Valid() && View() == Next(Parameters(), old(View()), InOrder(bytes))
    {
      WrapArithmetic(nxt, bytes);
      rcv_nxt := Add(rcv_nxt, bytes);
      nxt := nxt + bytes;
    }

    /** updateRcvWnd. `ok` says that both of its assertions hold. */
    method UpdateRcvWnd(freeRcvBuffer: uint32) returns (field: nat, ok: bool)
      requires Valid() && freeRcvBuffer <= maxRcvBuffer
      modifies this`rcv_wnd, this`rcv_adv, this`adv
      ensures Valid() && View() == Next(Parameters(), old(View()), Update(freeRcvBuffer))
      ensures maxRcvBuffer <= HALF + RQ_MAX_WIN ==> old(adv) <= adv
      ensures maxRcvBuffer < HALF ==> adv == Max(old(adv), nxt + rcv_wnd)
      ensures Announces(Parameters(), old(adv) - nxt, freeRcvBuffer, ws_enabled, rcv_wnd)
      ensures ok <==> !Fails(Parameters(), old(View()), Update(freeRcvBuffer))
      ensures ok ==> field == if ws_enabled then Shifted(rcv_wnd, rcv_wnd_scale) else rcv_wnd
    {
      UpdateAnnounces(Parameters(), View(), freeRcvBuffer);
      var win := ChooseWindow(freeRcvBuffer);
      MoveEdge(win);
      field, ok := ScaledField();
    }

    /** rcv_adv follows the window, and rcv_wnd takes it over. */
    method MoveEdge(win: uint32)
      requires rcv_nxt == Wrap(nxt) && rcv_adv == Wrap(adv)
      modifies this`rcv_wnd, this`rcv_adv, this`adv
      ensures rcv_wnd == win && rcv_adv == Wrap(adv)
      ensures adv == if win > 0 && SeqGE(Wrap(nxt + win), Wrap(old(adv))) then nxt + win else old(adv)
    {
      WrapArithmetic(nxt, win);
      if win > 0 && SeqGE(Add(rcv_nxt, win), rcv_adv) {
        rcv_adv, adv := Add(rcv_nxt, win), nxt + win;
      }
      rcv_wnd := win;
    }

    /** The scaled window, under the assertions at the end. */
    method ScaledField() returns (field: nat, ok: bool)
      ensures ok <==> FieldFits(View())
      ensures ok ==> field == if ws_enabled then Shifted(rcv_wnd, rcv_wnd_scale) else rcv_wnd
    {
      field := rcv_wnd;
      if ws_enabled && rcv_wnd_scale != 0 {
        if rcv_wnd_scale > MAX_SHIFT {
          return field, false;
        }
        field := Shift(field, rcv_wnd_scale);
      }
      ok := field <= RQ_MAX_WIN;
    }

    method ChooseWindow(freeRcvBuffer: uint32) returns (win: uint32)
      requires Valid() && freeRcvBuffer <= maxRcvBuffer
      ensures win == Window(maxRcvBuffer, freeRcvBuffer, snd_mss, adv - nxt, ws_enabled) <= maxRcvBuffer
    {
      WrapArithmetic(nxt, adv - nxt);
      win := freeRcvBuffer;
      if win < maxRcvBuffer / 4 && win < snd_mss {
        win := 0;
      }
      if win < Sub(rcv_adv, rcv_nxt) {
        win := Sub(rcv_adv, rcv_nxt);
      }
      if win > RQ_MAX_WIN && !ws_enabled {
        win := RQ_MAX_WIN;
      }
    }

    static method Shift(x: nat, s: nat) returns (y: nat)
      ensures y == Shifted(x, s)
    {
      y := x;
      for i := 0 to s
        invariant Shifted(y, s - i) == Shifted(x, s)
      {
        y := y / 2;
      }
    }
  }
}

/** The sending half of a connection in ESTABLISHED: fresh symbols, the initial window and cumulative pulls. */
module Sender {
  import opened SeqNum

  /** `esi` counts the symbols sent, `requestId` the pulls answered; `symbols` is encodingSymbolsList. */
  datatype Snd = Snd(window: nat, esi: nat, requestId: nat, symbols: seq<nat>)

  function Fresh(window: nat): Snd {
    Snd(window, 0, 0, [])
  }

  /** from, from+1, ..., from+count-1 */
  function Upto(from: nat, count: nat): (s: seq<nat>)
    ensures |s| == count
    ensures forall i :: 0 <= i < count ==> s[i] == from + i
  {
    seq(count, i => from + i)
  }

  /** Encodes and sends `count` more symbols. */
  function SendMore(s: Snd, count: nat): Snd {
    s.(esi := s.esi + count, symbols := s.symbols + Upto(s.esi + 1, count))
  }

  function StartWindow(s: Snd): Snd {
    if s.esi == 0 && s.window > 0 then SendMore(s, s.window).(requestId := 0) else s
  }

  /** How many symbols pull `r` is worth. */
  function Gap(s: Snd, r: nat): (g: nat) {
    var g := SignedGap(r, s.requestId);
    if g >= 1 then g else 0
  }

  function PullArrives(s: Snd, r: nat): Snd {
    SendMore(s, Gap(s, r)).(requestId := s.requestId + Gap(s, r))
  }

  /** Every symbol encoded so far, each once and in order, has been sent. */
  predicate Inv(s: Snd) {
    s.esi == |s.symbols| && s.symbols == Upto(1, s.esi)
  }

  class RQSender {
    const window: nat
    var esi: nat
    var requestId: nat
    var symbols: seq<nat>

    function View(): Snd
      reads this
    {
      Snd(window, esi, requestId, symbols)
    }

    constructor (window: nat)
      ensures View() == Fresh(window)
      ensures Inv(View())
    {
      this.window := window;
      esi, requestId, symbols := 0, 0, [];
    }

    /** getNewSymbolToSend */
    method GetNewSymbolToSend()
      modifies this
      ensures View() == old(View()).(symbols := old(symbols) + [old(esi) + 1])
    {
      var ini := esi + 1;
      symbols := symbols + [ini];
    }

    /** sendInitialWindow. Each segment is a (payload symbol, symbol sequence number) pair. */
    method SendInitialWindow() returns (sent: seq<(nat, nat)>)
      requires Inv(View())
      modifies this
      ensures Inv(View()) && View() == StartWindow(old(View()))
      ensures |sent| == esi - old(esi)
      ensures forall i :: 0 <= i < |sent| ==> sent[i] == (old(esi) + 1 + i, old(esi) + 1 + i)
    {
      sent := [];
      if esi == 0 {
        for i := 0 to window
          invariant esi == i && Inv(View())
          invariant requestId == if i == 0 then old(requestId) else 0
          invariant |sent| == i && forall j :: 0 <= j < i ==> sent[j] == (1 + j, 1 + j)
        {
          GetNewSymbolToSend();
          var payload := symbols[esi];
          esi := esi + 1;
          requestId := 0;
          sent := sent + [(payload, esi)];
        }
      }
    }

    /** The request part of processSegment1stThru8th. */
    method ProcessRequest(requestSequenceNumber: nat) returns (sent: seq<(nat, nat)>)
      requires Inv(View())
      modifies this
      ensures Inv(View()) && View() == PullArrives(old(View()), requestSequenceNumber)
      ensures |sent| == esi - old(esi)
      ensures forall i :: 0 <= i < |sent| ==> sent[i] == (old(esi) + 1 + i, old(esi) + 1 + i)
    {
      var requestsGap := SignedGap(requestSequenceNumber, requestId);
      sent := [];
      if requestsGap >= 1 {
        for i := 0 to requestsGap
          invariant Inv(View())
          invariant esi == old(esi) + i && requestId == old(requestId) + i
          invariant |sent| == i && forall j :: 0 <= j < i ==> sent[j] == (old(esi) + 1 + j, old(esi) + 1 + j)
        {
          GetNewSymbolToSend();
          esi := |symbols| - 1;
          var payload := symbols[esi];
          esi := esi + 1;
          requestId := requestId + 1;
          sent := sent + [(payload, esi)];
        }
      }
    }
  }

  function Deliver(s: Snd, pulls: seq<nat>): Snd {
    if pulls == [] then s
    else PullArrives(Deliver(s, pulls[..|pulls| - 1]), pulls[|pulls| - 1])
  }

  /** One pull raises the number of answered pulls to its own number and extends the symbols in step. */
  lemma PullAnswersUpTo(s: Snd, r: nat)
    requires Inv(s) && r < HALF && s.requestId < HALF
    ensures var t := PullArrives(s, r);
            && Inv(t) && t.window == s.window
            && t.requestId == Max(s.requestId, r)
            && t.esi - s.esi == t.requestId - s.requestId
  {
    assert Upto(1, s.esi) + Upto(s.esi + 1, Gap(s, r)) == Upto(1, s.esi + Gap(s, r));
  }

  lemma StartWindowSends(window: nat)
    ensures var s := StartWindow(Fresh(window));
            s.window == window && s.requestId == 0 && s.esi == window && Inv(s)
  {
    assert [] + Upto(1, window) == Upto(1, window);
  }

  /** Whatever pulls arrive after the initial window, lost, repeated or in any order, and from however many receivers:
      the sender has answered up to the largest pull number, and the symbols sent are 1, 2, ..., each once. */
  lemma {:induction false} CumulativePulls(window: nat, pulls: seq<nat>)
    requires forall i :: 0 <= i < |pulls| ==> pulls[i] < HALF
    ensures var s := Deliver(StartWindow(Fresh(window)), pulls);
            && s.window == window
            && s.requestId == Largest(pulls)
            && s.esi == window + Largest(pulls)
            && s.symbols == Upto(1, window + Largest(pulls))
  {
    StartWindowSends(window);
    if pulls != [] {
      var front, r := pulls[..|pulls| - 1], pulls[|pulls| - 1];
      CumulativePulls(window, front);
      PullAnswersUpTo(Deliver(StartWindow(Fresh(window)), front), r);
    }
  }
}

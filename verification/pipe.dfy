/**
 * The sending half of a session as a state machine over values: two buffers that swap roles,
 * at most one write outstanding. `accepted` and `wire` are history: every byte taken from the
 * application, and every byte the socket has transmitted.
 */
module SendPipe {
  import opened Bytes
  import opened PlainProtocol

  datatype PipeState = PipeState(
    bufs: seq<seq<Byte>>,
    acc: int,            // which buffer accumulates; the other one is being written or idle
    sending: bool,
    outstanding: bool,   // an asynchronous write has been started and not completed
    open: bool,
    closedNotices: nat,  // how often the handler was told that the session closed
    wire: seq<Byte>,
    accepted: seq<Byte>)
  {
    function Acc(): seq<Byte>
      requires WellFormed()
    {
      bufs[acc]
    }

    function Other(): seq<Byte>
      requires WellFormed()
    {
      bufs[1 - acc]
    }

    predicate WellFormed() {
      && |bufs| == 2 && 0 <= acc < 2
      && (outstanding ==> sending)
    }
  }

  type Pipe = p: PipeState | p.WellFormed() witness PipeState([[], []], 0, false, false, true, 0, [], [])

  const FRESH: Pipe := PipeState([[], []], 0, false, false, true, 0, [], [])

  function StartSend(p: Pipe): Pipe
    requires !p.sending
  {
    if p.Acc() == [] then p else p.(acc := 1 - p.acc, sending := true, outstanding := true)
  }

  /** Bytes go to the accumulation buffer; a write starts unless one is running. */
  function Accept(p: Pipe, bytes: seq<Byte>): Pipe {
    var p' := p.(bufs := p.bufs[p.acc := p.Acc() + bytes], accepted := p.accepted + bytes);
    if p.sending then p' else StartSend(p')
  }

  predicate Sendable(p: Pipe, f: Frame) {
    p.open && 0 < |f.payload| < MAX_SEND
  }

  function SendFrame(w: nat, p: Pipe, f: Frame): Pipe {
    if Sendable(p, f) then Accept(p, Encoded(w, f)) else p
  }

  /** A write completes after transmitting `n` bytes; what is left stays in its buffer. */
  function Complete(p: Pipe, n: nat): Pipe
    requires p.outstanding && n <= |p.Other()|
  {
    StartSend(p.(
      bufs := p.bufs[1 - p.acc := p.Other()[n..]],
      wire := p.wire + p.Other()[..n],
      sending := false, outstanding := false))
  }

  function Closing(p: Pipe): Pipe {
    if p.open then p.(open := false, closedNotices := p.closedNotices + 1) else p
  }

  function Fail(p: Pipe): Pipe
    requires p.outstanding
  {
    Closing(p.(outstanding := false))
  }

  /** Bytes leave in the order they were accepted, none lost and none still hidden when nothing is sent. */
  predicate InOrder(p: Pipe) {
    if p.sending then p.wire + p.Other() + p.Acc() == p.accepted
    else p.Acc() == [] && p.Other() == [] && p.wire == p.accepted
  }

  lemma WireIsPrefix(p: Pipe)
    requires InOrder(p)
    ensures p.wire <= p.accepted
  {
    if p.sending {
      assert p.accepted == p.wire + (p.Other() + p.Acc());
    }
  }

  lemma AcceptKeepsOrder(p: Pipe, bytes: seq<Byte>)
    requires InOrder(p)
    ensures InOrder(Accept(p, bytes))
    ensures Accept(p, bytes).accepted == p.accepted + bytes
  {
    assert p.wire + p.Other() + (p.Acc() + bytes) == p.wire + p.Other() + p.Acc() + bytes;
  }

  /**
   * A completion keeps the byte order exactly when it is complete, or when the bytes it leaves behind
   * happen to commute with the bytes accumulated meanwhile, which now overtake them.
   */
  lemma CompleteKeepsOrderIff(p: Pipe, n: nat)
    requires InOrder(p) && p.outstanding && n <= |p.Other()|
    ensures var left := p.Other()[n..];
            InOrder(Complete(p, n)) <==> left == [] || (p.Acc() != [] && left + p.Acc() == p.Acc() + left)
  {
    var done, left := p.Other()[..n], p.Other()[n..];
    var sent := p.wire + done;
    assert p.Other() == done + left;
    assert p.accepted == sent + (left + p.Acc());
    if p.Acc() != [] {
      assert Complete(p, n).Other() == p.Acc() && Complete(p, n).Acc() == left;
      assert sent + p.Acc() + left == sent + (p.Acc() + left);
      SuffixesAgree(sent, left + p.Acc(), p.Acc() + left);
    } else if left == [] {
      assert p.accepted == sent;
    }
  }

  lemma SuffixesAgree(prefix: seq<Byte>, a: seq<Byte>, b: seq<Byte>)
    ensures prefix + a == prefix + b <==> a == b
  {
    if prefix + a == prefix + b {
      assert (prefix + a)[|prefix|..] == a;
      assert (prefix + b)[|prefix|..] == b;
    }
  }

  /** Bytes accepted during a write that is cut short at `n` go out before the rest of that write. */
  lemma CutShortIsOvertaken(a: seq<Byte>, b: seq<Byte>, n: nat)
    requires a != [] && b != [] && n <= |a|
    ensures var p := Complete(Accept(Accept(FRESH, a), b), n);
      && p.outstanding && p.Other() == b && p.Acc() == a[n..]
      && Complete(p, |b|).wire == a[..n] + b
  {
    assert [] + a == a && [] + b == b;
    var p := Accept(FRESH, a);
    assert p.bufs == [a, []] && p.acc == 1;
    assert Accept(p, b).bufs == [a, b] && Accept(p, b).acc == 1;
    assert b[..|b|] == b && [] + a[..n] == a[..n];
  }

  // ---- when a write is running --------------------------------------------------------------------

  /** A write is started only for bytes. */
  predicate WritesBytes(p: Pipe) {
    p.outstanding ==> p.Other() != []
  }

  /** Without failures, a write runs exactly while something accepted is not on the wire yet. */
  predicate Busy(p: Pipe) {
    && p.sending == p.outstanding
    && (p.sending <==> |p.wire| < |p.accepted|)
  }

  lemma AcceptStartsForBytes(p: Pipe, bytes: seq<Byte>)
    requires WritesBytes(p)
    ensures WritesBytes(Accept(p, bytes))
    ensures InOrder(p) && Busy(p) ==> Busy(Accept(p, bytes))
    ensures !p.sending && p.Acc() == [] ==> (Accept(p, bytes).outstanding <==> bytes != [])
  {
    assert [] + bytes == bytes;
  }

  lemma CompleteStartsForBytes(p: Pipe, n: nat)
    requires WritesBytes(p) && p.outstanding && n <= |p.Other()|
    ensures WritesBytes(Complete(p, n)) && (Complete(p, n).outstanding <==> p.Acc() != [])
    ensures InOrder(p) && Busy(p) && n == |p.Other()| ==> Busy(Complete(p, n))
  {
  }

  /** Whatever the completions do, no byte is lost or made up. */
  predicate Conserved(p: Pipe) {
    multiset(p.accepted) == multiset(p.wire) + multiset(p.Acc()) + multiset(p.Other())
  }

  lemma AcceptConserves(p: Pipe, bytes: seq<Byte>)
    requires Conserved(p)
    ensures Conserved(Accept(p, bytes))
  {
  }

  lemma CompleteConserves(p: Pipe, n: nat)
    requires Conserved(p) && p.outstanding && n <= |p.Other()|
    ensures Conserved(Complete(p, n))
  {
    assert p.Other() == p.Other()[..n] + p.Other()[n..];
  }
}

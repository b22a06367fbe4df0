/** A sender's pipe, the wire, and a receiver: frames sent are frames delivered, however the bytes are cut. */
module Link {
  import opened Bytes
  import opened PlainProtocol
  import opened SendPipe

  datatype Link = Link(
    pipe: Pipe,
    sent: seq<Frame>,        // frames `send` accepted
    arrived: nat,            // how much of the wire the receiver has got
    inbox: seq<Byte>,        // received, not yet a frame
    delivered: seq<Frame>)   // given to `on_receive`

  datatype Step =
    | Send(f: Frame)
    | WriteDone              // the outstanding write transmitted its whole buffer
    | WriteCutShort(n: nat)  // it transmitted only (up to) n bytes
    | WriteFailed
    | ReadFailed             // the read that is always pending fails: the usual sign of a lost connection
    | CloseByApp
    | Arrive(n: nat)         // the receiver gets a chunk of (up to) n bytes

  const START := Link(FRESH, [], 0, [], [])

  function Min(a: nat, b: nat): nat {
    if a < b then a else b
  }

  function Next(w: nat, l: Link, s: Step): Link
    requires l.arrived <= |l.pipe.wire|
  {
    match s
    case Send(f) =>
      l.(pipe := SendFrame(w, l.pipe, f), sent := if Sendable(l.pipe, f) then l.sent + [f] else l.sent)
    case WriteDone =>
      if l.pipe.outstanding then l.(pipe := Complete(l.pipe, |l.pipe.Other()|)) else l
    case WriteCutShort(n) =>
      if l.pipe.outstanding then l.(pipe := Complete(l.pipe, Min(n, |l.pipe.Other()|))) else l
    case WriteFailed =>
      if l.pipe.outstanding then l.(pipe := Fail(l.pipe)) else l
    case ReadFailed =>
      l.(pipe := Closing(l.pipe))
    case CloseByApp =>
      l.(pipe := l.pipe.(open := false))
    case Arrive(n) =>
      var upto := Min(l.arrived + n, |l.pipe.wire|);
      var (fs, rest) := Frames(w, l.inbox + l.pipe.wire[l.arrived..upto]);
      l.(arrived := upto, inbox := rest, delivered := l.delivered + fs)
  }

  function Run(w: nat, steps: seq<Step>): (l: Link)
    ensures l.arrived <= |l.pipe.wire|
  {
    if steps == [] then START else
    Next(w, Run(w, steps[..|steps| - 1]), steps[|steps| - 1])
  }

  /** A topic is a value of the topic type, `w` bytes wide. */
  predicate Typed(w: nat, steps: seq<Step>) {
    forall s | s in steps :: s.Send? ==> s.f.topic < Pow256(w)
  }

  predicate WritesComplete(steps: seq<Step>) {
    forall s | s in steps :: !s.WriteCutShort?
  }

  /** The receiver has delivered exactly what the arrived bytes spell, whatever happened on the wire. */
  predicate ReceiverInStep(w: nat, l: Link) {
    && l.arrived <= |l.pipe.wire|
    && Frames(w, l.pipe.wire[..l.arrived]) == (l.delivered, l.inbox)
  }

  predicate SenderInStep(w: nat, l: Link) {
    && InOrder(l.pipe)
    && l.pipe.accepted == EncodedAll(w, l.sent)
    && forall f | f in l.sent :: Representable(w, f)
  }

  lemma RunSnoc(w: nat, steps: seq<Step>, s: Step)
    ensures Run(w, steps + [s]) == Next(w, Run(w, steps), s)
  {
    assert (steps + [s])[..|steps|] == steps;
  }

  lemma OnlyArriveDelivers(w: nat, l: Link, s: Step)
    requires l.arrived <= |l.pipe.wire| && !s.Arrive?
    ensures var l' := Next(w, l, s);
      l'.arrived == l.arrived && l'.inbox == l.inbox && l'.delivered == l.delivered && l.pipe.wire <= l'.pipe.wire
  {
    hide Frames;
  }

  lemma ArriveStep(w: nat, l: Link, n: nat)
    requires ReceiverInStep(w, l)
    ensures ReceiverInStep(w, Next(w, l, Arrive(n)))
  {
    hide Frames;
    var upto := Min(l.arrived + n, |l.pipe.wire|);
    var first, second := l.pipe.wire[..l.arrived], l.pipe.wire[l.arrived..upto];
    var l' := Next(w, l, Arrive(n));
    assert l.pipe.wire[..upto] == first + second;
    assert Frames(w, first + second) == (l'.delivered, l'.inbox) by {
      FramesOfChunks(w, first, second);
    }
  }

  lemma ReceiverStep(w: nat, l: Link, s: Step)
    requires ReceiverInStep(w, l)
    ensures ReceiverInStep(w, Next(w, l, s))
  {
    hide Frames;
    if s.Arrive? {
      ArriveStep(w, l, s.n);
    } else {
      OnlyArriveDelivers(w, l, s);
      assert Next(w, l, s).pipe.wire[..l.arrived] == l.pipe.wire[..l.arrived];
    }
  }

  lemma SenderStep(w: nat, l: Link, s: Step)
    requires SenderInStep(w, l) && l.arrived <= |l.pipe.wire|
    requires !s.WriteCutShort? && (s.Send? ==> s.f.topic < Pow256(w))
    ensures SenderInStep(w, Next(w, l, s))
  {
    hide Encoded;
    if s.Send? && Sendable(l.pipe, s.f) {
      AcceptKeepsOrder(l.pipe, Encoded(w, s.f));
      EncodedAllConcat(w, l.sent, [s.f]);
      assert EncodedAll(w, [s.f]) == Encoded(w, s.f);
    } else if s.WriteDone? && l.pipe.outstanding {
      CompleteKeepsOrderIff(l.pipe, |l.pipe.Other()|);
    }
  }

  lemma {:induction false} RunInStep(w: nat, steps: seq<Step>)
    requires Typed(w, steps)
    ensures ReceiverInStep(w, Run(w, steps))
    ensures WritesComplete(steps) ==> SenderInStep(w, Run(w, steps))
  {
    if steps == [] {
      assert Decode(w, []) == NOTHING;
    } else {
      var before, s := steps[..|steps| - 1], steps[|steps| - 1];
      RunInStep(w, before);
      ReceiverStep(w, Run(w, before), s);
      if WritesComplete(steps) {
        SenderStep(w, Run(w, before), s);
      }
    }
  }

  /**
   * End to end: with complete writes, the frames delivered are always a prefix of the frames sent,
   * and are all of them, with nothing left over, once every accepted byte has arrived.
   */
  lemma FramesSentAreFramesDelivered(w: nat, steps: seq<Step>)
    requires Typed(w, steps) && WritesComplete(steps)
    ensures var l := Run(w, steps);
      && l.delivered <= l.sent
      && (l.arrived == |l.pipe.accepted| ==> l.delivered == l.sent && l.inbox == [])
  {
    var l := Run(w, steps);
    RunInStep(w, steps);
    WireIsPrefix(l.pipe);
    assert l.pipe.wire[..l.arrived] == l.pipe.accepted[..l.arrived];
    assert l.arrived == |l.pipe.accepted| ==> l.pipe.accepted[..l.arrived] == l.pipe.accepted;
    FramesOfStream(w, l.sent, l.arrived);
  }

  // ---- when a write is running --------------------------------------------------------------------

  /** What an open session takes: one byte at least, and less than a mebibyte. */
  lemma TakesIff(w: nat, l: Link, f: Frame)
    requires l.arrived <= |l.pipe.wire|
    ensures Next(w, l, Send(f)).sent == (if l.pipe.open && 1 <= |f.payload| <= 1048575 then l.sent + [f] else l.sent)
    ensures !(l.pipe.open && 1 <= |f.payload| <= 1048575) ==> Next(w, l, Send(f)) == l
  {
    hide Frames;
  }

  predicate NoWriteFails(steps: seq<Step>) {
    forall s | s in steps :: !s.WriteFailed?
  }

  ghost predicate RunsAsNeeded(p: Pipe) {
    WritesBytes(p) && InOrder(p) && Busy(p)
  }

  lemma StepWritesBytes(w: nat, l: Link, s: Step)
    requires l.arrived <= |l.pipe.wire| && WritesBytes(l.pipe)
    ensures WritesBytes(Next(w, l, s).pipe)
    ensures !s.WriteCutShort? && !s.WriteFailed? && RunsAsNeeded(l.pipe) ==> RunsAsNeeded(Next(w, l, s).pipe)
  {
    hide Frames;
    match s
    case Send(f) =>
      AcceptStartsForBytes(l.pipe, Encoded(w, f));
      if InOrder(l.pipe) {
        AcceptKeepsOrder(l.pipe, Encoded(w, f));
      }
      hide Accept, Encoded;
    case WriteDone =>
      if l.pipe.outstanding {
        CompleteStartsForBytes(l.pipe, |l.pipe.Other()|);
        if InOrder(l.pipe) {
          CompleteKeepsOrderIff(l.pipe, |l.pipe.Other()|);
        }
        hide Complete;
      }
    case WriteCutShort(n) =>
      if l.pipe.outstanding {
        CompleteStartsForBytes(l.pipe, Min(n, |l.pipe.Other()|));
        hide Complete;
      }
    case _ =>
  }

  /**
   * On every run the outstanding write has bytes to write. With complete writes and none failed, one is
   * outstanding exactly while some accepted byte is not on the wire, so a session with nothing to send is idle.
   */
  lemma {:induction false} WritesAsNeeded(w: nat, steps: seq<Step>)
    ensures WritesBytes(Run(w, steps).pipe)
    ensures WritesComplete(steps) && NoWriteFails(steps) ==> RunsAsNeeded(Run(w, steps).pipe)
    decreases |steps|
  {
    if steps != [] {
      var before, s := steps[..|steps| - 1], steps[|steps| - 1];
      WritesAsNeeded(w, before);
      StepWritesBytes(w, Run(w, before), s);
      assert s in steps;
    }
  }

  /** A write that failed is never followed by another: the session goes on counting as sending. */
  predicate WriteFailedIn(w: nat, steps: seq<Step>)
    decreases |steps|
  {
    steps != [] &&
      var before, s := steps[..|steps| - 1], steps[|steps| - 1];
      WriteFailedIn(w, before) || (s.WriteFailed? && Run(w, before).pipe.outstanding)
  }

  lemma {:induction false} SendingIff(w: nat, steps: seq<Step>)
    ensures var p := Run(w, steps).pipe;
      && (p.sending <==> p.outstanding || WriteFailedIn(w, steps))
      && (WriteFailedIn(w, steps) ==> !p.outstanding && !p.open)
    decreases |steps|
  {
    if steps != [] {
      SendingIff(w, steps[..|steps| - 1]);
      hide Frames;
    }
  }

  ghost predicate Accounted(p: Pipe) {
    Conserved(p) && p.closedNotices <= if p.open then 0 else 1
  }

  lemma StepAccounts(w: nat, l: Link, s: Step)
    requires l.arrived <= |l.pipe.wire| && Accounted(l.pipe)
    ensures Accounted(Next(w, l, s).pipe)
  {
    hide Frames;
    match s
    case Send(f) =>
      AcceptConserves(l.pipe, Encoded(w, f));
    case WriteDone =>
      if l.pipe.outstanding { CompleteConserves(l.pipe, |l.pipe.Other()|); }
    case WriteCutShort(n) =>
      if l.pipe.outstanding { CompleteConserves(l.pipe, Min(n, |l.pipe.Other()|)); }
    case _ =>
  }

  /**
   * At every point of every run, complete writes or not: bytes are conserved, and at most one close notice is
   * given.
   */
  lemma {:induction false} RunAccounts(w: nat, steps: seq<Step>)
    ensures Accounted(Run(w, steps).pipe)
  {
    if steps != [] {
      RunAccounts(w, steps[..|steps| - 1]);
      StepAccounts(w, Run(w, steps[..|steps| - 1]), steps[|steps| - 1]);
    }
  }

  /** A failed read, or the failure of an outstanding write, finds the session open. */
  predicate NoticedAt(w: nat, steps: seq<Step>, i: nat)
    requires i < |steps|
  {
    var p := Run(w, steps[..i]).pipe;
    p.open && (steps[i].ReadFailed? || (steps[i].WriteFailed? && p.outstanding))
  }

  ghost predicate Noticed(w: nat, steps: seq<Step>) {
    exists i :: 0 <= i < |steps| && NoticedAt(w, steps, i)
  }

  lemma NoticedSnoc(w: nat, steps: seq<Step>, s: Step)
    ensures Noticed(w, steps + [s]) <==> Noticed(w, steps) || NoticedAt(w, steps + [s], |steps|)
  {
    var more := steps + [s];
    forall i | 0 <= i < |steps| ensures NoticedAt(w, more, i) <==> NoticedAt(w, steps, i) {
      assert more[..i] == steps[..i];
    }
    if Noticed(w, steps) {
      var i :| 0 <= i < |steps| && NoticedAt(w, steps, i);
      assert NoticedAt(w, more, i);
    }
  }

  /** On every run the handler is told of the close once if a failure found the session open, and else never. */
  lemma {:induction false} NoticeIff(w: nat, steps: seq<Step>)
    ensures Run(w, steps).pipe.closedNotices == if Noticed(w, steps) then 1 else 0
    ensures Noticed(w, steps) ==> !Run(w, steps).pipe.open
  {
    if steps != [] {
      var before, s := steps[..|steps| - 1], steps[|steps| - 1];
      assert steps == before + [s];
      NoticeIff(w, before);
      NoticedSnoc(w, before, s);
      assert steps[..|before|] == before;
      NoticeStep(w, Run(w, before), s);
    }
  }

  lemma NoticeStep(w: nat, l: Link, s: Step)
    requires l.arrived <= |l.pipe.wire|
    ensures var p, q := l.pipe, Next(w, l, s).pipe;
      var noticed := p.open && (s.ReadFailed? || (s.WriteFailed? && p.outstanding));
      && q.closedNotices == p.closedNotices + (if noticed then 1 else 0)
      && q.open == (p.open && !noticed && !s.CloseByApp?)
  {
    hide Frames;
  }

  /** Once the application closes an open session, the handler is never told that it closed. */
  lemma {:induction false} CloseByAppIsSilent(w: nat, before: seq<Step>, after: seq<Step>)
    requires Run(w, before).pipe.open
    ensures Run(w, before + [CloseByApp] + after).pipe.closedNotices == 0
    ensures !Run(w, before + [CloseByApp] + after).pipe.open
  {
    hide Run, Next;
    if after == [] {
      RunSnoc(w, before, CloseByApp);
      RunAccounts(w, before);
      NoticeStep(w, Run(w, before), CloseByApp);
      assert before + [CloseByApp] + [] == before + [CloseByApp];
    } else {
      var rest, s := after[..|after| - 1], after[|after| - 1];
      CloseByAppIsSilent(w, before, rest);
      RunSnoc(w, before + [CloseByApp] + rest, s);
      NoticeStep(w, Run(w, before + [CloseByApp] + rest), s);
      assert before + [CloseByApp] + after == before + [CloseByApp] + rest + [s];
    }
  }

  const F := Frame(1, [7])
  const G := Frame(2, [9])

  lemma WireAfterCutShort()
    ensures Run(1, [Send(F), Send(G), WriteCutShort(5), WriteDone]).pipe.wire == Encoded(1, F)[..5] + Encoded(1, G)
    ensures Run(1, [Send(F), Send(G), WriteCutShort(5), WriteDone]).arrived == 0
  {
    hide Encoded;
    var p1 := Accept(FRESH, Encoded(1, F));
    var p2 := Accept(p1, Encoded(1, G));
    CutShortIsOvertaken(Encoded(1, F), Encoded(1, G), 5);
    var s1, s2 := [Send(F)], [Send(F), Send(G)];
    var s3 := s2 + [WriteCutShort(5)];
    assert [] + [Send(F)] == s1 && s1 + [Send(G)] == s2;
    RunSnoc(1, [], Send(F));
    RunSnoc(1, s1, Send(G));
    assert Run(1, s2).pipe == p2;
    RunSnoc(1, s2, WriteCutShort(5));
    assert Run(1, s3).pipe == Complete(p2, 5);
    RunSnoc(1, s3, WriteDone);
    assert s3 + [WriteDone] == [Send(F), Send(G), WriteCutShort(5), WriteDone];
  }

  /** Two one-byte frames, the first write cut one byte short: the receiver gets a payload nobody sent. */
  lemma CutShortWriteCorrupts()
    ensures Run(1, [Send(F), Send(G), WriteCutShort(5), WriteDone, Arrive(6)]).delivered == [Frame(1, [2])]
  {
    hide Frames, Representable, Encoded;
    WireAfterCutShort();
    var steps := [Send(F), Send(G), WriteCutShort(5), WriteDone];
    RunSnoc(1, steps, Arrive(6));
    assert steps + [Arrive(6)] == [Send(F), Send(G), WriteCutShort(5), WriteDone, Arrive(6)];
    RunInStep(1, steps + [Arrive(6)]);
    var wire := Run(1, steps).pipe.wire;
    EncodedSmall(1, 7);
    EncodedSmall(2, 9);
    EncodedSmall(1, 2);
    assert wire[..6] == Encoded(1, Frame(1, [2]));
    assert [Frame(1, [2])][1..] == [] && EncodedAll(1, []) == [];
    assert EncodedAll(1, [Frame(1, [2])]) == Encoded(1, Frame(1, [2])) == wire[..6];
    FramesOfStream(1, [Frame(1, [2])], 6);
  }

  lemma EncodedSmall(topic: Byte, b: Byte)
    ensures Encoded(1, Frame(topic, [b])) == [topic, 1, 0, 0, 0, b]
    ensures Representable(1, Frame(topic, [b]))
  {
    assert Pow256(1) == 256 * Pow256(0);
    assert LittleEndian(topic, 1) == [topic];
    assert LittleEndian(1, 4) == [1] + LittleEndian(0, 3);
    assert LittleEndian(0, 3) == [0] + LittleEndian(0, 2);
    assert LittleEndian(0, 2) == [0] + LittleEndian(0, 1);
  }
}

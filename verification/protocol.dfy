/**
 * The plain frame protocol: topic | 4-byte length | payload, all integers least significant byte first.
 * `w` is sizeof(Topic) throughout; a topic is a number below 256^w.
 */
module PlainProtocol {
  import opened Bytes

  const LENGTH_FIELD: nat := 4
  const MAX_SEND: nat := 1024 * 1024
  const LENGTH_LIMIT: nat := 0x1_0000_0000

  datatype Frame = Frame(topic: nat, payload: seq<Byte>)

  /** What `decode` returns; `consumed == 0` says that no full frame is there yet. */
  datatype Decoded = Decoded(consumed: nat, payload: seq<Byte>, topic: nat)

  const NOTHING := Decoded(0, [], 0)

  /** The bytes one frame puts on the wire. */
  function Encoded(w: nat, f: Frame): (bs: seq<Byte>)
    ensures |bs| == w + LENGTH_FIELD + |f.payload|
  {
    LittleEndian(f.topic, w) + LittleEndian(|f.payload|, LENGTH_FIELD) + f.payload
  }

  function EncodedAll(w: nat, fs: seq<Frame>): seq<Byte> {
    if fs == [] then [] else Encoded(w, fs[0]) + EncodedAll(w, fs[1..])
  }

  function PayloadOf(src: seq<Byte>): seq<Byte> {
    if |src| < LENGTH_FIELD then [] else
    var len := Value(src[..LENGTH_FIELD]);
    if |src| >= len + LENGTH_FIELD then src[LENGTH_FIELD..LENGTH_FIELD + len] else []
  }

  function Decode(w: nat, src: seq<Byte>): (d: Decoded)
    ensures d.consumed <= |src|
    ensures d.consumed > 0 ==> d.consumed == w + LENGTH_FIELD + |d.payload| && d.payload != []
  {
    if |src| <= w + LENGTH_FIELD then NOTHING else
    var payload := PayloadOf(src[w..]);
    if payload == [] then NOTHING
    else Decoded(w + LENGTH_FIELD + |payload|, payload, Value(src[..w]))
  }

  /** A frame the four length bytes can describe and `decode` can recognise. */
  predicate Representable(w: nat, f: Frame) {
    0 < |f.payload| < LENGTH_LIMIT && f.topic < Pow256(w)
  }

  lemma LengthFieldLimit()
    ensures Pow256(LENGTH_FIELD) == LENGTH_LIMIT
  {
    assert Pow256(4) == 256 * Pow256(3);
    assert Pow256(3) == 256 * Pow256(2);
    assert Pow256(2) == 256 * Pow256(1);
    assert Pow256(1) == 256 * Pow256(0);
  }

  /** The header fields of a frame followed by anything read back, reduced to their field widths. */
  lemma HeaderOfFrame(w: nat, f: Frame, suffix: seq<Byte>)
    ensures var bs := Encoded(w, f) + suffix;
      && Value(bs[..w]) == f.topic % Pow256(w)
      && Value(bs[w..][..LENGTH_FIELD]) == |f.payload| % LENGTH_LIMIT
      && bs[w..][LENGTH_FIELD..] == f.payload + suffix
  {
    hide Value, LittleEndian, Pow256;
    var bs := Encoded(w, f) + suffix;
    assert bs[..w] == LittleEndian(f.topic, w);
    assert bs[w..][..LENGTH_FIELD] == LittleEndian(|f.payload|, LENGTH_FIELD);
    ValueOfLittleEndian(f.topic, w);
    ValueOfLittleEndian(|f.payload|, LENGTH_FIELD);
    LengthFieldLimit();
  }

  /**
   * Frames delimit themselves: whatever follows, `decode` returns exactly the frame that was encoded,
   * and it does so exactly for nonempty payloads that the length field can describe.
   */
  lemma DecodeOfEncoded(w: nat, f: Frame, suffix: seq<Byte>)
    requires f.topic < Pow256(w)
    ensures Decode(w, Encoded(w, f) + suffix) == Decoded(|Encoded(w, f)|, f.payload, f.topic)
        <==> 0 < |f.payload| < LENGTH_LIMIT
  {
    hide Value, LittleEndian, Pow256;
    var bs := Encoded(w, f) + suffix;
    PayloadOfFrame(w, f, suffix);
    assert Value(bs[..w]) == f.topic by {
      HeaderOfFrame(w, f, suffix);
      TopicInRange(w, f);
    }
  }

  /** An oversized payload is cut down to what its truncated length field says. */
  lemma PayloadOfFrame(w: nat, f: Frame, suffix: seq<Byte>)
    ensures PayloadOf((Encoded(w, f) + suffix)[w..]) == f.payload[..|f.payload| % LENGTH_LIMIT]
  {
    hide Value, LittleEndian, Pow256;
    var len := |f.payload| % LENGTH_LIMIT;
    HeaderOfFrame(w, f, suffix);
    assert (f.payload + suffix)[..len] == f.payload[..len];
  }

  lemma TopicInRange(w: nat, f: Frame)
    requires f.topic < Pow256(w)
    ensures f.topic % Pow256(w) == f.topic
  {
    hide Value, LittleEndian, Pow256;
    QuotientUnique(f.topic, Pow256(w), 0, f.topic);
  }

  /** A frame cut short is never taken for a frame: `decode` waits. */
  lemma DecodeOfProperPrefix(w: nat, f: Frame, k: nat)
    requires Representable(w, f) && k < |Encoded(w, f)|
    ensures Decode(w, Encoded(w, f)[..k]) == NOTHING
  {
    hide Value, LittleEndian, Pow256;
    var bs := Encoded(w, f)[..k];
    if k > w + LENGTH_FIELD {
      HeaderOfFrame(w, f, []);
      assert Encoded(w, f) + [] == Encoded(w, f);
      assert bs[w..][..LENGTH_FIELD] == Encoded(w, f)[w..][..LENGTH_FIELD];
    }
  }

  /** Once a frame is recognised, later bytes do not change what was recognised. */
  lemma DecodeMonotone(w: nat, src: seq<Byte>, more: seq<Byte>)
    requires Decode(w, src).consumed > 0
    ensures Decode(w, src + more) == Decode(w, src)
  {
    hide Value, LittleEndian, Pow256;
    var all := src + more;
    assert all[..w] == src[..w];
    assert all[w..][..LENGTH_FIELD] == src[w..][..LENGTH_FIELD];
    var n := LENGTH_FIELD + Value(src[w..][..LENGTH_FIELD]);
    assert all[w..][LENGTH_FIELD..n] == src[w..][LENGTH_FIELD..n];
  }

  /** The converse of `DecodeOfEncoded`: the bytes `decode` consumes are the encoding of what it returns. */
  lemma EncodedOfDecode(w: nat, src: seq<Byte>)
    requires Decode(w, src).consumed > 0
    ensures var d := Decode(w, src);
      && Representable(w, Frame(d.topic, d.payload))
      && src[..d.consumed] == Encoded(w, Frame(d.topic, d.payload))
  {
    hide Value, LittleEndian, Pow256;
    var d := Decode(w, src);
    LittleEndianOfValue(src[..w]);
    ValueBound(src[..w]);
    LittleEndianOfValue(src[w..][..LENGTH_FIELD]);
    ValueBound(src[w..][..LENGTH_FIELD]);
    LengthFieldLimit();
    assert src[..d.consumed] == src[..w] + src[w..][..LENGTH_FIELD] + d.payload;
  }

  /** The effect of `recv_frames`: take frames off the front while `decode` finds one. */
  function Frames(w: nat, buf: seq<Byte>): (r: (seq<Frame>, seq<Byte>))
    decreases |buf|
  {
    var d := Decode(w, buf);
    if d.consumed == 0 then ([], buf) else
    var (fs, rest) := Frames(w, buf[d.consumed..]);
    ([Frame(d.topic, d.payload)] + fs, rest)
  }

  /** What was delivered, re-encoded, and what is left over are together the bytes received. */
  lemma {:induction false} FramesPartition(w: nat, buf: seq<Byte>)
    ensures EncodedAll(w, Frames(w, buf).0) + Frames(w, buf).1 == buf
    ensures Decode(w, Frames(w, buf).1).consumed == 0
    decreases |buf|
  {
    hide Value, LittleEndian, Pow256, Decode, Encoded;
    var d := Decode(w, buf);
    if d.consumed == 0 {
      assert [] + buf == buf;
    } else {
      EncodedOfDecode(w, buf);
      FramesPartition(w, buf[d.consumed..]);
      var (fs, rest) := Frames(w, buf[d.consumed..]);
      assert Frames(w, buf) == ([Frame(d.topic, d.payload)] + fs, rest);
      hide Frames;
      PartitionCons(w, buf, d.consumed, Frame(d.topic, d.payload), fs, rest);
    }
  }

  lemma PartitionCons(w: nat, buf: seq<Byte>, n: nat, head: Frame, fs: seq<Frame>, rest: seq<Byte>)
    requires n <= |buf| && Encoded(w, head) == buf[..n] && EncodedAll(w, fs) + rest == buf[n..]
    ensures EncodedAll(w, [head] + fs) + rest == buf
  {
    hide Encoded;
    assert ([head] + fs)[1..] == fs;
    assert Encoded(w, head) + EncodedAll(w, fs) + rest == Encoded(w, head) + (EncodedAll(w, fs) + rest);
    assert buf[..n] + buf[n..] == buf;
  }

  /** Chunking does not matter: draining after each chunk delivers what draining once at the end does. */
  lemma {:induction false} FramesOfChunks(w: nat, first: seq<Byte>, second: seq<Byte>)
    ensures var (fs, rest) := Frames(w, first);
            var (gs, rest') := Frames(w, rest + second);
            Frames(w, first + second) == (fs + gs, rest')
    decreases |first|
  {
    hide Value, LittleEndian, Pow256, Decode, Encoded;
    var d := Decode(w, first);
    if d.consumed == 0 {
      assert Frames(w, first) == ([], first);
      var gs := Frames(w, first + second).0;
      assert [] + gs == gs;
    } else {
      DecodeMonotone(w, first, second);
      assert (first + second)[d.consumed..] == first[d.consumed..] + second;
      FramesOfChunks(w, first[d.consumed..], second);
      var (fs, rest) := Frames(w, first[d.consumed..]);
      var head, gs := [Frame(d.topic, d.payload)], Frames(w, rest + second).0;
      assert head + fs + gs == head + (fs + gs);
    }
  }

  lemma {:induction false} EncodedAllConcat(w: nat, fs: seq<Frame>, gs: seq<Frame>)
    ensures EncodedAll(w, fs + gs) == EncodedAll(w, fs) + EncodedAll(w, gs)
  {
    if fs == [] {
      assert fs + gs == gs;
    } else {
      assert (fs + gs)[1..] == fs[1..] + gs;
      EncodedAllConcat(w, fs[1..], gs);
    }
  }

  /** Any cut of a stream of frames yields the frames before the cut, and all of them when nothing is cut off. */
  lemma {:induction false} FramesOfStream(w: nat, fs: seq<Frame>, k: nat)
    requires forall f | f in fs :: Representable(w, f)
    requires k <= |EncodedAll(w, fs)|
    ensures Frames(w, EncodedAll(w, fs)[..k]).0 <= fs
    ensures k == |EncodedAll(w, fs)| ==> Frames(w, EncodedAll(w, fs)) == (fs, [])
  {
    hide Value, LittleEndian, Pow256, Decode, Encoded;
    if fs != [] {
      assert fs[0] in fs;
      var first, rest := Encoded(w, fs[0]), EncodedAll(w, fs[1..]);
      var cut := (first + rest)[..k];
      if k < |first| {
        assert cut == first[..k];
        DecodeOfProperPrefix(w, fs[0], k);
      } else {
        assert cut == first + rest[..k - |first|];
        DecodeOfEncoded(w, fs[0], rest[..k - |first|]);
        assert cut[|first|..] == rest[..k - |first|];
        FramesOfStream(w, fs[1..], k - |first|);
        if k == |first + rest| {
          assert cut == first + rest && rest[..k - |first|] == rest;
          assert [fs[0]] + fs[1..] == fs;
        }
      }
    }
  }

  /** `handle_recv` over a run of chunks: append the chunk, drain what it completes. */
  function Receive(w: nat, chunks: seq<seq<Byte>>): (r: (seq<Frame>, seq<Byte>)) {
    if chunks == [] then ([], []) else
    var last := |chunks| - 1;
    var (fs, rest) := Receive(w, chunks[..last]);
    var (gs, rest') := Frames(w, rest + chunks[last]);
    (fs + gs, rest')
  }

  function Joined(chunks: seq<seq<Byte>>): seq<Byte> {
    if chunks == [] then [] else Joined(chunks[..|chunks| - 1]) + chunks[|chunks| - 1]
  }

  /** Deliveries and leftover depend on the bytes received, never on how they were cut. */
  lemma {:induction false} ReceiveDependsOnBytes(w: nat, chunks: seq<seq<Byte>>)
    ensures Receive(w, chunks) == Frames(w, Joined(chunks))
  {
    hide Value, LittleEndian, Pow256, Encoded;
    if chunks == [] {
      assert Decode(w, []) == NOTHING;
    } else {
      var last := |chunks| - 1;
      ReceiveDependsOnBytes(w, chunks[..last]);
      FramesOfChunks(w, Joined(chunks[..last]), chunks[last]);
    }
  }
}

/** The codec objects working on growable buffers, proved against the frame functions of PlainProtocol. */
module Codec {
  import opened Bits
  import opened Bytes
  import opened PlainProtocol

  /** boost::asio::streambuf: a readable part, and a writable part that `Prepare` renews and `Commit` moves over. */
  class StreamBuf {
    var data: seq<Byte>
    var put: array<Byte>

    constructor ()
      ensures data == [] && fresh(put)
    {
      data := [];
      put := new Byte[0];
    }

    method Prepare(n: nat)
      modifies this
      ensures data == old(data)
      ensures fresh(put) && put.Length == n
    {
      put := new Byte[n];
    }

    method Commit(n: nat)
      requires n <= put.Length
      modifies this
      ensures data == old(data) + old(put[..n])
      ensures fresh(put) && put.Length == old(put.Length) - n
    {
      data := data + put[..n];
      put := new Byte[put.Length - n];
    }

    method Consume(n: nat)
      requires n <= |data|
      modifies this`data
      ensures data == old(data)[n..]
    {
      data := data[n..];
    }

    method Write(bytes: seq<Byte>)
      modifies this`data
      ensures data == old(data) + bytes
    {
      data := data + bytes;
    }
  }

  /** The 4-byte length prefix. */
  class LengthDelimited {

    constructor () {}

    method EncodeInto(src: seq<Byte>, dst: array<Byte>)
      requires dst.Length == LENGTH_FIELD + |src|
      modifies dst
      ensures dst[..] == LittleEndian(|src|, LENGTH_FIELD) + src
    {
      var len: nat := |src|;
      for i := 0 to LENGTH_FIELD
        invariant dst[..i] + LittleEndian(len, LENGTH_FIELD - i) == LittleEndian(|src|, LENGTH_FIELD)
      {
        dst[i] := len % 256;
        assert dst[..i + 1] == dst[..i] + [len % 256];
        len := len / 256;
      }
      assert dst[..LENGTH_FIELD] + [] == dst[..LENGTH_FIELD];
      forall i | 0 <= i < |src| {
        dst[LENGTH_FIELD + i] := src[i];
      }
      assert dst[..] == dst[..LENGTH_FIELD] + dst[LENGTH_FIELD..];
      assert dst[LENGTH_FIELD..] == src;
    }

    method Encode(src: seq<Byte>, dst: StreamBuf) returns (total: nat)
      modifies dst
      ensures fresh(dst.put)
      ensures total == LENGTH_FIELD + |src|
      ensures dst.data == old(dst.data) + LittleEndian(|src|, LENGTH_FIELD) + src
    {
      total := LENGTH_FIELD + |src|;
      dst.Prepare(total);
      EncodeInto(src, dst.put);
      assert dst.put[..total] == dst.put[..];
      dst.Commit(total);
    }

    method Decode(src: seq<Byte>) returns (payload: seq<Byte>)
      ensures payload == PayloadOf(src)
    {
      if |src| < LENGTH_FIELD {
        return [];
      }
      var len := 0;
      for i := 0 to LENGTH_FIELD
        invariant len == Value(src[..i])
      {
        OrReadsByte(src[..i], src[i]);
        assert src[..i + 1] == src[..i] + [src[i]];
        len := Or(len, src[i] * Pow256(i));
      }
      if |src| >= len + LENGTH_FIELD {
        return src[LENGTH_FIELD..LENGTH_FIELD + len];
      }
      return [];
    }
  }

  /** plain_protocol<Topic> with `w == sizeof(Topic)`. */
  class Protocol {
    const w: nat
    const lengthCodec: LengthDelimited
    var accepted: bool
    var connected: bool
    var closed: bool

    constructor (w: nat)
      ensures this.w == w && closed && !accepted && !connected
      ensures fresh(lengthCodec)
    {
      this.w := w;
      lengthCodec := new LengthDelimited();
      accepted, connected, closed := false, false, true;
    }

    predicate Established()
      reads this
    {
      (accepted || connected) && !closed
    }

    method Accepted()
      modifies this
      ensures Established()
    {
      accepted, closed := true, false;
    }

    method Connected()
      modifies this
      ensures Established()
    {
      connected, closed := true, false;
    }

    method Closed()
      modifies this
      ensures closed && accepted == old(accepted) && connected == old(connected)
    {
      closed := true;
    }

    /** Appends one frame, unless the protocol is closed: then nothing is appended and 0 is returned. */
    method Encode(topic: nat, src: seq<Byte>, dst: StreamBuf) returns (total: nat)
      modifies dst
      ensures dst.data == old(dst.data) + if closed then [] else Encoded(w, Frame(topic, src))
      ensures total == |dst.data| - |old(dst.data)|
    {
      if closed {
        return 0;
      }
      total := LENGTH_FIELD + |src| + w;
      dst.Prepare(total);
      Serialize(dst.put, w, topic);
      dst.Commit(w);
      assert dst.data == old(dst.data) + LittleEndian(topic, w);
      var size := lengthCodec.Encode(src, dst);
      ghost var length := LittleEndian(|src|, LENGTH_FIELD);
      assert dst.data == old(dst.data) + (LittleEndian(topic, w) + length + src);
    }

    method Decode(src: seq<Byte>) returns (d: Decoded)
      ensures d == PlainProtocol.Decode(w, src)
    {
      if |src| <= LENGTH_FIELD + w {
        return NOTHING;
      }
      var topic := Deserialize(src, w);
      var payload := lengthCodec.Decode(src[w..]);
      if |payload| > 0 {
        return Decoded(w + LENGTH_FIELD + |payload|, payload, topic);
      }
      return NOTHING;
    }
  }
}

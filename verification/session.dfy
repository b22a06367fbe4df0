/** session<plain_protocol>: the object whose buffers, flags and socket the SendPipe state describes. */
module Session {
  import opened Bytes
  import opened PlainProtocol
  import opened Codec
  import opened Options
  import opened SendPipe

  /** The socket as the session sees it, with the history of what the environment does. */
  class Socket {
    var open: bool
    ghost var outstanding: Option<seq<Byte>>   // the buffer handed to async_send
    ghost var wire: seq<Byte>

    constructor ()
      ensures open && outstanding == None && wire == []
    {
      open, outstanding, wire := true, None, [];
    }

    /** At most one write may be outstanding: that is what the caller has to show. */
    method AsyncSend(bytes: seq<Byte>)
      requires outstanding == None
      modifies this`outstanding
      ensures outstanding == Some(bytes)
    {
      outstanding := Some(bytes);
    }

    ghost method Transmit(n: nat)
      requires outstanding.Some? && n <= |outstanding.value|
      modifies this`outstanding, this`wire
      ensures outstanding == None && wire == old(wire + outstanding.value[..n])
    {
      wire := wire + outstanding.value[..n];
      outstanding := None;
    }

    ghost method Abort()
      modifies this`outstanding
      ensures outstanding == None
    {
      outstanding := None;
    }

    method Close()
      modifies this`open
      ensures !open
    {
      open := false;
    }
  }

  /** The session_handler: what the application is told. */
  class Handler {
    var received: seq<Frame>
    var closedNotices: nat

    constructor ()
      ensures received == [] && closedNotices == 0
    {
      received, closedNotices := [], 0;
    }

    method OnReceive(topic: nat, payload: seq<Byte>)
      modifies this`received
      ensures received == old(received) + [Frame(topic, payload)]
    {
      received := received + [Frame(topic, payload)];
    }

    method OnClosed()
      modifies this`closedNotices
      ensures closedNotices == old(closedNotices) + 1
    {
      closedNotices := closedNotices + 1;
    }
  }

  /** Of the frames in `buf`, `done` have been taken off its front and `rest` is still to be read. */
  ghost predicate FramesFrom(w: nat, buf: seq<Byte>, done: seq<Frame>, rest: seq<Byte>) {
    Frames(w, buf) == (done + Frames(w, rest).0, Frames(w, rest).1)
  }

  lemma FramesStart(w: nat, buf: seq<Byte>)
    ensures FramesFrom(w, buf, [], buf)
  {
    hide Frames;
    assert [] + Frames(w, buf).0 == Frames(w, buf).0;
  }

  lemma FramesStep(w: nat, buf: seq<Byte>, done: seq<Frame>, rest: seq<Byte>)
    requires FramesFrom(w, buf, done, rest) && PlainProtocol.Decode(w, rest).consumed > 0
    ensures var d := PlainProtocol.Decode(w, rest);
      FramesFrom(w, buf, done + [Frame(d.topic, d.payload)], rest[d.consumed..])
  {
    hide PlainProtocol.Decode;
    var d := PlainProtocol.Decode(w, rest);
    var head, fs := Frame(d.topic, d.payload), Frames(w, rest[d.consumed..]).0;
    assert Frames(w, rest) == ([head] + fs, Frames(w, rest[d.consumed..]).1);
    hide Frames;
    assert done + ([head] + fs) == done + [head] + fs;
  }

  lemma FramesEnd(w: nat, buf: seq<Byte>, done: seq<Frame>, rest: seq<Byte>)
    requires FramesFrom(w, buf, done, rest) && PlainProtocol.Decode(w, rest).consumed == 0
    ensures Frames(w, buf) == (done, rest)
  {
    assert Frames(w, rest) == ([], rest);
    hide Frames;
    assert done + [] == done;
  }

  class Session {
    const handler: Handler
    const socket: Socket
    const protocol: Protocol
    const sendBufs: seq<StreamBuf>
    const recvBuf: StreamBuf
    var sending: bool
    var accBufIndex: int
    ghost var accepted: seq<Byte>

    ghost const Repr: set<object> := {this, handler, socket, protocol, recvBuf} + set b | b in sendBufs

    /** The in-flight buffer holds, unchanged, what the outstanding write was given. */
    ghost predicate Valid()
      reads Repr
    {
      && |sendBufs| == 2 && sendBufs[0] != sendBufs[1]
      && recvBuf !in sendBufs
      && 0 <= accBufIndex < 2
      && (socket.outstanding.Some? ==> sending && socket.outstanding.value == sendBufs[1 - accBufIndex].data)
      && (socket.open ==> protocol.Established())
    }

    ghost function View(): Pipe
      requires Valid()
      reads Repr
    {
      var p := PipeState([sendBufs[0].data, sendBufs[1].data], accBufIndex, sending, socket.outstanding.Some?,
                         socket.open, handler.closedNotices, socket.wire, accepted);
      assert p.WellFormed();
      p
    }

    /** An open connection whose protocol was told so; the plain protocol sends no handshake. */
    constructor (handler: Handler, w: nat)
      requires handler.closedNotices == 0
      ensures Valid() && View() == FRESH
      ensures this.handler == handler && protocol.w == w && recvBuf.data == []
      ensures fresh(Repr - {handler})
    {
      this.handler := handler;
      socket := new Socket();
      protocol := new Protocol(w);
      var b0 := new StreamBuf();
      var b1 := new StreamBuf();
      sendBufs := [b0, b1];
      recvBuf := new StreamBuf();
      sending, accBufIndex, accepted := false, 0, [];
      new;
      protocol.Connected();
    }

    method StartSend()
      requires Valid() && !sending
      modifies this, socket
      ensures Valid() && View() == SendPipe.StartSend(old(View()))
    {
      var buf := sendBufs[accBufIndex].data;
      if |buf| == 0 {
        return;
      }
      accBufIndex := 1 - accBufIndex;
      sending := true;
      socket.AsyncSend(buf);
    }

    /** Raw bytes: refused on a closed session, else accumulated. */
    method SendBytes(bytes: seq<Byte>)
      requires Valid()
      modifies this, socket, sendBufs
      ensures Valid()
      ensures View() == if old(View().open) then Accept(old(View()), bytes) else old(View())
    {
      if !socket.open {
        return;
      }
      sendBufs[accBufIndex].Write(bytes);
      accepted := accepted + bytes;
      if !sending {
        StartSend();
      }
    }

    method Send(topic: nat, payload: seq<Byte>) returns (ok: bool)
      requires Valid()
      modifies this, socket, sendBufs
      ensures Valid()
      ensures ok == Sendable(old(View()), Frame(topic, payload))
      ensures View() == SendFrame(protocol.w, old(View()), Frame(topic, payload))
    {
      if !socket.open {
        return false;
      }
      if |payload| >= MAX_SEND {
        return false;
      }
      if |payload| == 0 {
        return false;
      }
      var total := protocol.Encode(topic, payload, sendBufs[accBufIndex]);
      accepted := accepted + Encoded(protocol.w, Frame(topic, payload));
      if !sending {
        StartSend();
      }
      return true;
    }

    method Close()
      requires Valid()
      modifies socket
      ensures Valid() && View() == old(View()).(open := false)
    {
      if socket.open {
        socket.Close();
      }
    }

    method HandleClose()
      requires Valid()
      modifies socket, protocol, handler
      ensures Valid() && View() == Closing(old(View()))
      ensures handler.received == old(handler.received)
    {
      if socket.open {
        Close();
        protocol.Closed();
        handler.OnClosed();
      }
    }

    /** Completion of the outstanding write: `len` bytes went out, or it failed. */
    method HandleSend(failed: bool, len: nat)
      requires Valid() && socket.outstanding.Some? && len <= |socket.outstanding.value|
      modifies this, socket, sendBufs, protocol, handler
      ensures Valid()
      ensures View() == if failed then Fail(old(View())) else Complete(old(View()), len)
      ensures handler.received == old(handler.received)
    {
      if !failed {
        socket.Transmit(len);
        sendBufs[1 - accBufIndex].Consume(len);
        sending := false;
        StartSend();
      } else {
        socket.Abort();
        HandleClose();
      }
    }

    /** Delivers every complete frame at the front of the receive buffer; each round consumes at least one byte. */
    method RecvFrames() returns (count: nat)
      requires Valid()
      modifies handler`received, recvBuf
      ensures Valid() && View() == old(View())
      ensures var (fs, rest) := Frames(protocol.w, old(recvBuf.data));
        && handler.received == old(handler.received) + fs
        && recvBuf.data == rest && count == |fs|
    {
      hide Frames, FramesFrom, PlainProtocol.Decode;
      count := 0;
      ghost var done: seq<Frame> := [];
      FramesStart(protocol.w, recvBuf.data);
      while |recvBuf.data| > 0
        invariant Valid() && View() == old(View())
        invariant handler.received == old(handler.received) + done && count == |done|
        invariant FramesFrom(protocol.w, old(recvBuf.data), done, recvBuf.data)
        decreases |recvBuf.data|
      {
        var d := protocol.Decode(recvBuf.data);
        if d.consumed > 0 {
          FramesStep(protocol.w, old(recvBuf.data), done, recvBuf.data);
          handler.OnReceive(d.topic, d.payload);
          recvBuf.Consume(d.consumed);
          done := done + [Frame(d.topic, d.payload)];
        } else {
          break;
        }
        count := count + 1;
      }
      FramesEnd(protocol.w, old(recvBuf.data), done, recvBuf.data);
    }

    /** A chunk arrives, or the read fails. Before the protocol is established bytes only pile up. */
    method HandleRecv(failed: bool, chunk: seq<Byte>)
      requires Valid()
      modifies handler, recvBuf, socket, protocol
      ensures Valid()
      ensures View() == if failed then Closing(old(View())) else old(View())
      ensures var (fs, rest) :=
                if failed then ([], old(recvBuf.data))
                else if old(protocol.Established()) then Frames(protocol.w, old(recvBuf.data) + chunk)
                else ([], old(recvBuf.data) + chunk);
              handler.received == old(handler.received) + fs && recvBuf.data == rest
    {
      if !failed {
        recvBuf.Write(chunk);
        if protocol.Established() {
          var count := RecvFrames();
        }
      } else {
        HandleClose();
      }
    }
  }
}

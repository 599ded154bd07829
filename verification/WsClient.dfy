/** The client's receive side in its own form: a fixed buffer filled by recv, unmasked in place
    and slid to the front after each frame. Its methods are proved against the functions of
    module WsStream. */
module WsClient {
  import opened Bytes
  import opened WsFrame
  import opened WsStream

  /** What select reports while the TCP connection is being made. */
  datatype Poll = StillConnecting | ConnectFailed | Connected

  /** What recv returned. */
  datatype Recv = WouldBlock | Failed | PeerClosed | Data(bytes: seq<byte>)

  class Client {
    var connected: bool          // configured, and the descriptor is open
    var hs: Handshake
    const rbuf: array<byte>
    var rbufHead: nat
    var state: NetState
    var opponentLoadout: int     // -1 until SERVER_LOADOUT arrives
    var startBody: seq<byte>
    var endBody: seq<byte>
    var join: seq<byte>
    var confirmed: seq<InputEntry>
    var outbox: seq<Sent>
    var handled: seq<Message>

    ghost predicate Valid()
      reads this
    {
      rbuf.Length == RECV_CAP && rbufHead <= RECV_CAP
    }

    ghost function Buffered(): seq<byte>
      requires Valid()
      reads this, rbuf
    {
      rbuf[..rbufHead]
    }

    function TheCore(): Core
      reads this
    {
      Core(state, opponentLoadout, startBody, endBody, join, confirmed, outbox, handled)
    }

    ghost function TheView(): View
      requires Valid()
      reads this, rbuf
    {
      View(hs, Buffered(), TheCore())
    }

    /** A configured client whose socket has been opened and whose connect is pending. */
    constructor (joinText: seq<byte>)
      ensures Valid() && connected && hs == TcpConnecting && rbufHead == 0
      ensures TheCore() == Core(Connecting, -1, [], [], joinText, [], [], [])
      ensures fresh(rbuf)
    {
      connected, hs := true, TcpConnecting;
      rbuf := new byte[RECV_CAP](_ => 0);
      rbufHead := 0;
      state, opponentLoadout := Connecting, -1;
      startBody, endBody, join := [], [], joinText;
      confirmed, outbox, handled := [], [], [];
    }

    /** Reads the header fields out of the buffer, once the length field has arrived. */
    method ReadHeader() returns (h: Option<Header>)
      requires Valid()
      ensures h == ParseHeader(Buffered())
    {
      if rbufHead < 2 { return None; }
      ghost var b := Buffered();
      var masked := rbuf[1] / 128 == 1;
      var len: nat := rbuf[1] % 128;
      var hdr: nat := 2;
      if len == 126 {
        if rbufHead < 4 { return None; }
        len := rbuf[2] as int * 0x100 + rbuf[3];
        assert BigEndian(b, 2, 3) == rbuf[2];
        hdr := 4;
      } else if len == 127 {
        if rbufHead < 10 { return None; }
        len := 0;
        var k := 2;
        while k < 10
          invariant 2 <= k <= 10 && len == BigEndian(b, 2, k)
        {
          len := len * 0x100 + rbuf[k];
          k := k + 1;
        }
        hdr := 10;
      }
      if masked { hdr := hdr + 4; }
      h := Some(Header(rbuf[0] % 16, masked, hdr, len));
    }

    lemma BufferedSlice(lo: nat, hi: nat)
      requires Valid() && lo <= hi <= rbufHead
      ensures Buffered()[lo..hi] == rbuf[lo..hi]
    {
      forall j | 0 <= j < hi - lo
        ensures Buffered()[lo..hi][j] == rbuf[lo..hi][j]
      {
      }
    }

    /** Parses the frame at the front of the buffer: 0 when it is incomplete, -1 when it is
        refused, else its length, with the payload unmasked in place at [off..off + plen]. */
    method ParseFrame() returns (consumed: int, opcode: nat, off: nat, plen: nat)
      requires Valid() && LegalLengths(Buffered())
      modifies rbuf
      ensures match old(Parse(Buffered()))
              case Incomplete => consumed == 0 && rbuf[..] == old(rbuf[..])
              case TooLarge => consumed == -1 && rbuf[..] == old(rbuf[..])
              case Frame(op, payload, k) =>
                && consumed == k && opcode == op && off + plen == k <= rbufHead
                && rbuf[off..off + plen] == payload
                && rbuf[k..] == old(rbuf[k..])
    {
      consumed, opcode, off, plen := 0, 0, 0, 0;
      var h := ReadHeader();
      if h.None? { return; }
      var hdr, len := h.value.size, h.value.len;
      var total := (hdr + len) % SIZE_WRAP;
      ParseByHeader(Buffered(), h.value, total);
      if ToInt32(total) > rbufHead { return; }
      if total > RECV_CAP { consumed := -1; return; }
      BufferedSlice(hdr, total);
      if h.value.masked {
        BufferedSlice(hdr - 4, hdr);
        Unmask(hdr, len);
      }
      off, plen, consumed, opcode := hdr, len, total, h.value.opcode;
    }

    /** Exclusive-ors the len bytes at hdr with the key in the four bytes before them. */
    method Unmask(hdr: nat, len: nat)
      requires Valid() && 4 <= hdr && hdr + len <= rbufHead
      modifies rbuf
      ensures rbuf[hdr..hdr + len] == ApplyMask(old(rbuf[hdr..hdr + len]), old(rbuf[hdr - 4..hdr]))
      ensures rbuf[hdr + len..] == old(rbuf[hdr + len..])
    {
      var j := 0;
      while j < len
        invariant 0 <= j <= len
        invariant forall k :: hdr - 4 <= k < hdr ==> rbuf[k] == old(rbuf[k])
        invariant forall k :: 0 <= k < j ==> rbuf[hdr + k] == Xor(old(rbuf[hdr + k]), old(rbuf[hdr - 4 + k % 4]))
        invariant forall k :: hdr + j <= k < rbuf.Length ==> rbuf[k] == old(rbuf[k])
      {
        rbuf[hdr + j] := Xor(rbuf[hdr + j], rbuf[hdr - 4 + j % 4]);
        j := j + 1;
      }
    }

    /** Drops the first k buffered bytes by moving the rest to the front. */
    method Slide(k: nat)
      requires Valid() && k <= rbufHead
      modifies rbuf, this`rbufHead
      ensures Valid() && Buffered() == old(Buffered()[k..])
    {
      var leftover := rbufHead - k;
      forall j | 0 <= j < leftover {
        rbuf[j] := rbuf[k + j];
      }
      rbufHead := leftover;
    }

    /** Confirms every entry of an input batch, in order. */
    method ConfirmBatch(p: seq<byte>, count: nat)
      requires 4 + count * 6 <= |p|
      modifies this`confirmed
      ensures confirmed == old(confirmed) + BatchEntries(p, count)
    {
      var i := 0;
      while i < count
        invariant 0 <= i <= count && confirmed == old(confirmed) + BatchEntries(p, i)
      {
        confirmed := confirmed + [EntryAt(p, i)];
        i := i + 1;
      }
    }

    method DispatchMessage(p: seq<byte>)
      modifies this`state, this`startBody, this`endBody, this`opponentLoadout, this`confirmed, this`outbox
      ensures TheCore() == Dispatch(old(TheCore()), p)
    {
      if |p| < 1 { return; }
      var kind := p[0];
      if kind == MSG_WAITING {
        state := Waiting;
      } else if kind == MSG_START {
        startBody := p[1..];
        state := Ready;
      } else if kind == MSG_INPUT_BATCH {
        if |p| < 4 { return; }
        var count: nat := p[3];
        if |p| < 4 + count * 6 { return; }
        ConfirmBatch(p, count);
      } else if kind == MSG_PING {
        if |p| < 9 { return; }
        outbox := outbox + [Binary([MSG_PONG] + p[1..9])];
      } else if kind == MSG_MATCH_END {
        endBody := p[1..];
        state := Ended;
      } else if kind == MSG_ERROR {
        state := Error;
      } else if kind == MSG_SERVER_LOADOUT {
        if |p| >= 2 { opponentLoadout := p[1]; }
      }
    }

    method HandleFrame(opcode: nat, payload: seq<byte>)
      modifies this`state, this`startBody, this`endBody, this`opponentLoadout, this`confirmed, this`outbox, this`handled
      ensures TheCore() == Handle(old(TheCore()), Message(opcode, payload))
    {
      if opcode == 1 || opcode == 2 {
        DispatchMessage(payload);
      } else if opcode == 8 {
        state := Error;
      } else if opcode == 9 {
        outbox := outbox + [EmptyPong];
      }
      handled := handled + [Message(opcode, payload)];
    }

    /** One round of the parse loop; false when it has to stop. */
    method ProcessFrame() returns (more: bool)
      requires Valid() && rbufHead > 0 && LegalLengths(Buffered())
      modifies this, rbuf
      ensures Valid() && hs == old(hs) && connected == old(connected)
      ensures match old(Parse(Buffered()))
              case Incomplete => !more && TheView() == old(TheView())
              case TooLarge => !more && TheView() == old(TheView()).(core := old(TheCore()).(state := Error))
              case Frame(op, payload, k) =>
                && TheCore() == Handle(old(TheCore()), Message(op, payload))
                && Buffered() == old(Buffered())[k..]
                && more == (state != Error)
    {
      ghost var b := Buffered();
      var consumed, opcode, off, plen := ParseFrame();
      if consumed == 0 {
        assert Buffered() == b;
        return false;
      }
      if consumed < 0 {
        assert Buffered() == b;
        state := Error;
        return false;
      }
      assert Buffered()[consumed..] == b[consumed..];
      HandleFrame(opcode, rbuf[off..off + plen]);
      Slide(consumed);
      more := state != Error;
    }

    /** The parse loop. */
    method ProcessFrames()
      requires Valid() && LegalLengths(Buffered())
      modifies this, rbuf
      ensures Valid() && hs == old(hs) && connected == old(connected)
      ensures (TheCore(), Buffered()) == Drain(old(TheCore()), old(Buffered()))
    {
      ghost var c0, b0 := TheCore(), Buffered();
      while rbufHead > 0
        invariant Valid() && hs == old(hs) && connected == old(connected)
        invariant LegalLengths(Buffered())
        invariant Drain(TheCore(), Buffered()) == Drain(c0, b0)
        decreases rbufHead
      {
        var more := ProcessFrame();
        if !more { break; }
      }
    }

    /** Looks for the blank line that ends the response header. */
    method FindHeaderEnd() returns (end: int)
      requires Valid()
      ensures end == match HeaderEnd(Buffered(), 0) case None => -1 case Some(e) => e
    {
      ghost var b := Buffered();
      var i := 0;
      while i + 4 <= rbufHead
        invariant 0 <= i && HeaderEnd(b, 0) == HeaderEnd(b, i)
      {
        if rbuf[i] == 13 && rbuf[i + 1] == 10 && rbuf[i + 2] == 13 && rbuf[i + 3] == 10 {
          assert BlankLineAt(b, i);
          return i + 4;
        }
        i := i + 1;
      }
      end := -1;
    }

    method Has101(end: nat) returns (found: bool)
      requires Valid() && end <= rbufHead
      ensures found <==> Says101(Buffered()[..end])
    {
      ghost var b := Buffered()[..end];
      var i := 0;
      while i + 3 <= end
        invariant 0 <= i
        invariant forall k :: 0 <= k < i && k < |b| ==> !Is101At(b, k)
      {
        if rbuf[i] == 49 && rbuf[i + 1] == 48 && rbuf[i + 2] == 49 {
          assert Is101At(b, i);
          return true;
        }
        i := i + 1;
      }
      found := false;
    }

    /** The bytes that Receive will parse as frames when recv delivers `bytes`. */
    ghost predicate LegalInput(bytes: seq<byte>)
      requires Valid()
      reads this, rbuf
    {
      var buf := Buffered() + bytes;
      if hs == HttpSent then HeaderEnd(buf, 0).Some? ==> LegalLengths(buf[HeaderEnd(buf, 0).value..])
      else LegalLengths(buf)
    }

    /** One call per host frame. recv returns between 1 byte and the free space of the buffer. */
    method Receive(poll: Poll, rx: Recv)
      requires Valid()
      requires rx.Data? ==> LegalInput(rx.bytes)
      requires rx.Data? && rbufHead < RECV_CAP ==> 1 <= |rx.bytes| <= RECV_CAP - rbufHead
      modifies this, rbuf
      ensures Valid() && connected == old(connected)
      ensures !connected ==> TheView() == old(TheView())
      ensures connected && old(hs) == TcpConnecting ==>
                TheView() == match poll
                  case StillConnecting => old(TheView())
                  case ConnectFailed => old(TheView()).(core := old(TheCore()).(state := Error))
                  case Connected => old(TheView()).(hs := HttpSent,
                    core := old(TheCore()).(outbox := old(outbox) + [HttpUpgrade]))
      ensures connected && old(hs) != TcpConnecting ==>
                if old(rbufHead) == RECV_CAP then TheView() == old(TheView()).(buf := [])
                else match rx
                  case WouldBlock => TheView() == old(TheView())
                  case Failed => TheView() == old(TheView()).(core := old(TheCore()).(state := Error))
                  case PeerClosed => TheView() == old(TheView()).(core := old(TheCore()).(state := Error))
                  case Data(bytes) => TheView() == OnBytes(old(TheView()), bytes)
    {
      if !connected { return; }
      if hs == TcpConnecting {
        match poll {
          case StillConnecting =>
          case ConnectFailed => state := Error;
          case Connected =>
            outbox := outbox + [HttpUpgrade];
            hs := HttpSent;
        }
        return;
      }
      if rbufHead == RECV_CAP {
        rbufHead := 0;
        return;
      }
      match rx {
        case WouldBlock =>
        case Failed => state := Error;
        case PeerClosed => state := Error;
        case Data(bytes) => Process(bytes);
      }
    }

    /** Appends what recv wrote, finishes the upgrade if its header is complete, parses frames. */
    method Process(bytes: seq<byte>)
      requires Valid() && LegalInput(bytes) && rbufHead + |bytes| <= RECV_CAP
      modifies this, rbuf
      ensures Valid() && connected == old(connected)
      ensures TheView() == OnBytes(old(TheView()), bytes)
    {
      ghost var v := TheView();
      forall j | 0 <= j < |bytes| {
        rbuf[rbufHead + j] := bytes[j];
      }
      rbufHead := rbufHead + |bytes|;
      assert Buffered() == v.buf + bytes;
      if hs == HttpSent {
        var end := FindHeaderEnd();
        if end < 0 { return; }
        var ok := Has101(end);
        if !ok {
          state := Error;
          return;
        }
        Slide(end);
        hs := Open;
        outbox := outbox + [Binary([MSG_JOIN] + join)];
        state := Waiting;
      }
      if hs != Open { return; }
      ProcessFrames();
    }
  }
}

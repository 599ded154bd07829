/** What the client does with the bytes it receives, as functions on values: dispatch of one
    message, draining of the buffer, the HTTP upgrade, and the proof that none of it depends on
    how the bytes were cut into pieces. */
module WsStream {
  import opened Bytes
  import opened WsFrame

  datatype NetState = Idle | Connecting | Waiting | Ready | Fighting | Ended | Error

  datatype Handshake = NotStarted | TcpConnecting | HttpSent | Open | Closed

  /** One (frame, input) pair of the opponent. */
  datatype InputEntry = InputEntry(frame: int, input: int)

  datatype Sent = HttpUpgrade | Binary(payload: seq<byte>) | EmptyPong

  datatype Message = Message(opcode: nat, payload: seq<byte>)

  /** The client's public state and what it has done so far: `confirmed` lists the calls of
      rollback_confirm_remote, `outbox` what was sent, `handled` the frames taken from the buffer.
      `join` is the JSON text of the join message. */
  datatype Core = Core(
    state: NetState,
    opponentLoadout: int,
    startBody: seq<byte>,
    endBody: seq<byte>,
    join: seq<byte>,
    confirmed: seq<InputEntry>,
    outbox: seq<Sent>,
    handled: seq<Message>)

  // ----- Dispatch -----

  const MSG_JOIN: byte := 0x01
  const MSG_INPUT: byte := 0x02
  const MSG_PONG: byte := 0x03
  const MSG_LOADOUT: byte := 0x04
  const MSG_WAITING: byte := 0x10
  const MSG_START: byte := 0x11
  const MSG_INPUT_BATCH: byte := 0x12
  const MSG_MATCH_END: byte := 0x13
  const MSG_PING: byte := 0x14
  const MSG_ERROR: byte := 0x15
  const MSG_SERVER_LOADOUT: byte := 0x20

  function LittleEndian16(p: seq<byte>, at: nat): uint16
    requires at + 2 <= |p|
  {
    p[at] as int + p[at + 1] as int * 0x100
  }

  function LittleEndian32(p: seq<byte>, at: nat): uint32
    requires at + 4 <= |p|
  {
    p[at] as int + p[at + 1] as int * 0x100 + p[at + 2] as int * 0x1_0000 + p[at + 3] as int * 0x100_0000
  }

  /** Entry k of an input batch: four frame bytes converted to int, then two input bytes. */
  function EntryAt(p: seq<byte>, k: nat): InputEntry
    requires 4 + (k + 1) * 6 <= |p|
  {
    InputEntry(ToInt32(LittleEndian32(p, 4 + k * 6)), LittleEndian16(p, 8 + k * 6))
  }

  function BatchEntries(p: seq<byte>, count: nat): (r: seq<InputEntry>)
    requires 4 + count * 6 <= |p|
    ensures |r| == count
  {
    if count == 0 then [] else BatchEntries(p, count - 1) + [EntryAt(p, count - 1)]
  }

  function Dispatch(c: Core, p: seq<byte>): Core {
    if |p| < 1 then c
    else if p[0] == MSG_WAITING then c.(state := Waiting)
    else if p[0] == MSG_START then c.(startBody := p[1..], state := Ready)
    else if p[0] == MSG_INPUT_BATCH then
      if |p| < 4 || |p| < 4 + p[3] as int * 6 then c
      else c.(confirmed := c.confirmed + BatchEntries(p, p[3]))
    else if p[0] == MSG_PING then
      if |p| < 9 then c else c.(outbox := c.outbox + [Binary([MSG_PONG] + p[1..9])])
    else if p[0] == MSG_MATCH_END then c.(endBody := p[1..], state := Ended)
    else if p[0] == MSG_ERROR then c.(state := Error)
    else if p[0] == MSG_SERVER_LOADOUT && |p| >= 2 then c.(opponentLoadout := p[1])
    else c
  }

  /** One frame taken from the buffer: text and binary are dispatched, close is an error,
      ping is answered with an empty pong, anything else is ignored. */
  function Handle(c: Core, m: Message): Core {
    var c' :=
      if m.opcode == 1 || m.opcode == 2 then Dispatch(c, m.payload)
      else if m.opcode == 8 then c.(state := Error)
      else if m.opcode == 9 then c.(outbox := c.outbox + [EmptyPong])
      else c;
    c'.(handled := c.handled + [m])
  }

  /** The frames after which the client stops: a close frame or a server error. */
  predicate Fatal(m: Message) {
    m.opcode == 8 || ((m.opcode == 1 || m.opcode == 2) && |m.payload| >= 1 && m.payload[0] == MSG_ERROR)
  }

  lemma FatalExactly(c: Core, m: Message)
    requires c.state != Error
    ensures Handle(c, m).state == Error <==> Fatal(m)
  {
  }

  // ----- Draining the buffer -----

  /** One more than the largest size_t. */
  const SIZE_WRAP: nat := 0x1_0000_0000_0000_0000

  /** The parse loop: takes frames off the front until the rest is incomplete or an error is set. */
  function Drain(c: Core, buf: seq<byte>): (r: (Core, seq<byte>))
    ensures |r.1| <= |buf|
    decreases |buf|
  {
    if |buf| == 0 then (c, buf)
    else
      match Parse(buf)
      case Incomplete => (c, buf)
      case TooLarge => (c.(state := Error), buf)
      case Frame(op, payload, k) =>
        var c' := Handle(c, Message(op, payload));
        if c'.state == Error then (c', buf[k..]) else Drain(c', buf[k..])
  }

  /** No frame the source looks at has a size that wraps a 64-bit size_t. Section 5.2 of RFC 6455
      demands more: the top bit of a 64-bit length is zero. */
  ghost predicate LegalLengths(buf: seq<byte>)
    decreases |buf|
  {
    match ParseHeader(buf)
    case None => true
    case Some(h) =>
      && h.size + h.len < SIZE_WRAP
      && (Parse(buf).Frame? ==> LegalLengths(buf[Parse(buf).consumed..]))
  }

  /** What the parser makes of a header, when the frame size does not wrap. */
  lemma ParseByHeader(b: seq<byte>, h: Header, total: nat)
    requires ParseHeader(b) == Some(h) && h.size + h.len < SIZE_WRAP && total == (h.size + h.len) % SIZE_WRAP
    ensures total == h.size + h.len
    ensures Parse(b) == if ToInt32(total) > |b| then Incomplete
                        else if total > RECV_CAP then TooLarge
                        else Frame(h.opcode, Payload(b, h), total)
  {
  }

  /** Every frame of s up to the first fatal one fits the receive buffer, and so does the
      frame that s ends in the middle of. */
  ghost predicate FramesFit(s: seq<byte>)
    decreases |s|
  {
    match ParseHeader(s)
    case None => true
    case Some(h) =>
      && h.size + h.len <= RECV_CAP
      && (Parse(s).Frame? && !Fatal(Message(Parse(s).opcode, Parse(s).payload))
          ==> FramesFit(s[Parse(s).consumed..]))
  }

  /** The frames of a byte stream, up to and including the first fatal one. */
  function Messages(s: seq<byte>): seq<Message>
    decreases |s|
  {
    match Parse(s)
    case Frame(op, payload, k) =>
      var m := Message(op, payload);
      if Fatal(m) then [m] else [m] + Messages(s[k..])
    case _ => []
  }

  function HandleAll(c: Core, ms: seq<Message>): Core
    decreases |ms|
  {
    if ms == [] then c else HandleAll(Handle(c, ms[0]), ms[1..])
  }

  /** Draining is handling, in order, the frames of the bytes. */
  lemma {:induction false} DrainHandlesMessages(c: Core, s: seq<byte>)
    requires c.state != Error && FramesFit(s)
    ensures Drain(c, s).0 == HandleAll(c, Messages(s))
    decreases |s|
  {
    match Parse(s)
    case Incomplete =>
    case TooLarge =>
    case Frame(op, payload, k) =>
      var m := Message(op, payload);
      FatalExactly(c, m);
      assert HandleAll(c, [m]) == Handle(c, m);
      if !Fatal(m) {
        DrainHandlesMessages(Handle(c, m), s[k..]);
        assert Messages(s)[1..] == Messages(s[k..]);
      }
  }

  lemma {:induction false} HandledGrows(c: Core, ms: seq<Message>)
    ensures HandleAll(c, ms).handled == c.handled + ms
    decreases |ms|
  {
    if ms != [] {
      HandledGrows(Handle(c, ms[0]), ms[1..]);
      assert ms == [ms[0]] + ms[1..];
    }
  }

  /** What is left after a drain without error is a strict prefix of one frame that fits,
      so the buffer is never full. */
  lemma {:induction false} DrainLeavesPartOfAFrame(c: Core, s: seq<byte>)
    requires c.state != Error && FramesFit(s) && Drain(c, s).0.state != Error
    ensures Parse(Drain(c, s).1) == Incomplete && FramesFit(Drain(c, s).1)
    ensures |Drain(c, s).1| < RECV_CAP
    decreases |s|
  {
    if Parse(s).Frame? {
      var m := Message(Parse(s).opcode, Parse(s).payload);
      FatalExactly(c, m);
      DrainLeavesPartOfAFrame(Handle(c, m), s[Parse(s).consumed..]);
    }
  }

  lemma {:induction false} FitsPrefix(a: seq<byte>, b: seq<byte>)
    requires FramesFit(a + b)
    ensures FramesFit(a)
    decreases |a|
  {
    if ParseHeader(a).Some? {
      HeaderStable(a, b);
      if Parse(a).Frame? {
        ParseStable(a, b);
        var k := Parse(a).consumed;
        assert (a + b)[k..] == a[k..] + b;
        if !Fatal(Message(Parse(a).opcode, Parse(a).payload)) {
          FitsPrefix(a[k..], b);
        }
      }
    }
  }

  /** Draining a and then, with what is left, b is draining a + b; once an error is set
      the bytes that follow change nothing. */
  lemma {:induction false} DrainAppend(c: Core, a: seq<byte>, b: seq<byte>)
    requires c.state != Error && FramesFit(a + b)
    ensures var (c1, r) := Drain(c, a);
            if c1.state == Error then Drain(c, a + b).0 == c1
            else FramesFit(r + b) && Drain(c, a + b) == Drain(c1, r + b)
    decreases |a|
  {
    if a == [] {
      assert a + b == b;
    } else if Parse(a).Frame? {
      ParseStable(a, b);
      var k := Parse(a).consumed;
      var m := Message(Parse(a).opcode, Parse(a).payload);
      FatalExactly(c, m);
      assert (a + b)[k..] == a[k..] + b;
      if !Fatal(m) {
        DrainAppend(Handle(c, m), a[k..], b);
      }
    } else {
      FitsPrefix(a, b);
    }
  }

  // ----- The HTTP upgrade -----

  predicate BlankLineAt(b: seq<byte>, i: nat) {
    i + 4 <= |b| && b[i] == 13 && b[i + 1] == 10 && b[i + 2] == 13 && b[i + 3] == 10
  }

  /** Index just after the first CR LF CR LF at or after i. */
  function HeaderEnd(b: seq<byte>, i: nat): (r: Option<nat>)
    ensures r.Some? ==> i + 4 <= r.value <= |b|
    decreases |b| - i
  {
    if i + 4 > |b| then None
    else if BlankLineAt(b, i) then Some(i + 4)
    else HeaderEnd(b, i + 1)
  }

  predicate Is101At(b: seq<byte>, i: nat) {
    i + 3 <= |b| && b[i] == 49 && b[i + 1] == 48 && b[i + 2] == 49
  }

  /** "101" somewhere in the response header: the status test of the source. */
  predicate Says101(b: seq<byte>) {
    exists i :: 0 <= i < |b| && Is101At(b, i)
  }

  lemma {:induction false} HeaderEndStable(a: seq<byte>, b: seq<byte>, i: nat)
    requires i <= |a|
    ensures HeaderEnd(a, i).Some? ==> HeaderEnd(a + b, i) == HeaderEnd(a, i)
    ensures HeaderEnd(a, i).None? && HeaderEnd(a + b, i).Some? ==> HeaderEnd(a + b, i).value > |a|
    decreases |a| - i
  {
    if i + 4 <= |a| && !BlankLineAt(a, i) {
      HeaderEndStable(a, b, i + 1);
    }
  }

  // ----- Receiving -----

  /** A connected client: handshake phase, buffered bytes and core state. */
  datatype View = View(hs: Handshake, buf: seq<byte>, core: Core)

  /** The upgrade has succeeded: the join message goes out and the state is Waiting. */
  function Opened(c: Core): Core {
    c.(outbox := c.outbox + [Binary([MSG_JOIN] + c.join)], state := Waiting)
  }

  /** The client after `bytes` have been added to its buffer and everything possible was processed. */
  ghost function OnBytes(v: View, bytes: seq<byte>): View {
    var buf := v.buf + bytes;
    if v.hs == HttpSent then
      match HeaderEnd(buf, 0)
      case None => v.(buf := buf)
      case Some(e) =>
        if !Says101(buf[..e]) then v.(buf := buf, core := v.core.(state := Error))
        else
          var (c, rest) := Drain(Opened(v.core), buf[e..]);
          View(Open, rest, c)
    else if v.hs == Open then
      var (c, rest) := Drain(v.core, buf);
      View(Open, rest, c)
    else v.(buf := buf)
  }

  /** Successive calls of the receive function, each with the piece recv returned, up to the
      first one that sets the error state. */
  ghost function ReceiveAll(v: View, pieces: seq<seq<byte>>): View
    decreases |pieces|
  {
    if pieces == [] || v.core.state == Error then v
    else ReceiveAll(OnBytes(v, pieces[0]), pieces[1..])
  }

  function Concat(pieces: seq<seq<byte>>): seq<byte> {
    if pieces == [] then [] else pieces[0] + Concat(pieces[1..])
  }

  /** The bytes still to be processed fit: a response header that ends within the buffer,
      then frames that fit. */
  ghost predicate StreamFits(hs: Handshake, s: seq<byte>) {
    if hs == HttpSent then
      match HeaderEnd(s, 0)
      case None => |s| < RECV_CAP
      case Some(e) => e <= RECV_CAP && (Says101(s[..e]) ==> FramesFit(s[e..]))
    else FramesFit(s)
  }

  ghost predicate Receiving(v: View) {
    (v.hs == HttpSent || v.hs == Open) && v.core.state != Error
  }

  /** Nothing complete is waiting in the buffer. */
  ghost predicate Quiet(v: View) {
    if v.hs == HttpSent then HeaderEnd(v.buf, 0).None? else Parse(v.buf) == Incomplete
  }

  /** One piece: either the error is set and the later bytes do not matter, or the rest of the
      stream is still to come, fits, and leads to the same client. */
  lemma OnBytesAppend(v: View, a: seq<byte>, b: seq<byte>)
    requires Receiving(v) && StreamFits(v.hs, v.buf + (a + b))
    ensures var w := OnBytes(v, a);
            if w.core.state == Error then OnBytes(v, a + b).core == w.core
            else Receiving(w) && Quiet(w) && |w.buf| < RECV_CAP
                 && StreamFits(w.hs, w.buf + b) && OnBytes(v, a + b).core == OnBytes(w, b).core
  {
    var buf := v.buf + a;
    assert v.buf + (a + b) == buf + b;
    if v.hs == Open {
      DrainAppend(v.core, buf, b);
      FitsPrefix(buf, b);
      if OnBytes(v, a).core.state != Error {
        DrainLeavesPartOfAFrame(v.core, buf);
      }
    } else {
      HeaderEndStable(buf, b, 0);
      if HeaderEnd(buf, 0).Some? {
        var e := HeaderEnd(buf, 0).value;
        assert (buf + b)[..e] == buf[..e] && (buf + b)[e..] == buf[e..] + b;
        if Says101(buf[..e]) {
          DrainAppend(Opened(v.core), buf[e..], b);
          FitsPrefix(buf[e..], b);
          if OnBytes(v, a).core.state != Error {
            DrainLeavesPartOfAFrame(Opened(v.core), buf[e..]);
          }
        }
      }
    }
  }

  /** The client after any cutting of the stream is the client after the whole stream at once. */
  lemma {:induction false} PiecesDoNotMatter(v: View, pieces: seq<seq<byte>>)
    requires Receiving(v) && Quiet(v) && StreamFits(v.hs, v.buf + Concat(pieces))
    ensures ReceiveAll(v, pieces).core == OnBytes(v, Concat(pieces)).core
    decreases |pieces|
  {
    if pieces == [] {
      assert v.buf + [] == v.buf;
    } else {
      var a, b := pieces[0], Concat(pieces[1..]);
      OnBytesAppend(v, a, b);
      if OnBytes(v, a).core.state != Error {
        PiecesDoNotMatter(OnBytes(v, a), pieces[1..]);
      }
    }
  }

  /** Two cuttings of the same stream handle the same frames in the same order and end in the
      same state. */
  lemma SameStreamSameClient(v: View, p: seq<seq<byte>>, q: seq<seq<byte>>)
    requires Receiving(v) && Quiet(v) && StreamFits(v.hs, v.buf + Concat(p)) && Concat(p) == Concat(q)
    ensures ReceiveAll(v, p).core == ReceiveAll(v, q).core
  {
    PiecesDoNotMatter(v, p);
    PiecesDoNotMatter(v, q);
  }

  /** From the upgrade request on, a response with status 101 followed by frames makes the client
      handle exactly the frames of the bytes after the blank line, up to the first fatal one. */
  lemma HandledIsTheFramesOfTheStream(v: View, pieces: seq<seq<byte>>, e: nat)
    requires v.hs == HttpSent && v.buf == [] && v.core.state != Error && v.core.handled == []
    requires StreamFits(HttpSent, Concat(pieces))
    requires HeaderEnd(Concat(pieces), 0) == Some(e) && Says101(Concat(pieces)[..e])
    ensures ReceiveAll(v, pieces).core == HandleAll(Opened(v.core), Messages(Concat(pieces)[e..]))
    ensures ReceiveAll(v, pieces).core.handled == Messages(Concat(pieces)[e..])
  {
    var s := Concat(pieces);
    assert v.buf + s == s;
    PiecesDoNotMatter(v, pieces);
    DrainHandlesMessages(Opened(v.core), s[e..]);
    HandledGrows(Opened(v.core), Messages(s[e..]));
  }

  /** The buffer after the last call, as long as no error is set. */
  lemma {:induction false} BufferAfter(v: View, pieces: seq<seq<byte>>)
    requires Receiving(v) && Quiet(v) && |v.buf| < RECV_CAP && StreamFits(v.hs, v.buf + Concat(pieces))
    ensures var w := ReceiveAll(v, pieces);
            w.core.state == Error || (Quiet(w) && |w.buf| < RECV_CAP)
    decreases |pieces|
  {
    if pieces != [] {
      OnBytesAppend(v, pieces[0], Concat(pieces[1..]));
      if OnBytes(v, pieces[0]).core.state != Error {
        BufferAfter(OnBytes(v, pieces[0]), pieces[1..]);
      }
    }
  }

  lemma {:induction false} ConcatPrefix(pieces: seq<seq<byte>>, k: nat)
    requires k <= |pieces|
    ensures Concat(pieces) == Concat(pieces[..k]) + Concat(pieces[k..])
    decreases k
  {
    if k > 0 {
      ConcatPrefix(pieces[1..], k - 1);
      assert pieces[..k][1..] == pieces[1..][..k - 1] && pieces[1..][k - 1..] == pieces[k..];
    } else {
      assert pieces[..0] == [] && pieces[0..] == pieces;
    }
  }

  /** A stream that fits, fits up to any point. */
  lemma StreamFitsPrefix(hs: Handshake, a: seq<byte>, b: seq<byte>)
    requires StreamFits(hs, a + b)
    ensures StreamFits(hs, a)
  {
    if hs == HttpSent {
      HeaderEndStable(a, b, 0);
      if HeaderEnd(a, 0).Some? {
        var e := HeaderEnd(a, 0).value;
        assert (a + b)[..e] == a[..e] && (a + b)[e..] == a[e..] + b;
        if Says101(a[..e]) {
          FitsPrefix(a[e..], b);
        }
      }
    } else {
      FitsPrefix(a, b);
    }
  }

  /** After every call, as long as no error is set, the buffer is a strict prefix of one frame (or
      of the response header) and not full, so the reset for a full buffer is never reached. */
  lemma BufferNeverFull(v: View, pieces: seq<seq<byte>>)
    requires Receiving(v) && Quiet(v) && |v.buf| < RECV_CAP && StreamFits(v.hs, v.buf + Concat(pieces))
    ensures forall k :: 0 <= k <= |pieces| ==>
              var w := ReceiveAll(v, pieces[..k]);
              w.core.state == Error || (Quiet(w) && |w.buf| < RECV_CAP)
  {
    forall k | 0 <= k <= |pieces|
      ensures var w := ReceiveAll(v, pieces[..k]);
              w.core.state == Error || (Quiet(w) && |w.buf| < RECV_CAP)
    {
      ConcatPrefix(pieces, k);
      assert v.buf + Concat(pieces) == v.buf + Concat(pieces[..k]) + Concat(pieces[k..]);
      StreamFitsPrefix(v.hs, v.buf + Concat(pieces[..k]), Concat(pieces[k..]));
      BufferAfter(v, pieces[..k]);
    }
  }
}

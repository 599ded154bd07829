/** The binary messages between client and relay: what each side writes and what the other
    side reads back. */
module Protocol {
  import opened Bytes
  import opened WsStream

  type Slot = s: int | 0 <= s < 2

  function Other(s: Slot): Slot {
    1 - s
  }

  /** The fields of the JSON body of a join message. */
  datatype JoinInfo = JoinInfo(roomId: string, playerId: string, slot: Slot)

  datatype ClientMsg =
    | Join(info: JoinInfo)
    | Input(seqNo: uint16, frame: uint32, input: uint16)
    | Pong
    | Loadout(loadout: byte)

  /** One input as the relay holds it. */
  datatype RelayEntry = RelayEntry(frame: uint32, input: uint16)

  const MAX_RELAY_BATCH: nat := 8

  // ----- Relay side -----

  /** Decoding on the relay. `parseBody` stands for the JSON parser: the fields of a join's body are spread
      over the message, its own `type` included, so a body can make it any message; None is text that is not
      JSON or a type that is not handled. */
  function DecodeClientMsg(data: seq<byte>, parseBody: seq<byte> -> Option<ClientMsg>): Option<ClientMsg> {
    if |data| < 1 then None
    else if data[0] == MSG_JOIN then parseBody(data[1..])
    else if data[0] == MSG_INPUT then
      if |data| < 9 then None
      else Some(Input(LittleEndian16(data, 1), LittleEndian32(data, 3), LittleEndian16(data, 7)))
    else if data[0] == MSG_PONG then Some(Pong)
    else if data[0] == MSG_LOADOUT then
      if |data| < 2 then None else Some(Loadout(data[1]))
    else None
  }

  /** Neither up with down nor left with right. */
  ghost predicate PossibleOnAStick(input: uint16) {
    !(Bit(input, 0) && Bit(input, 1)) && !(Bit(input, 2) && Bit(input, 3))
  }

  /** The mask test of the relay, for the masks 0b0011 and 0b1100. */
  predicate IsValidInput(input: uint16) {
    input % 4 != 3 && input / 4 % 4 != 3
  }

  lemma LowTwoBits(q: nat)
    ensures q % 4 == 3 <==> q % 2 == 1 && q / 2 % 2 == 1
  {
    assert q % 4 == 2 * (q / 2 % 2) + q % 2;
  }

  lemma ValidInputExactly(input: uint16)
    ensures IsValidInput(input) <==> PossibleOnAStick(input)
  {
    assert Pow2(0) == 1 && Pow2(1) == 2 && Pow2(2) == 4 && Pow2(3) == 2 * Pow2(2);
    assert input / 8 == input / 4 / 2;
    LowTwoBits(input);
    LowTwoBits(input / 4);
  }

  function Bytes16(n: uint16): (r: seq<byte>)
    ensures |r| == 2
  {
    [n % 0x100, n / 0x100]
  }

  function Bytes32(n: uint32): (r: seq<byte>)
    ensures |r| == 4
  {
    [n % 0x100, n / 0x100 % 0x100, n / 0x1_0000 % 0x100, n / 0x100_0000]
  }

  function EncodeEntry(e: RelayEntry): (r: seq<byte>)
    ensures |r| == 6
  {
    Bytes32(e.frame) + Bytes16(e.input)
  }

  function EncodeEntries(es: seq<RelayEntry>): (r: seq<byte>)
    ensures |r| == 6 * |es|
  {
    if es == [] then []
    else EncodeEntries(es[..|es| - 1]) + EncodeEntry(es[|es| - 1])
  }

  function BatchHead(seqNo: uint16, count: byte): (r: seq<byte>)
    ensures |r| == 4 && r[0] == MSG_INPUT_BATCH && r[3] == count
  {
    [MSG_INPUT_BATCH] + Bytes16(seqNo) + [count]
  }

  /** The inputs a batch has room for: its count is one byte. */
  function Carried(es: seq<RelayEntry>): seq<RelayEntry> {
    if |es| < 255 then es else es[..255]
  }

  /** A relay batch; None is the range error that writing a sequence number above 65535 raises. */
  function EncodeRelayBatch(seqNo: nat, es: seq<RelayEntry>): (r: Option<seq<byte>>)
    ensures r.Some? <==> seqNo < 0x1_0000
    ensures r.Some? ==> |r.value| == 4 + 6 * |Carried(es)|
  {
    if seqNo >= 0x1_0000 then None
    else
      var count := if |es| < 255 then |es| else 255;
      Some(BatchHead(seqNo, count) + EncodeEntries(es[..count]))
  }

  method Write16(buf: array<byte>, n: uint16, at: nat)
    requires at + 2 <= buf.Length
    modifies buf
    ensures buf[at..at + 2] == Bytes16(n)
    ensures buf[..at] == old(buf[..at]) && buf[at + 2..] == old(buf[at + 2..])
  {
    buf[at] := n % 0x100;
    buf[at + 1] := n / 0x100;
  }

  method Write32(buf: array<byte>, n: uint32, at: nat)
    requires at + 4 <= buf.Length
    modifies buf
    ensures buf[at..at + 4] == Bytes32(n)
    ensures buf[..at] == old(buf[..at]) && buf[at + 4..] == old(buf[at + 4..])
  {
    buf[at] := n % 0x100;
    buf[at + 1] := n / 0x100 % 0x100;
    buf[at + 2] := n / 0x1_0000 % 0x100;
    buf[at + 3] := n / 0x100_0000;
  }

  method WriteEntry(buf: array<byte>, e: RelayEntry, at: nat)
    requires at + 6 <= buf.Length
    modifies buf
    ensures buf[at..at + 6] == EncodeEntry(e)
    ensures buf[..at] == old(buf[..at])
  {
    Write32(buf, e.frame, at);
    ghost var done := buf[..at + 4];
    Write16(buf, e.input, at + 4);
    assert buf[..at + 4] == done;
    assert buf[..at] == done[..at];
    assert buf[at..at + 6] == done[at..] + buf[at + 4..at + 6];
  }

  method WriteBatchHead(buf: array<byte>, seqNo: uint16, count: byte)
    requires buf.Length >= 4
    modifies buf
    ensures buf[..4] == BatchHead(seqNo, count)
  {
    buf[0] := MSG_INPUT_BATCH;
    buf[3] := count;
    Write16(buf, seqNo, 1);
    assert buf[..4] == buf[..1] + buf[1..3] + buf[3..][..1];
  }

  /** The first count entries, one behind the other after the four bytes of the head. */
  method WriteEntries(buf: array<byte>, es: seq<RelayEntry>, count: nat)
    requires count <= |es| && buf.Length == 4 + count * 6
    modifies buf
    ensures buf[..] == old(buf[..4]) + EncodeEntries(es[..count])
  {
    var i, at := 0, 4;
    ghost var done := buf[..4];
    while i < count
      invariant 0 <= i <= count && at == 4 + i * 6
      invariant done == old(buf[..4]) + EncodeEntries(es[..i]) && |done| == at
      invariant buf[..at] == done
    {
      WriteEntry(buf, es[i], at);
      EncodeOneMore(es, i);
      assert buf[..at + 6] == buf[..at] + buf[at..at + 6];
      done := done + EncodeEntry(es[i]);
      i, at := i + 1, at + 6;
    }
    assert buf[..] == buf[..at];
  }

  /** Fills a fresh buffer the way the relay does, entry by entry. */
  method WriteRelayBatch(seqNo: uint16, es: seq<RelayEntry>) returns (buf: array<byte>)
    ensures fresh(buf) && Some(buf[..]) == EncodeRelayBatch(seqNo, es)
  {
    var count: nat := if |es| < 255 then |es| else 255;
    buf := new byte[4 + count * 6](_ => 0);
    WriteBatchHead(buf, seqNo, count);
    WriteEntries(buf, es, count);
  }

  lemma EncodeOneMore(es: seq<RelayEntry>, i: nat)
    requires i < |es|
    ensures EncodeEntries(es[..i + 1]) == EncodeEntries(es[..i]) + EncodeEntry(es[i])
  {
    assert es[..i + 1][..i] == es[..i];
  }

  /** The two bytes of a forwarded loadout. */
  function EncodeLoadout(loadout: byte): seq<byte> {
    [MSG_SERVER_LOADOUT, loadout]
  }

  // ----- Client side -----

  type int32 = n: int | -0x8000_0000 <= n < 0x8000_0000

  function ToUint32(n: int32): (r: uint32)
    ensures ToInt32(r) == n
  {
    if n >= 0 then n else n + 0x1_0000_0000
  }

  /** The nine bytes of one input; the sequence field is the low half of the frame. */
  function EncodeInput(frame: int32, input: uint16): seq<byte> {
    [MSG_INPUT] + Bytes16(ToUint32(frame) % 0x1_0000) + Bytes32(ToUint32(frame)) + Bytes16(input)
  }

  function EncodeClientLoadout(loadout: byte): seq<byte> {
    [MSG_LOADOUT, loadout]
  }

  // ----- Each side reads what the other wrote -----

  lemma Read16(p: seq<byte>, at: nat, n: uint16)
    requires at + 2 <= |p| && p[at..at + 2] == Bytes16(n)
    ensures LittleEndian16(p, at) == n
  {
    assert p[at..at + 2][0] == p[at] && p[at..at + 2][1] == p[at + 1];
  }

  lemma Split32(n: uint32)
    ensures n == n % 0x100 + n / 0x100 % 0x100 * 0x100 + n / 0x1_0000 % 0x100 * 0x1_0000 + n / 0x100_0000 * 0x100_0000
  {
    assert n / 0x1_0000 == n / 0x100 / 0x100;
    assert n / 0x100_0000 == n / 0x1_0000 / 0x100;
  }

  lemma Read32(p: seq<byte>, at: nat, n: uint32)
    requires at + 4 <= |p| && p[at..at + 4] == Bytes32(n)
    ensures LittleEndian32(p, at) == n
  {
    var b := p[at..at + 4];
    assert b[0] == p[at] && b[1] == p[at + 1] && b[2] == p[at + 2] && b[3] == p[at + 3];
    Split32(n);
  }

  /** The relay decodes a client's input to the frame and input that were sent. */
  lemma InputDecodes(frame: int32, input: uint16, parseBody: seq<byte> -> Option<ClientMsg>)
    ensures DecodeClientMsg(EncodeInput(frame, input), parseBody)
         == Some(Input(ToUint32(frame) % 0x1_0000, ToUint32(frame), input))
  {
    var p := EncodeInput(frame, input);
    assert p[1..3] == Bytes16(ToUint32(frame) % 0x1_0000);
    Read16(p, 1, ToUint32(frame) % 0x1_0000);
    assert p[3..7] == Bytes32(ToUint32(frame));
    Read32(p, 3, ToUint32(frame));
    assert p[7..9] == Bytes16(input);
    Read16(p, 7, input);
  }

  function ClientEntries(es: seq<RelayEntry>): (r: seq<InputEntry>)
    ensures |r| == |es|
  {
    if es == [] then []
    else
      var e := es[|es| - 1];
      ClientEntries(es[..|es| - 1]) + [InputEntry(ToInt32(e.frame), e.input)]
  }

  lemma EntryDecodes(p: seq<byte>, k: nat, e: RelayEntry)
    requires 4 + (k + 1) * 6 <= |p| && p[4 + k * 6..10 + k * 6] == EncodeEntry(e)
    ensures EntryAt(p, k) == InputEntry(ToInt32(e.frame), e.input)
  {
    var q := p[4 + k * 6..10 + k * 6];
    assert q[..4] == Bytes32(e.frame) && q[..4] == p[4 + k * 6..8 + k * 6];
    assert q[4..] == Bytes16(e.input) && q[4..] == p[8 + k * 6..10 + k * 6];
    Read32(p, 4 + k * 6, e.frame);
    Read16(p, 8 + k * 6, e.input);
  }

  lemma {:induction false} EntriesDecode(p: seq<byte>, es: seq<RelayEntry>)
    requires |p| >= 4 + |es| * 6 && p[4..4 + |es| * 6] == EncodeEntries(es)
    ensures BatchEntries(p, |es|) == ClientEntries(es)
    decreases |es|
  {
    if es != [] {
      var n := |es| - 1;
      var body := p[4..10 + n * 6];
      assert body == EncodeEntries(es[..n]) + EncodeEntry(es[n]);
      assert body[..n * 6] == p[4..4 + n * 6] && body[n * 6..] == p[4 + n * 6..10 + n * 6];
      EntryDecodes(p, n, es[n]);
      EntriesDecode(p, es[..n]);
    }
  }

  /** A batch of few enough inputs is the head and the encoding of all of them. */
  lemma BatchOf(seqNo: uint16, es: seq<RelayEntry>)
    requires |es| <= 255
    ensures EncodeRelayBatch(seqNo, es) == Some(BatchHead(seqNo, |es|) + EncodeEntries(es))
  {
    assert es[..|es|] == es;
  }

  lemma HeadAndBody(p: seq<byte>, head: seq<byte>, body: seq<byte>, n: nat)
    requires p == head + body && |head| == 4 && |body| == n
    ensures |p| == 4 + n && p[0] == head[0] && p[3] == head[3] && p[4..4 + n] == body
  {
  }

  lemma BatchShape(p: seq<byte>, head: seq<byte>, es: seq<RelayEntry>)
    requires p == head + EncodeEntries(es) && |head| == 4 && head[0] == MSG_INPUT_BATCH && head[3] == |es|
    ensures |p| == 4 + |es| * 6 && p[0] == MSG_INPUT_BATCH && p[3] == |es| && p[4..4 + |es| * 6] == EncodeEntries(es)
  {
    HeadAndBody(p, head, EncodeEntries(es), |es| * 6);
  }

  lemma BatchHeader(c: Core, p: seq<byte>, n: nat)
    requires |p| == 4 + n * 6 && p[0] == MSG_INPUT_BATCH && p[3] == n
    ensures Dispatch(c, p) == c.(confirmed := c.confirmed + BatchEntries(p, n))
  {
  }

  /** A batch of at most 255 inputs confirms exactly those inputs, in order, on the client. */
  lemma BatchDispatches(c: Core, seqNo: uint16, es: seq<RelayEntry>)
    requires |es| <= 255
    ensures Dispatch(c, EncodeRelayBatch(seqNo, es).value)
         == c.(confirmed := c.confirmed + ClientEntries(es))
  {
    BatchOf(seqNo, es);
    var p := EncodeRelayBatch(seqNo, es).value;
    BatchShape(p, BatchHead(seqNo, |es|), es);
    EntriesDecode(p, es);
    BatchHeader(c, p, |es|);
  }

  /** A batch is the same as one of the inputs it has room for. */
  lemma BatchOfCarried(seqNo: uint16, es: seq<RelayEntry>)
    ensures |Carried(es)| <= 255 && EncodeRelayBatch(seqNo, es) == EncodeRelayBatch(seqNo, Carried(es))
  {
    var kept := Carried(es);
    assert kept[..|kept|] == kept;
    assert es[..|kept|] == kept;
  }

  lemma AllCarriedExactly(es: seq<RelayEntry>)
    ensures ClientEntries(Carried(es)) == ClientEntries(es) <==> |es| <= 255
  {
    if |es| == 255 {
      assert Carried(es) == es;
    }
  }

  /** What is written for any inputs is read back as those the batch has room for, so nothing is
      lost if and only if there are at most 255. */
  lemma BatchReadsBackExactly(c: Core, seqNo: uint16, es: seq<RelayEntry>)
    ensures var c' := Dispatch(c, EncodeRelayBatch(seqNo, es).value);
            && c' == c.(confirmed := c.confirmed + ClientEntries(Carried(es)))
            && (c'.confirmed == c.confirmed + ClientEntries(es) <==> |es| <= 255)
  {
    BatchOfCarried(seqNo, es);
    BatchDispatches(c, seqNo, Carried(es));
    AllCarriedExactly(es);
    SameTail(c.confirmed, ClientEntries(Carried(es)), ClientEntries(es));
  }

  lemma SameTail<T>(s: seq<T>, a: seq<T>, b: seq<T>)
    ensures s + a == s + b <==> a == b
  {
    assert (s + a)[|s|..] == a && (s + b)[|s|..] == b;
  }

  /** An input of one client, decoded and batched by the relay, is confirmed on the other client
      with the same frame and input, for every 32-bit frame. */
  lemma InputCrossesTheWire(c: Core, seqNo: uint16, frame: int32, input: uint16,
      parseBody: seq<byte> -> Option<ClientMsg>)
    ensures match DecodeClientMsg(EncodeInput(frame, input), parseBody)
            case Some(Input(_, f, i)) =>
              Dispatch(c, EncodeRelayBatch(seqNo, [RelayEntry(f, i)]).value)
              == c.(confirmed := c.confirmed + [InputEntry(frame, input)])
            case _ => false
  {
    InputDecodes(frame, input, parseBody);
    var es := [RelayEntry(ToUint32(frame), input)];
    assert es[..0] == [];
    assert ClientEntries(es) == ClientEntries(es[..0]) + [InputEntry(frame, input)];
    BatchDispatches(c, seqNo, es);
  }

  /** A loadout crosses the relay unchanged and sets nothing else. */
  lemma LoadoutCrossesTheWire(c: Core, loadout: byte, parseBody: seq<byte> -> Option<ClientMsg>)
    ensures match DecodeClientMsg(EncodeClientLoadout(loadout), parseBody)
            case Some(Loadout(b)) => Dispatch(c, EncodeLoadout(b)) == c.(opponentLoadout := loadout)
            case _ => false
  {
  }

  /** A game-level ping is answered once, with the timestamp it carried, by what the relay decodes
      as a pong; nothing else changes. */
  lemma PingIsAnswered(c: Core, timestamp: seq<byte>, parseBody: seq<byte> -> Option<ClientMsg>)
    requires |timestamp| == 8
    ensures var c' := Dispatch(c, [MSG_PING] + timestamp);
            && |c'.outbox| == |c.outbox| + 1 && c' == c.(outbox := c'.outbox) && c.outbox <= c'.outbox
            && c'.outbox[|c.outbox|].Binary?
            && c'.outbox[|c.outbox|].payload[1..] == timestamp
            && DecodeClientMsg(c'.outbox[|c.outbox|].payload, parseBody) == Some(Pong)
  {
    assert ([MSG_PING] + timestamp)[1..9] == timestamp;
    assert ([MSG_PONG] + timestamp)[1..] == timestamp;
  }
}

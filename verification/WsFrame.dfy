/** WebSocket frames as the client writes and reads them (sections 5.2 and 5.3 of RFC 6455). */
module WsFrame {
  import opened Bytes

  /** Capacity of the receive buffer. */
  const RECV_CAP: nat := 65536

  // ----- Reading -----

  /** A decoded frame header: `size` counts the header bytes including the mask key. */
  datatype Header = Header(opcode: nat, masked: bool, size: nat, len: nat)

  /** What one attempt to parse the front of the buffer gives. */
  datatype Parsed =
    | Incomplete
    | TooLarge
    | Frame(opcode: nat, payload: seq<byte>, consumed: nat)

  /** The big-endian number in b[lo..hi], most significant byte first. */
  function BigEndian(b: seq<byte>, lo: nat, hi: nat): nat
    requires lo <= hi <= |b|
  {
    if lo == hi then 0 else BigEndian(b, lo, hi - 1) * 256 + b[hi - 1]
  }

  /** The header at the front of b, once enough bytes have arrived to read the length field. */
  function ParseHeader(b: seq<byte>): (r: Option<Header>)
    ensures r.Some? ==> |b| >= 2 && 2 <= r.value.size <= 14
  {
    if |b| < 2 then None
    else
      var masked := b[1] / 128 == 1;
      var key := if masked then 4 else 0;
      var short := b[1] % 128;
      if short == 126 then
        if |b| < 4 then None else Some(Header(b[0] % 16, masked, 4 + key, BigEndian(b, 2, 4)))
      else if short == 127 then
        if |b| < 10 then None else Some(Header(b[0] % 16, masked, 10 + key, BigEndian(b, 2, 10)))
      else Some(Header(b[0] % 16, masked, 2 + key, short))
  }

  /** The payload under a 4-byte mask key. */
  function ApplyMask(p: seq<byte>, key: seq<byte>): (r: seq<byte>)
    requires |key| == 4
    ensures |r| == |p|
    ensures forall j :: 0 <= j < |p| ==> r[j] == Xor(p[j], key[j % 4])
  {
    seq(|p|, j requires 0 <= j < |p| => Xor(p[j], key[j % 4]))
  }

  function Payload(b: seq<byte>, h: Header): (p: seq<byte>)
    requires h.size + h.len <= |b| && (h.masked ==> h.size >= 4)
    ensures |p| == h.len
  {
    var raw := b[h.size..h.size + h.len];
    if h.masked then ApplyMask(raw, b[h.size - 4..h.size]) else raw
  }

  /** One parse of the buffer contents: the size test compares a 32-bit signed
      conversion of the frame size with the number of buffered bytes. */
  function Parse(b: seq<byte>): (r: Parsed)
    ensures r.Frame? ==> 2 <= r.consumed <= |b| && r.consumed <= RECV_CAP && |r.payload| < r.consumed
  {
    match ParseHeader(b)
    case None => Incomplete
    case Some(h) =>
      var total := h.size + h.len;
      if ToInt32(total) > |b| then Incomplete
      else if total > RECV_CAP then TooLarge
      else Frame(h.opcode, Payload(b, h), total)
  }

  // ----- Writing -----

  /** The first bytes of a client frame: FIN and opcode 2, then the MASK bit and the length. */
  function EncodeHeader(n: nat): (r: seq<byte>)
    requires n < 0x1_0000_0000
    ensures 2 <= |r| <= 10
  {
    if n <= 125 then [0x82, 0x80 + n]
    else if n <= 65535 then [0x82, 0x80 + 126, n / 0x100, n % 0x100]
    else [0x82, 0x80 + 127, 0, 0, 0, 0,
          n / 0x100_0000, n / 0x1_0000 % 0x100, n / 0x100 % 0x100, n % 0x100]
  }

  function EncodeFrame(payload: seq<byte>, key: seq<byte>): seq<byte>
    requires |payload| < 0x1_0000_0000 && |key| == 4
  {
    EncodeHeader(|payload|) + key + ApplyMask(payload, key)
  }

  /** s with the bytes from index at on replaced by part. */
  ghost function Overwrite(s: seq<byte>, at: nat, part: seq<byte>): (r: seq<byte>)
    requires at + |part| <= |s|
    ensures |r| == |s|
  {
    s[..at] + part + s[at + |part|..]
  }

  /** Writing two parts side by side writes their concatenation. */
  lemma OverwriteAppend(s: seq<byte>, at: nat, a: seq<byte>, b: seq<byte>)
    requires at + |a| + |b| <= |s|
    ensures Overwrite(Overwrite(s, at, a), at + |a|, b) == Overwrite(s, at, a + b)
  {
    var once := Overwrite(s, at, a);
    assert once[..at + |a|] == s[..at] + a;
    assert once[at + |a| + |b|..] == s[at + |a| + |b|..];
    assert Overwrite(once, at + |a|, b) == s[..at] + a + b + s[at + |a| + |b|..];
    assert s[..at] + a + b == s[..at] + (a + b);
  }

  /** Writes the header bytes at the front of dst. */
  method WriteHeader(dst: array<byte>, n: nat) returns (i: nat)
    requires n < 0x8000_0000 && 10 <= dst.Length
    modifies dst
    ensures i == |EncodeHeader(n)| && dst[..] == Overwrite(old(dst[..]), 0, EncodeHeader(n))
  {
    dst[0] := 0x82;
    if n <= 125 {
      dst[1] := 0x80 + n;
      i := 2;
    } else if n <= 65535 {
      dst[1] := 0x80 + 126;
      dst[2] := n / 0x100;
      dst[3] := n % 0x100;
      i := 4;
    } else {
      dst[1] := 0x80 + 127;
      dst[2], dst[3], dst[4], dst[5] := 0, 0, 0, 0;
      dst[6] := n / 0x100_0000;
      dst[7] := n / 0x1_0000 % 0x100;
      dst[8] := n / 0x100 % 0x100;
      dst[9] := n % 0x100;
      i := 10;
    }
    assert dst[..i] == EncodeHeader(n);
    assert dst[i..] == old(dst[i..]);
    assert dst[..] == dst[..i] + dst[i..];
  }

  method WriteKey(dst: array<byte>, at: nat, key: seq<byte>)
    requires |key| == 4 && at + 4 <= dst.Length
    modifies dst
    ensures dst[..] == Overwrite(old(dst[..]), at, key)
  {
    dst[at], dst[at + 1], dst[at + 2], dst[at + 3] := key[0], key[1], key[2], key[3];
  }

  /** A sequence that agrees with s outside part's place and with part there. */
  lemma IsOverwrite(t: seq<byte>, s: seq<byte>, at: nat, part: seq<byte>)
    requires |t| == |s| && at + |part| <= |s|
    requires forall k :: 0 <= k < |part| ==> t[at + k] == part[k]
    requires forall k :: 0 <= k < at || at + |part| <= k < |s| ==> t[k] == s[k]
    ensures t == Overwrite(s, at, part)
  {
    assert t == t[..at] + t[at..at + |part|] + t[at + |part|..];
    assert t[at..at + |part|] == part;
    assert t[..at] == s[..at] && t[at + |part|..] == s[at + |part|..];
  }

  /** Writes the masked payload at dst[at..]. */
  method WriteMasked(dst: array<byte>, at: nat, payload: seq<byte>, key: seq<byte>)
    requires |key| == 4 && at + |payload| <= dst.Length
    modifies dst
    ensures dst[..] == Overwrite(old(dst[..]), at, ApplyMask(payload, key))
  {
    var j := 0;
    while j < |payload|
      invariant 0 <= j <= |payload|
      invariant forall k :: 0 <= k < j ==> dst[at + k] == Xor(payload[k], key[k % 4])
      invariant forall k :: 0 <= k < at || at + j <= k < dst.Length ==> dst[k] == old(dst[k])
    {
      dst[at + j] := Xor(payload[j], key[j % 4]);
      j := j + 1;
    }
    IsOverwrite(dst[..], old(dst[..]), at, ApplyMask(payload, key));
  }

  /** Writes a masked binary frame at the front of dst and returns its length. The source takes
      the key from the clock; here it is a parameter. */
  method WriteFrame(dst: array<byte>, payload: seq<byte>, key: seq<byte>) returns (i: nat)
    requires |key| == 4 && |payload| + 14 <= dst.Length && |payload| + 14 < 0x8000_0000
    modifies dst
    ensures i == |EncodeFrame(payload, key)|
    ensures dst[..] == Overwrite(old(dst[..]), 0, EncodeFrame(payload, key))
  {
    ghost var before, head, body := dst[..], EncodeHeader(|payload|), ApplyMask(payload, key);
    i := WriteHeader(dst, |payload|);
    WriteKey(dst, i, key);
    OverwriteAppend(before, 0, head, key);
    i := i + 4;
    WriteMasked(dst, i, payload, key);
    OverwriteAppend(before, 0, head + key, body);
    i := i + |payload|;
  }

  // ----- The reader undoes the writer -----

  lemma ApplyMaskTwice(p: seq<byte>, key: seq<byte>)
    requires |key| == 4
    ensures ApplyMask(ApplyMask(p, key), key) == p
  {
    forall j | 0 <= j < |p|
      ensures ApplyMask(ApplyMask(p, key), key)[j] == p[j]
    {
      XorInvolution(p[j], key[j % 4]);
    }
  }

  lemma BigEndian16(b: seq<byte>, n: nat)
    requires |b| >= 4 && n < 0x1_0000 && b[2] == n / 0x100 && b[3] == n % 0x100
    ensures BigEndian(b, 2, 4) == n
  {
    assert BigEndian(b, 2, 2) == 0;
    assert BigEndian(b, 2, 3) == n / 0x100;
  }

  lemma BigEndianZeros(b: seq<byte>)
    requires |b| >= 6 && b[2] == b[3] == b[4] == b[5] == 0
    ensures BigEndian(b, 2, 6) == 0
  {
    assert BigEndian(b, 2, 3) == 0;
    assert BigEndian(b, 2, 4) == 0;
    assert BigEndian(b, 2, 5) == 0;
  }

  lemma Digits32(n: nat)
    requires n < 0x1_0000_0000
    ensures n / 0x100_0000 < 0x100
    ensures n / 0x1_0000 == n / 0x100_0000 * 0x100 + n / 0x1_0000 % 0x100
    ensures n / 0x100 == n / 0x1_0000 * 0x100 + n / 0x100 % 0x100
    ensures n == n / 0x100 * 0x100 + n % 0x100
  {
  }

  /** The eight length bytes of a payload below 2^32. */
  lemma BigEndian64(b: seq<byte>, n: nat)
    requires |b| >= 10 && n < 0x1_0000_0000 && b[2] == b[3] == b[4] == b[5] == 0
    requires b[6] == n / 0x100_0000 && b[7] == n / 0x1_0000 % 0x100 && b[8] == n / 0x100 % 0x100 && b[9] == n % 0x100
    ensures BigEndian(b, 2, 10) == n
  {
    Digits32(n);
    BigEndianZeros(b);
    assert BigEndian(b, 2, 7) == n / 0x100_0000;
    assert BigEndian(b, 2, 8) == n / 0x1_0000;
    assert BigEndian(b, 2, 9) == n / 0x100;
  }

  /** The header written for a payload of n bytes is read back in all three length encodings. */
  lemma HeaderRoundTrip(n: nat, key: seq<byte>, rest: seq<byte>)
    requires n < 0x1_0000_0000 && |key| == 4
    ensures ParseHeader(EncodeHeader(n) + key + rest)
         == Some(Header(2, true, |EncodeHeader(n)| + 4, n))
  {
    var e := EncodeHeader(n);
    var b := e + key + rest;
    assert forall j :: 0 <= j < |e| ==> b[j] == e[j];
    assert b[0] % 16 == 2;
    if n <= 125 {
    } else if n <= 65535 {
      BigEndian16(b, n);
    } else {
      BigEndian64(b, n);
    }
  }

  lemma EncodedHeader(payload: seq<byte>, key: seq<byte>, rest: seq<byte>)
    requires |payload| < 0x1_0000_0000 && |key| == 4
    ensures ParseHeader(EncodeFrame(payload, key) + rest)
         == Some(Header(2, true, |EncodeHeader(|payload|)| + 4, |payload|))
  {
    HeaderRoundTrip(|payload|, key, ApplyMask(payload, key) + rest);
    assert EncodeFrame(payload, key) + rest
        == EncodeHeader(|payload|) + key + (ApplyMask(payload, key) + rest);
  }

  /** Parsing an encoded frame followed by any bytes gives back opcode 2, the payload and the
      exact frame length, for every frame that fits the receive buffer. */
  lemma ParseUndoesEncode(payload: seq<byte>, key: seq<byte>, rest: seq<byte>)
    requires |key| == 4 && |payload| < 0x1_0000_0000
    requires |EncodeFrame(payload, key)| <= RECV_CAP
    ensures Parse(EncodeFrame(payload, key) + rest)
         == Frame(2, payload, |EncodeFrame(payload, key)|)
  {
    var f := EncodeFrame(payload, key);
    var b := f + rest;
    EncodedHeader(payload, key, rest);
    var h := ParseHeader(b).value;
    assert b[h.size - 4..h.size] == key;
    assert b[h.size..h.size + h.len] == ApplyMask(payload, key);
    ApplyMaskTwice(payload, key);
  }

  // ----- Parsing is stable under more input -----

  lemma {:induction false} BigEndianStable(b: seq<byte>, more: seq<byte>, lo: nat, hi: nat)
    requires lo <= hi <= |b|
    ensures BigEndian(b + more, lo, hi) == BigEndian(b, lo, hi)
  {
    if lo < hi {
      BigEndianStable(b, more, lo, hi - 1);
    }
  }

  lemma HeaderStable(b: seq<byte>, more: seq<byte>)
    requires ParseHeader(b).Some?
    ensures ParseHeader(b + more) == ParseHeader(b)
  {
    if |b| >= 4 {
      BigEndianStable(b, more, 2, 4);
    }
    if |b| >= 10 {
      BigEndianStable(b, more, 2, 10);
    }
  }

  lemma PayloadStable(b: seq<byte>, more: seq<byte>, h: Header)
    requires h.size + h.len <= |b| && (h.masked ==> h.size >= 4)
    ensures Payload(b + more, h) == Payload(b, h)
  {
    assert (b + more)[h.size..h.size + h.len] == b[h.size..h.size + h.len];
    if h.masked {
      assert (b + more)[h.size - 4..h.size] == b[h.size - 4..h.size];
    }
  }

  /** A complete frame is the same frame whatever bytes follow it. */
  lemma ParseStable(b: seq<byte>, more: seq<byte>)
    requires Parse(b).Frame?
    ensures Parse(b + more) == Parse(b)
  {
    HeaderStable(b, more);
    PayloadStable(b, more, ParseHeader(b).value);
  }

  /** Every strict prefix of a frame that fits the buffer is reported incomplete. */
  lemma StrictPrefixIncomplete(b: seq<byte>, k: nat)
    requires Parse(b).Frame? && k < Parse(b).consumed
    ensures Parse(b[..k]) == Incomplete
  {
    var p := b[..k];
    if ParseHeader(p).Some? {
      assert b == p + b[k..];
      HeaderStable(p, b[k..]);
    }
  }

  /** The size test as written: a frame of 65537 up to 2^31 - 1 bytes is never refused, it stays
      "incomplete" for as long as the buffer can hold its bytes; TooLarge needs the 32-bit
      conversion of the size to wrap. */
  lemma TooLargeExactly(b: seq<byte>)
    requires |b| <= RECV_CAP
    ensures Parse(b) == TooLarge <==>
            exists h :: ParseHeader(b) == Some(h)
                     && h.size + h.len > RECV_CAP && ToInt32(h.size + h.len) <= |b|
    ensures forall h :: ParseHeader(b) == Some(h) && RECV_CAP < h.size + h.len < 0x8000_0000
                 ==> Parse(b) == Incomplete
  {
  }

  /** A frame longer than the receive buffer is never taken, whatever part of it is buffered. */
  lemma OversizedFrameNeverRead(payload: seq<byte>, key: seq<byte>, k: nat)
    requires |key| == 4 && |payload| + 14 < 0x8000_0000
    requires RECV_CAP < |EncodeFrame(payload, key)| && k <= RECV_CAP
    ensures Parse(EncodeFrame(payload, key)[..k]) == Incomplete
  {
    var f := EncodeFrame(payload, key);
    assert f + [] == f;
    EncodedHeader(payload, key, []);
    if ParseHeader(f[..k]).Some? {
      assert f == f[..k] + f[k..];
      HeaderStable(f[..k], f[k..]);
    }
  }
}

/**
 WebSocket frames as the echo validator writes and reads them: sections 5.2
 (base framing) and 5.3 (masking) of RFC 6455, over a socket that hands out
 its bytes in pieces of any size.

 Bytes are numbers below 256 and the bit operations on them are arithmetic:
 `0x80 | b` is `WithTopBit(b)`, `b & 0x7F` is `b % 128`, `b & 0x0F` is `b % 16`.
 */
module WebSocketFrames {
  import opened Basics

  const LENGTH_LIMIT: nat := 0x1_0000_0000_0000_0000

  datatype Frame = Frame(opcode: Byte, payload: Bytes)

  /** A frame, and what the stream holds after it. */
  datatype Decoded = Decoded(frame: Frame, rest: Bytes)

  function Pow256(width: nat): (p: nat)
    ensures p > 0
  {
    if width == 0 then 1 else 256 * Pow256(width - 1)
  }

  /** `struct.pack("!...")`: big-endian, `width` bytes. */
  function Pack(n: nat, width: nat): (b: Bytes)
    requires n < Pow256(width)
    ensures |b| == width
  {
    if width == 0 then [] else Pack(n / 256, width - 1) + [n % 256]
  }

  function Unpack(b: Bytes): nat {
    if b == [] then 0 else 256 * Unpack(b[..|b| - 1]) + b[|b| - 1]
  }

  /** Exclusive or of the low `bits` bits. */
  function XorBits(a: nat, b: nat, bits: nat): nat {
    if bits == 0 then 0
    else 2 * XorBits(a / 2, b / 2, bits - 1) + if a % 2 == b % 2 then 0 else 1
  }

  lemma {:induction false} XorFits(a: nat, b: nat, bits: nat, limit: nat)
    requires limit == Pow2(bits)
    ensures XorBits(a, b, bits) < limit
  {
    if bits > 0 {
      XorFits(a / 2, b / 2, bits - 1, limit / 2);
    }
  }

  function Pow2(n: nat): nat {
    if n == 0 then 1 else 2 * Pow2(n - 1)
  }

  function Xor(a: Byte, b: Byte): Byte {
    XorFits(a, b, 8, 256);
    XorBits(a, b, 8)
  }

  function WithTopBit(b: Byte): Byte {
    if b < 128 then b + 128 else b
  }

  function Mask(data: Bytes, key: Bytes): (r: Bytes)
    requires |key| == 4
    ensures |r| == |data|
  {
    seq(|data|, i requires 0 <= i < |data| => Xor(data[i], key[i % 4]))
  }

  function LengthWidth(length: nat): nat {
    if length < 126 then 0 else if length < 65536 then 2 else 8
  }

  /** The second byte without its mask bit: the length itself or an escape. */
  function ShortLength(length: nat): (b: Byte)
    ensures b < 128
  {
    if length < 126 then length else if length < 65536 then 126 else 127
  }

  function SecondByte(length: nat, masked: bool): Byte {
    if masked then WithTopBit(ShortLength(length)) else ShortLength(length)
  }

  /** The bytes of one frame. */
  function Encode(f: Frame, key: Option<Bytes>): Bytes
    requires |f.payload| < LENGTH_LIMIT && (key.Some? ==> |key.value| == 4)
  {
    var n := |f.payload|;
    [WithTopBit(f.opcode), SecondByte(n, key.Some?)]
    + LengthBytes(n)
    + (if key.Some? then key.value + Mask(f.payload, key.value) else f.payload)
  }

  function LengthBytes(length: nat): (b: Bytes)
    requires length < LENGTH_LIMIT
    ensures |b| == LengthWidth(length)
  {
    assert Pow256(8) == LENGTH_LIMIT && Pow256(2) == 65536 && Pow256(0) == 1 by {
      PowersOf256();
    }
    if length < 126 then [] else Pack(length, LengthWidth(length))
  }

  lemma PowersOf256()
    ensures Pow256(0) == 1 && Pow256(2) == 65536 && Pow256(8) == LENGTH_LIMIT
  {
    assert Pow256(1) == 256;
    assert Pow256(3) == 256 * 65536;
    assert Pow256(4) == 256 * Pow256(3);
    assert Pow256(5) == 256 * Pow256(4);
    assert Pow256(6) == 256 * Pow256(5);
    assert Pow256(7) == 256 * Pow256(6);
  }

  /** How many bytes of extended length the second byte announces. */
  function ExtraWidth(second: Byte): (w: nat)
    ensures w == 0 || w == 2 || w == 8
  {
    if second % 128 == 126 then 2 else if second % 128 == 127 then 8 else 0
  }

  predicate HasLength(stream: Bytes) {
    |stream| >= 2 && |stream| >= 2 + ExtraWidth(stream[1])
  }

  function PayloadLength(stream: Bytes): nat
    requires HasLength(stream)
  {
    if ExtraWidth(stream[1]) == 0 then stream[1] % 128
    else Unpack(stream[2..2 + ExtraWidth(stream[1])])
  }

  function KeyWidth(masked: bool): nat {
    if masked then 4 else 0
  }

  /** A payload of n bytes, behind its key if there is one. */
  function DecodePayload(opcode: Byte, masked: bool, n: nat, after: Bytes): Option<Decoded> {
    if |after| < KeyWidth(masked) + n then None
    else
      var payload := if masked then Mask(after[4..4 + n], after[..4]) else after[..n];
      Some(Decoded(Frame(opcode, payload), after[KeyWidth(masked) + n..]))
  }

  /** The first frame of a stream that holds one. */
  function Decode(stream: Bytes): Option<Decoded> {
    if !HasLength(stream) then None
    else DecodePayload(
      stream[0] % 16, stream[1] >= 128, PayloadLength(stream), stream[2 + ExtraWidth(stream[1])..])
  }

  // ---- The socket and the two sides -------------------------------------------

  datatype Failure = TimedOut | Disconnected

  class Socket {
    var incoming: Bytes
    var sent: Bytes
    const closes: bool  // what the peer does once its bytes are used up: close, or stay silent

    constructor (incoming: Bytes, closes: bool)
      ensures this.incoming == incoming && this.closes == closes && sent == []
    {
      this.incoming, this.closes, sent := incoming, closes, [];
    }

    function Exhausted(): Failure {
      if closes then Disconnected else TimedOut
    }

    method SendAll(data: Bytes)
      modifies this
      ensures sent == old(sent) + data && incoming == old(incoming)
    {
      sent := sent + data;
    }

    /** Any non-empty piece of what is there; nothing at the end of a closed stream. */
    method Recv(max: nat) returns (r: Result<Bytes, Failure>)
      requires max > 0
      modifies this
      ensures sent == old(sent)
      ensures old(incoming) == [] ==> incoming == [] && r == if closes then Ok([]) else Err(TimedOut)
      ensures old(incoming) != [] ==>
        r.Ok? && 0 < |r.value| <= max && old(incoming) == r.value + incoming
    {
      if incoming == [] {
        return if closes then Ok([]) else Err(TimedOut);
      }
      var limit := if max < |incoming| then max else |incoming|;
      var k: nat :| 0 < k <= limit;
      r := Ok(incoming[..k]);
      incoming := incoming[k..];
    }
  }

  lemma SecondByteSum(length: nat, masked: bool)
    ensures SecondByte(length, masked) == (if masked then 128 else 0) + ShortLength(length)
  {
  }

  method SendFrame(sock: Socket, f: Frame, key: Option<Bytes>)
    requires |f.payload| < LENGTH_LIMIT && (key.Some? ==> |key.value| == 4)
    modifies sock
    ensures sock.sent == old(sock.sent) + Encode(f, key) && sock.incoming == old(sock.incoming)
  {
    hide Pow256, Pack, Mask, WithTopBit, SecondByte;
    PowersOf256();
    SecondByteSum(|f.payload|, key.Some?);
    var header: Bytes := [WithTopBit(f.opcode)];
    var length := |f.payload|;
    var maskBit := if key.Some? then 128 else 0;
    if length < 126 {
      header := header + [maskBit + length];
    } else if length < 65536 {
      header := header + [maskBit + 126] + Pack(length, 2);
    } else {
      header := header + [maskBit + 127] + Pack(length, 8);
    }
    assert header == [WithTopBit(f.opcode), SecondByte(length, key.Some?)] + LengthBytes(length);
    if key.Some? {
      header := header + key.value;
      sock.SendAll(header + Mask(f.payload, key.value));
    } else {
      sock.SendAll(header + f.payload);
    }
  }

  /** Exactly n bytes, however the stream is cut, or everything and a failure. */
  method RecvExact(sock: Socket, n: nat) returns (r: Result<Bytes, Failure>)
    modifies sock
    ensures sock.sent == old(sock.sent)
    ensures n <= |old(sock.incoming)| ==> r == Ok(old(sock.incoming)[..n]) && sock.incoming == old(sock.incoming)[n..]
    ensures n > |old(sock.incoming)| ==> r == Err(sock.Exhausted()) && sock.incoming == []
  {
    var buf: Bytes := [];
    while |buf| < n
      invariant |buf| <= n && buf + sock.incoming == old(sock.incoming) && sock.sent == old(sock.sent)
    {
      var piece := sock.Recv(n - |buf|);
      if piece.Err? {
        return piece;
      }
      if piece.value == [] {
        return Err(Disconnected);
      }
      buf := buf + piece.value;
    }
    r := Ok(buf);
  }

  lemma SliceOfDrop(s: Bytes, from: nat, n: nat)
    ensures from + n <= |s| ==> s[from..][..n] == s[from..from + n] && s[from..][n..] == s[from + n..]
  {
  }

  /** The payload length announced by the second byte, extended bytes included. */
  method RecvLength(sock: Socket, second: Byte) returns (r: Result<nat, Failure>)
    modifies sock
    ensures sock.sent == old(sock.sent)
    ensures var w := ExtraWidth(second);
      if |old(sock.incoming)| < w then r == Err(sock.Exhausted()) && sock.incoming == []
      else
        && sock.incoming == old(sock.incoming)[w..]
        && r == Ok(if w == 0 then second % 128 else Unpack(old(sock.incoming)[..w]))
  {
    if second % 128 == 126 {
      var ext := RecvExact(sock, 2);
      return if ext.Ok? then Ok(Unpack(ext.value)) else Err(ext.error);
    } else if second % 128 == 127 {
      var ext := RecvExact(sock, 8);
      return if ext.Ok? then Ok(Unpack(ext.value)) else Err(ext.error);
    }
    r := Ok(second % 128);
  }

  /** The payload, unmasked if a key precedes it. */
  method RecvPayload(sock: Socket, opcode: Byte, masked: bool, length: nat) returns (r: Result<Frame, Failure>)
    modifies sock
    ensures sock.sent == old(sock.sent)
    ensures match DecodePayload(opcode, masked, length, old(sock.incoming))
      case Some(d) => r == Ok(d.frame) && sock.incoming == d.rest
      case None => r == Err(sock.Exhausted()) && sock.incoming == []
  {
    ghost var stream := sock.incoming;
    var key: Result<Bytes, Failure> := Ok([]);
    if masked {
      key := RecvExact(sock, 4);
      if key.Err? {
        return Err(key.error);
      }
      SliceOfDrop(stream, 4, length);
    }
    var raw := RecvExact(sock, length);
    if raw.Err? {
      return Err(raw.error);
    }
    r := Ok(Frame(opcode, if masked then Mask(raw.value, key.value) else raw.value));
  }

  /** The first frame of the stream, stopping at its last byte; a failure exactly
      when the stream does not hold a whole frame. */
  method RecvFrame(sock: Socket) returns (r: Result<Frame, Failure>)
    modifies sock
    ensures sock.sent == old(sock.sent)
    ensures match Decode(old(sock.incoming))
      case Some(d) => r == Ok(d.frame) && sock.incoming == d.rest
      case None => r == Err(if sock.closes then Disconnected else TimedOut) && sock.incoming == []
  {
    ghost var stream := sock.incoming;
    var head := RecvExact(sock, 2);
    if head.Err? {
      return Err(head.error);
    }
    var opcode, second := head.value[0] % 16, head.value[1];
    SliceOfDrop(stream, 2, ExtraWidth(second));
    var length := RecvLength(sock, second);
    if length.Err? {
      return Err(length.error);
    }
    r := RecvPayload(sock, opcode, second >= 128, length.value);
  }

  // ---- Round trips ------------------------------------------------------------

  lemma SliceOfConcat(a: Bytes, b: Bytes, c: Bytes)
    ensures (a + b + c)[|a|..|a| + |b|] == b && (a + b + c)[|a| + |b|..] == c
  {
  }

  lemma {:induction false} UnpackPack(n: nat, width: nat)
    requires n < Pow256(width)
    ensures Unpack(Pack(n, width)) == n
  {
    if width > 0 {
      UnpackPack(n / 256, width - 1);
      var front := Pack(n / 256, width - 1);
      assert Pack(n, width)[..width - 1] == front;
    }
  }

  /** The byte of n at a place, the least significant one at place 0. */
  function ByteAt(n: nat, place: nat): Byte {
    if place == 0 then n % 256 else ByteAt(n / 256, place - 1)
  }

  /** Network byte order: the most significant byte comes first. */
  lemma {:induction false} MostSignificantFirst(n: nat, width: nat, k: nat)
    requires n < Pow256(width) && k < width
    ensures Pack(n, width)[k] == ByteAt(n, width - 1 - k)
  {
    if k < width - 1 {
      MostSignificantFirst(n / 256, width - 1, k);
    }
  }

  lemma MaskTwice(data: Bytes, key: Bytes)
    requires |key| == 4
    ensures Mask(Mask(data, key), key) == data
  {
    forall i | 0 <= i < |data| ensures Xor(Xor(data[i], key[i % 4]), key[i % 4]) == data[i] {
      XorTwice(data[i], key[i % 4], 8, 256);
    }
  }

  predicate Bit(n: nat, k: nat) {
    if k == 0 then n % 2 == 1 else Bit(n / 2, k - 1)
  }

  /** Bit k counts 2 to the k, so the bits tell the number. */
  lemma {:induction false} BitsTell(n: nat, bits: nat, limit: nat)
    requires limit == Pow2(bits) && n < limit
    ensures n == BitSum(n, bits)
  {
    if bits > 0 {
      BitsTell(n / 2, bits - 1, limit / 2);
      BitSumHalves(n, bits);
    }
  }

  function BitSum(n: nat, bits: nat): nat {
    if bits == 0 then 0 else BitSum(n, bits - 1) + if Bit(n, bits - 1) then Pow2(bits - 1) else 0
  }

  lemma {:induction false} BitSumHalves(n: nat, bits: nat)
    requires bits > 0
    ensures BitSum(n, bits) == 2 * BitSum(n / 2, bits - 1) + n % 2
  {
    if bits == 1 {
      assert BitSum(n, 0) == 0 && BitSum(n / 2, 0) == 0;
    } else {
      BitSumHalves(n, bits - 1);
      assert Bit(n, bits - 1) == Bit(n / 2, bits - 2) && Pow2(bits - 1) == 2 * Pow2(bits - 2);
    }
  }

  /** A bit of the exclusive or is set exactly if the bits of the two differ. */
  lemma {:induction false} XorBitByBit(a: nat, b: nat, bits: nat, k: nat)
    requires k < bits
    ensures Bit(XorBits(a, b, bits), k) <==> Bit(a, k) != Bit(b, k)
  {
    Halve(XorBits(a / 2, b / 2, bits - 1), if a % 2 == b % 2 then 0 else 1);
    if k > 0 {
      XorBitByBit(a / 2, b / 2, bits - 1, k - 1);
    }
  }

  lemma Halve(high: nat, low: nat)
    requires low < 2
    ensures (2 * high + low) / 2 == high && (2 * high + low) % 2 == low
  {
  }

  lemma {:induction false} XorTwice(a: nat, b: nat, bits: nat, limit: nat)
    requires limit == Pow2(bits) && a < limit
    ensures XorBits(XorBits(a, b, bits), b, bits) == a
  {
    if bits > 0 {
      var high, low := XorBits(a / 2, b / 2, bits - 1), if a % 2 == b % 2 then 0 else 1;
      XorTwice(a / 2, b / 2, bits - 1, limit / 2);
      assert XorBits(a, b, bits) == 2 * high + low;
      Halve(high, low);
      assert XorBits(2 * high + low, b, bits) == 2 * (a / 2) + if low == b % 2 then 0 else 1;
    }
  }

  function Prefix(opcode: Byte, length: nat, masked: bool): Bytes
    requires length < LENGTH_LIMIT
  {
    [WithTopBit(opcode), SecondByte(length, masked)] + LengthBytes(length)
  }

  lemma TopBitSplits(b: Byte)
    ensures WithTopBit(b) >= 128 && WithTopBit(b) % 128 == b % 128 && WithTopBit(b) % 16 == b % 16
  {
  }

  lemma SecondByteTells(length: nat, masked: bool)
    ensures var b := SecondByte(length, masked);
      && ExtraWidth(b) == LengthWidth(length) && (b >= 128 <==> masked)
      && (length < 126 ==> b % 128 == length)
  {
    hide WithTopBit;
    TopBitSplits(ShortLength(length));
  }

  lemma LengthReadsBack(length: nat)
    requires 126 <= length < LENGTH_LIMIT
    ensures Unpack(LengthBytes(length)) == length
  {
    PowersOf256();
    hide Unpack, Pack;
    UnpackPack(length, LengthWidth(length));
  }

  /** The prefix says how long it is, whether a key follows, and the payload's length. */
  lemma PrefixReadsBack(opcode: Byte, length: nat, masked: bool)
    requires length < LENGTH_LIMIT
    ensures var p := Prefix(opcode, length, masked);
      && |p| == 2 + ExtraWidth(p[1]) && PayloadLength(p) == length
      && p[0] % 16 == opcode % 16 && (p[1] >= 128 <==> masked)
  {
    TopBitSplits(opcode);
    SecondByteTells(length, masked);
    hide WithTopBit, SecondByte, ExtraWidth, LengthBytes, Unpack;
    var p := Prefix(opcode, length, masked);
    if length >= 126 {
      LengthReadsBack(length);
      assert p[2..2 + LengthWidth(length)] == LengthBytes(length);
    }
  }

  lemma PrefixIsRead(p: Bytes, after: Bytes)
    requires |p| >= 2 && |p| == 2 + ExtraWidth(p[1])
    ensures HasLength(p + after) && PayloadLength(p + after) == PayloadLength(p)
    ensures (p + after)[2 + ExtraWidth((p + after)[1])..] == after
  {
    assert (p + after)[2..|p|] == p[2..|p|];
  }

  lemma PayloadIsRead(opcode: Byte, masked: bool, key: Bytes, raw: Bytes, rest: Bytes)
    requires |key| == KeyWidth(masked)
    ensures DecodePayload(opcode, masked, |raw|, key + raw + rest) ==
      Some(Decoded(Frame(opcode, if masked then Mask(raw, key) else raw), rest))
  {
    hide Mask;
    SliceOfConcat(key, raw, rest);
    assert (key + raw + rest)[..|key|] == key;
  }

  /** A prefix, the key it asks for and the payload it announces are one frame. */
  lemma DecodeParts(p: Bytes, key: Bytes, raw: Bytes, rest: Bytes)
    requires |p| >= 2 && |p| == 2 + ExtraWidth(p[1]) && PayloadLength(p) == |raw|
    requires |key| == KeyWidth(p[1] >= 128)
    ensures Decode(p + key + raw + rest) ==
      Some(Decoded(Frame(p[0] % 16, if p[1] >= 128 then Mask(raw, key) else raw), rest))
  {
    hide DecodePayload, PayloadLength, HasLength, ExtraWidth, KeyWidth, Mask;
    PrefixIsRead(p, key + raw + rest);
    PayloadIsRead(p[0] % 16, p[1] >= 128, key, raw, rest);
    assert p + key + raw + rest == p + (key + raw + rest);
  }

  /** Whatever follows, decoding an encoded frame gives its payload and its opcode's
      four bits and leaves exactly what follows. */
  lemma RoundTrip(f: Frame, key: Option<Bytes>, rest: Bytes)
    requires |f.payload| < LENGTH_LIMIT && (key.Some? ==> |key.value| == 4)
    ensures Decode(Encode(f, key) + rest) == Some(Decoded(Frame(f.opcode % 16, f.payload), rest))
  {
    var p := Prefix(f.opcode, |f.payload|, key.Some?);
    PrefixReadsBack(f.opcode, |f.payload|, key.Some?);
    if key.Some? {
      var raw := Mask(f.payload, key.value);
      assert Encode(f, key) + rest == p + key.value + raw + rest;
      DecodeParts(p, key.value, raw, rest);
      MaskTwice(f.payload, key.value);
    } else {
      assert Encode(f, key) + rest == p + [] + f.payload + rest;
      DecodeParts(p, [], f.payload, rest);
    }
  }

  /** One final frame, masked exactly when a key is given, with the shortest length form. */
  lemma HeaderShape(f: Frame, key: Option<Bytes>)
    requires |f.payload| < LENGTH_LIMIT && (key.Some? ==> |key.value| == 4)
    ensures var e, n := Encode(f, key), |f.payload|;
      && e[0] >= 128 && (e[1] >= 128 <==> key.Some?)
      && |e| == 2 + (if n <= 125 then 0 else if n <= 0xFFFF then 2 else 8) + KeyWidth(key.Some?) + n
      && (e[1] % 128 <= 125 <==> n <= 125) && (e[1] % 128 == 126 <==> 125 < n <= 0xFFFF)
  {
  }

  // ---- The bytes themselves ------------------------------------------------------

  /** How many bytes of extended length a payload of n bytes calls for. */
  function WireWidth(n: nat): nat {
    if n <= 125 then 0 else if n <= 0xFFFF then 2 else 8
  }

  /** n in big-endian bytes: byte k from the left is the one of place width - 1 - k. */
  ghost predicate Spells(bytes: Bytes, n: nat) {
    forall k :: 0 <= k < |bytes| ==> bytes[k] == ByteAt(n, |bytes| - 1 - k)
  }

  /** `data` under `key`: a bit is set exactly if the bits of the byte and of the key byte
      at the same place modulo four differ. */
  ghost predicate MaskedBy(masked: Bytes, data: Bytes, key: Bytes)
    requires |key| == 4
  {
    && |masked| == |data|
    && forall i, b :: 0 <= i < |data| && 0 <= b < 8 ==> DiffersAt(masked[i], data[i], key[i % 4], b)
  }

  predicate DiffersAt(masked: Byte, plain: Byte, key: Byte, b: nat) {
    Bit(masked, b) <==> Bit(plain, b) != Bit(key, b)
  }

  lemma MaskIsBitwise(data: Bytes, key: Bytes)
    requires |key| == 4
    ensures MaskedBy(Mask(data, key), data, key) && MaskedBy(data, Mask(data, key), key)
  {
    forall i, b | 0 <= i < |data| && 0 <= b < 8
      ensures DiffersAt(Mask(data, key)[i], data[i], key[i % 4], b)
      ensures DiffersAt(data[i], Mask(data, key)[i], key[i % 4], b)
    {
      XorBitByBit(data[i], key[i % 4], 8, b);
    }
  }

  lemma LengthIsSpelt(n: nat)
    requires n < LENGTH_LIMIT
    ensures |LengthBytes(n)| == WireWidth(n) && Spells(LengthBytes(n), n)
  {
    PowersOf256();
    hide Pack, Pow256, ByteAt;
    if n > 125 {
      forall k | 0 <= k < WireWidth(n) ensures LengthBytes(n)[k] == ByteAt(n, WireWidth(n) - 1 - k) {
        MostSignificantFirst(n, WireWidth(n), k);
      }
    }
  }

  /** A frame byte by byte: FIN with the opcode, the mask bit with the length or 126 or 127,
      the extended length, the key and then the masked payload, or the payload as it is. */
  lemma FrameOnTheWire(f: Frame, key: Option<Bytes>)
    requires |f.payload| < LENGTH_LIMIT && (key.Some? ==> |key.value| == 4)
    ensures var e, n := Encode(f, key), |f.payload|;
      var w := WireWidth(n);
      && |e| == 2 + w + (if key.Some? then 4 else 0) + n
      && e[0] == (if f.opcode < 128 then f.opcode + 128 else f.opcode)
      && e[1] == (if key.Some? then 128 else 0) + (if n <= 125 then n else if n <= 0xFFFF then 126 else 127)
      && Spells(e[2..2 + w], n)
      && match key
         case Some(k) => e[2 + w..6 + w] == k && MaskedBy(e[6 + w..], f.payload, k)
         case None => e[2 + w..] == f.payload
  {
    var e, n := Encode(f, key), |f.payload|;
    var w := WireWidth(n);
    LengthIsSpelt(n);
    SecondByteSum(n, key.Some?);
    hide LengthBytes, Spells, Mask, MaskedBy, WithTopBit, SecondByte, ShortLength, ByteAt;
    assert WithTopBit(f.opcode) == if f.opcode < 128 then f.opcode + 128 else f.opcode by { TopBitIs(f.opcode); }
    ShortLengthIs(n);
    var head := [WithTopBit(f.opcode), SecondByte(n, key.Some?)];
    if key.Some? {
      MaskIsBitwise(f.payload, key.value);
      SliceOfConcat(head, LengthBytes(n), key.value + Mask(f.payload, key.value));
      SliceOfConcat(head + LengthBytes(n), key.value, Mask(f.payload, key.value));
      assert e == head + LengthBytes(n) + key.value + Mask(f.payload, key.value);
    } else {
      SliceOfConcat(head, LengthBytes(n), f.payload);
      assert e == head + LengthBytes(n) + f.payload;
    }
  }

  lemma TopBitIs(b: Byte)
    ensures WithTopBit(b) == if b < 128 then b + 128 else b
  {
  }

  lemma ShortLengthIs(n: nat)
    ensures ShortLength(n) == if n <= 125 then n else if n <= 0xFFFF then 126 else 127
  {
  }

  lemma {:induction false} SpeltUnpacks(bytes: Bytes, n: nat)
    requires Spells(bytes, n) && n < Pow256(|bytes|)
    ensures Unpack(bytes) == n
  {
    forall k | 0 <= k < |bytes| ensures bytes[k] == Pack(n, |bytes|)[k] {
      MostSignificantFirst(n, |bytes|, k);
    }
    assert bytes == Pack(n, |bytes|);
    UnpackPack(n, |bytes|);
  }

  function AnnouncedWidth(second: Byte): nat {
    if second % 128 == 126 then 2 else if second % 128 == 127 then 8 else 0
  }

  /** The stream announces a payload of n bytes in one of the three ways. */
  ghost predicate Announces(stream: Bytes, n: nat)
    requires |stream| >= 2
  {
    var w := AnnouncedWidth(stream[1]);
    && |stream| >= 2 + w
    && if w == 0 then n == stream[1] % 128 else n < Pow256(w) && Spells(stream[2..2 + w], n)
  }

  lemma SliceOfRest(s: Bytes, at: nat, from: nat, to: nat)
    requires at + from <= at + to <= |s|
    ensures s[at..][from..to] == s[at + from..at + to] && s[at..][to..] == s[at + to..]
  {
  }

  lemma PayloadInPlace(stream: Bytes, at: nat, opcode: Byte, masked: bool, n: nat)
    requires at <= |stream|
    ensures var start := at + KeyWidth(masked);
      && (start + n > |stream| ==> DecodePayload(opcode, masked, n, stream[at..]) == None)
      && (start + n <= |stream| ==> DecodePayload(opcode, masked, n, stream[at..]) == Some(Decoded(
            Frame(opcode, if masked then Mask(stream[start..start + n], stream[at..start])
                          else stream[start..start + n]), stream[start + n..])))
  {
    hide Mask;
    var w := KeyWidth(masked);
    if at + w + n <= |stream| {
      SliceOfRest(stream, at, 0, w);
      SliceOfRest(stream, at, w, w + n);
      assert stream[at..][..w] == stream[at..][0..w] && stream[at..][..n] == stream[at..][0..n];
      SliceOfRest(stream, at, 0, n);
    }
  }

  lemma LengthIsRead(stream: Bytes, n: nat)
    requires |stream| >= 2 && Announces(stream, n)
    ensures ExtraWidth(stream[1]) == AnnouncedWidth(stream[1]) && HasLength(stream) && PayloadLength(stream) == n
  {
    var w := AnnouncedWidth(stream[1]);
    hide Unpack, Spells, Pow256;
    if w > 0 {
      SpeltUnpacks(stream[2..2 + w], n);
    }
  }

  lemma DecodeIs(stream: Bytes, n: nat)
    requires |stream| >= 2 && Announces(stream, n)
    ensures 2 + AnnouncedWidth(stream[1]) <= |stream|
    ensures Decode(stream) ==
      DecodePayload(stream[0] % 16, stream[1] >= 128, n, stream[2 + AnnouncedWidth(stream[1])..])
  {
    hide Announces, PayloadLength, ExtraWidth, AnnouncedWidth, DecodePayload;
    LengthIsRead(stream, n);
  }

  /** What section 5 of RFC 6455 makes of n bytes of payload from `start` on. */
  ghost predicate IsFrameAt(stream: Bytes, start: nat, n: nat, d: Decoded)
    requires |stream| >= 2 && start + n <= |stream| && (stream[1] >= 128 ==> start >= 4)
  {
    && d.frame.opcode == stream[0] % 16 && d.rest == stream[start + n..]
    && if stream[1] >= 128 then MaskedBy(d.frame.payload, stream[start..start + n], stream[start - 4..start])
       else d.frame.payload == stream[start..start + n]
  }

  lemma FrameInPlace(stream: Bytes, at: nat, n: nat)
    requires 2 <= at <= |stream|
    ensures var masked := stream[1] >= 128;
      var start, decoded := at + KeyWidth(masked), DecodePayload(stream[0] % 16, masked, n, stream[at..]);
      if start + n <= |stream| then decoded.Some? && IsFrameAt(stream, start, n, decoded.value) else decoded.None?
  {
    hide DecodePayload, Mask, MaskedBy;
    var masked := stream[1] >= 128;
    var start := at + KeyWidth(masked);
    PayloadInPlace(stream, at, stream[0] % 16, masked, n);
    if masked && start + n <= |stream| {
      MaskIsBitwise(stream[start..start + n], stream[at..start]);
    }
  }

  /** Any stream, whoever wrote it, byte by byte: it holds a frame exactly if the bytes it
      announces are there, and the frame is what the RFC says it is. */
  lemma StreamIsRead(stream: Bytes, n: nat)
    requires |stream| >= 2 && Announces(stream, n)
    ensures var start := 2 + AnnouncedWidth(stream[1]) + (if stream[1] >= 128 then 4 else 0);
      if start + n <= |stream| then Decode(stream).Some? && IsFrameAt(stream, start, n, Decode(stream).value)
      else Decode(stream).None?
  {
    hide Announces, AnnouncedWidth, Decode, DecodePayload, IsFrameAt;
    DecodeIs(stream, n);
    FrameInPlace(stream, 2 + AnnouncedWidth(stream[1]), n);
  }

  lemma {:induction false} BytesSpell(bytes: Bytes)
    ensures Unpack(bytes) < Pow256(|bytes|) && Spells(bytes, Unpack(bytes))
  {
    if bytes != [] {
      var front, last := bytes[..|bytes| - 1], bytes[|bytes| - 1];
      var n := Unpack(bytes);
      BytesSpell(front);
      assert n / 256 == Unpack(front) && n % 256 == last;
      forall k | 0 <= k < |bytes| ensures bytes[k] == ByteAt(n, |bytes| - 1 - k) {
        if k < |front| {
          assert bytes[k] == front[k] == ByteAt(n / 256, |front| - 1 - k);
        }
      }
    }
  }

  /** Every stream long enough for its length field announces something. */
  lemma StreamAnnounces(stream: Bytes) returns (n: nat)
    requires |stream| >= 2 && |stream| >= 2 + AnnouncedWidth(stream[1])
    ensures Announces(stream, n)
  {
    var w := AnnouncedWidth(stream[1]);
    BytesSpell(stream[2..2 + w]);
    n := if w == 0 then stream[1] % 128 else Unpack(stream[2..2 + w]);
  }

  /** The opcode survives exactly when it fits the four bits the frame has for it. */
  lemma OpcodeSurvivesIffNibble(f: Frame, key: Option<Bytes>)
    requires |f.payload| < LENGTH_LIMIT && (key.Some? ==> |key.value| == 4)
    ensures Decode(Encode(f, key)) == Some(Decoded(f, [])) <==> f.opcode < 16
  {
    RoundTrip(f, key, []);
    assert Encode(f, key) + [] == Encode(f, key);
  }

  /** Bytes that arrive later never change a frame that is already whole. */
  lemma MoreBytesKeepTheFrame(stream: Bytes, more: Bytes)
    requires Decode(stream).Some?
    ensures Decode(stream + more) == Some(Decode(stream).value.(rest := Decode(stream).value.rest + more))
  {
    hide PayloadLength, ExtraWidth, DecodePayload;
    assert HasLength(stream);
    MoreBytesKeepTheLength(stream, more);
    var w := 2 + ExtraWidth(stream[1]);
    PayloadIsThere(stream[0] % 16, stream[1] >= 128, PayloadLength(stream), stream[w..]);
    MoreBytesKeepThePayload(stream[0] % 16, stream[1] >= 128, PayloadLength(stream), stream[w..], more);
  }

  lemma MoreBytesKeepTheLength(stream: Bytes, more: Bytes)
    requires HasLength(stream)
    ensures HasLength(stream + more) && PayloadLength(stream + more) == PayloadLength(stream)
    ensures var w := 2 + ExtraWidth(stream[1]); (stream + more)[w..] == stream[w..] + more
  {
    hide Unpack;
    var w := 2 + ExtraWidth(stream[1]);
    assert (stream + more)[2..w] == stream[2..w];
  }

  lemma PayloadIsThere(opcode: Byte, masked: bool, n: nat, after: Bytes)
    requires DecodePayload(opcode, masked, n, after).Some?
    ensures |after| >= KeyWidth(masked) + n
  {
  }

  lemma MoreBytesKeepThePayload(opcode: Byte, masked: bool, n: nat, after: Bytes, more: Bytes)
    requires |after| >= KeyWidth(masked) + n
    ensures var d := DecodePayload(opcode, masked, n, after);
      DecodePayload(opcode, masked, n, after + more) == Some(d.value.(rest := d.value.rest + more))
  {
    var end := KeyWidth(masked) + n;
    assert (after + more)[end..] == after[end..] + more;
    if masked {
      assert (after + more)[4..end] == after[4..end] && (after + more)[..4] == after[..4];
    } else {
      assert (after + more)[..n] == after[..n];
    }
  }

  /** No proper beginning of a frame is itself a frame: a cut one is never misread. */
  lemma TruncationIsDetected(f: Frame, key: Option<Bytes>, cut: nat)
    requires |f.payload| < LENGTH_LIMIT && (key.Some? ==> |key.value| == 4)
    requires cut < |Encode(f, key)|
    ensures Decode(Encode(f, key)[..cut]) == None
  {
    var e := Encode(f, key);
    assert e[..cut] + e[cut..] == e == e + [];
    if Decode(e[..cut]).Some? {
      MoreBytesKeepTheFrame(e[..cut], e[cut..]);
      RoundTrip(f, key, []);
      assert false;
    }
  }

  datatype Sent = Sent(frame: Frame, key: Option<Bytes>) {
    predicate Sendable() {
      |frame.payload| < LENGTH_LIMIT && frame.opcode < 16 && (key.Some? ==> |key.value| == 4)
    }
  }

  function EncodeAll(frames: seq<Sent>): Bytes
    requires forall s :: s in frames ==> s.Sendable()
  {
    if frames == [] then []
    else
      assert frames[0].Sendable();
      Encode(frames[0].frame, frames[0].key) + EncodeAll(frames[1..])
  }

  function Frames(frames: seq<Sent>): seq<Frame> {
    if frames == [] then [] else [frames[0].frame] + Frames(frames[1..])
  }

  lemma NextFrame(frames: seq<Sent>, tail: Bytes)
    requires frames != [] && forall s :: s in frames ==> s.Sendable()
    ensures Decode(EncodeAll(frames) + tail) == Some(Decoded(frames[0].frame, EncodeAll(frames[1..]) + tail))
    ensures Frames(frames) == [frames[0].frame] + Frames(frames[1..])
  {
    hide Decode, Encode;
    assert frames[0].Sendable();
    var f, key, next := frames[0].frame, frames[0].key, EncodeAll(frames[1..]) + tail;
    assert EncodeAll(frames) + tail == Encode(f, key) + next;
    RoundTrip(f, key, next);
  }

  /** Frames sent one after the other, each masked or not, are read back in order. */
  method RecvFrames(sock: Socket, ghost frames: seq<Sent>, ghost tail: Bytes, count: nat) returns (r: seq<Frame>)
    requires count == |frames| && forall s :: s in frames ==> s.Sendable()
    requires sock.incoming == EncodeAll(frames) + tail
    modifies sock
    ensures r == Frames(frames) && sock.incoming == tail
  {
    r := [];
    ghost var left := frames;
    assert frames[0..] == frames && [] + Frames(frames) == Frames(frames);
    assert Frames([]) == [] && EncodeAll([]) == [];
    hide Decode, EncodeAll, Frames, Sent.Sendable;
    for i := 0 to count
      invariant left == frames[i..] && r + Frames(left) == Frames(frames)
      invariant sock.incoming == EncodeAll(left) + tail
    {
      NextFrame(left, tail);
      var got := RecvFrame(sock);
      assert r + ([got.value] + Frames(left[1..])) == r + [got.value] + Frames(left[1..]);
      r := r + [got.value];
      left := left[1..];
    }
    assert left == [] && [] + tail == tail && r + [] == r;
  }
}

/**
 * The chip's wire format: the 8-byte request packet, its checksum byte, and
 * the classification of a complete response frame held in the receive buffer.
 */
module Packet {
  import opened Wrappers
  import opened Bytes
  import opened MemoryMap

  const HEADER: bv8 := 0x7D
  const CTRL_READ: bv8 := 0x1
  const CTRL_WRITE: bv8 := 0x2

  const PACKET_SIZE: nat := 8

  /**
   * The packed packet struct: the header byte, a 16-bit unit holding the
   * control nibble, the address-high nibble and the address-low byte from
   * the least significant bit up, the 32-bit payload and the checksum byte.
   */
  datatype Packet = Packet(header: bv8, ctrl: bv8, addrH: bv8, addrL: bv8, data: bv32, check: bv8)

  /** The two nibble fields fit in four bits. */
  predicate WellFormed(p: Packet)
  {
    p.ctrl < 16 && p.addrH < 16
  }

  /** The packet's eight bytes as they go on the wire. */
  function Encode(p: Packet): (bs: seq<bv8>)
    requires WellFormed(p)
    ensures |bs| == PACKET_SIZE
    ensures bs[0] == p.header && bs[2] == p.addrL && bs[7] == p.check
  {
    [p.header, p.ctrl | (p.addrH << 4), p.addrL] + LeBytes(p.data) + [p.check]
  }

  /** The packet an 8-byte buffer holds when viewed through the union. */
  function Decode(bs: seq<bv8>): (p: Packet)
    requires |bs| == PACKET_SIZE
    ensures WellFormed(p)
    ensures p.header == bs[0] && p.addrL == bs[2] && p.check == bs[7]
  {
    Packet(bs[0], bs[1] & 0xF, bs[1] >> 4, bs[2], LeWord(bs[3..7]), bs[7])
  }

  lemma DecodeEncode(p: Packet)
    requires WellFormed(p)
    ensures Decode(Encode(p)) == p
  {
    assert Encode(p)[3..7] == LeBytes(p.data);
    LeWordOfBytes(p.data);
  }

  lemma EncodeDecode(bs: seq<bv8>)
    requires |bs| == PACKET_SIZE
    ensures Encode(Decode(bs)) == bs
  {
    LeBytesOfWord(bs[3..7]);
    assert Encode(Decode(bs)) == bs[..3] + bs[3..7] + bs[7..];
  }

  /** The control codes are distinct and each fits the control nibble. */
  lemma ControlCodes()
    ensures CTRL_READ != CTRL_WRITE && CTRL_READ < 16 && CTRL_WRITE < 16
  {
  }

  /**
   * The checksum byte: the complement of the sum of the bytes, plus 0x33,
   * truncated to a byte. It depends only on the unsigned byte sum modulo 256.
   */
  function CheckByte(bs: seq<bv8>): (c: bv8)
    ensures c as int == (0x32 - ByteSum(bs)) % 256
  {
    SignedSumMod(bs);
    SubMod(0x32, SignedSum(bs), ByteSum(bs));
    Truncate8(Complement(SignedSum(bs)) + 0x33)
  }

  /** The check byte tops the byte sum up to 0x32 modulo 256. */
  lemma CheckByteSeals(bs: seq<bv8>)
    ensures (ByteSum(bs) + CheckByte(bs) as int) % 256 == 0x32
  {
    SealMod(ByteSum(bs), CheckByte(bs) as int);
  }

  /** A frame whose last byte is the checksum of the bytes before it sums to 0x32 modulo 256. */
  predicate Checked(f: seq<bv8>)
    requires |f| >= 1
  {
    (ByteSum(f[..|f| - 1]) + f[|f| - 1] as int) % 256 == 0x32
  }

  /** Changing any one byte of a checked region changes its checksum. */
  lemma CheckByteDetectsSingleChange(bs: seq<bv8>, i: nat, b: bv8)
    requires i < |bs| && b != bs[i]
    ensures CheckByte(bs[i := b]) != CheckByte(bs)
  {
    ByteSumUpdate(bs, i, b);
    ShiftChangesMod(0x32 - ByteSum(bs), bs[i] as int - b as int);
  }

  /** The 12-bit register address a packet carries. */
  function PacketAddress(p: Packet): bv16
  {
    ((p.addrH as bv16) << 8) | p.addrL as bv16
  }

  /** A request packet for `address` with the given control code and payload, checksum filled in. */
  function RequestPacket(ctrl: bv8, address: bv16, data: bv32): (p: Packet)
    requires ctrl < 16
    ensures WellFormed(p)
    ensures p.header == HEADER && p.ctrl == ctrl && p.data == data
  {
    var unsealed := Packet(HEADER, ctrl, ((address & 0x0F00) >> 8) as bv8, (address & 0x00FF) as bv8, data, 0);
    unsealed.(check := CheckByte(Encode(unsealed)[..7]))
  }

  /** A request packet carries the low twelve bits of the address. */
  lemma RequestPacketAddress(ctrl: bv8, address: bv16, data: bv32)
    requires ctrl < 16
    ensures PacketAddress(RequestPacket(ctrl, address, data)) == address & 0x0FFF
  {
  }

  /**
   * The check byte of a request packet is the checksum of the seven bytes
   * before it, so that the frame sums to 0x32 modulo 256.
   */
  lemma RequestChecked(ctrl: bv8, address: bv16, data: bv32)
    requires ctrl < 16
    ensures var p := RequestPacket(ctrl, address, data);
      p.check == CheckByte(Encode(p)[..7]) && Checked(Encode(p))
  {
    var p := RequestPacket(ctrl, address, data);
    var unsealed := Packet(HEADER, ctrl, ((address & 0x0F00) >> 8) as bv8, (address & 0x00FF) as bv8, data, 0);
    assert p == unsealed.(check := CheckByte(Encode(unsealed)[..7]));
    EncodeKeepsPrefix(unsealed, p.check);
    var f := Encode(p);
    assert f[..|f| - 1] == f[..7];
    CheckByteSeals(f[..7]);
  }

  /**
   * The request frame byte by byte: the header, the control code in the low
   * nibble and address bits 8 to 11 in the high nibble, the low address byte,
   * the payload least significant byte first, and the checksum of the seven
   * bytes before it.
   */
  lemma RequestBytes(ctrl: bv8, address: bv16, data: bv32)
    requires ctrl < 16
    ensures var f := Encode(RequestPacket(ctrl, address, data));
      && f[0] == HEADER
      && f[1] == ctrl | (((address >> 8) & 0xF) as bv8 << 4)
      && f[2] == (address & 0xFF) as bv8
      && f[3..7] == LeBytes(data)
      && f[7] == CheckByte(f[..7])
  {
    RequestChecked(ctrl, address, data);
    assert ((address & 0x0F00) >> 8) as bv8 == ((address >> 8) & 0xF) as bv8;
  }

  /** The check byte is the last byte of the encoding; the seven before it do not depend on it. */
  lemma EncodeKeepsPrefix(p: Packet, c: bv8)
    requires WellFormed(p)
    ensures Encode(p.(check := c))[..7] == Encode(p)[..7]
  {
  }

  /** The frame `read(address, n)` sends: eight bytes, starting with the header. */
  function ReadFrame(address: bv16, n: nat): (f: seq<bv8>)
    ensures |f| == PACKET_SIZE && f[0] == HEADER
  {
    Encode(RequestPacket(CTRL_READ, address, Truncate32(n)))
  }

  /** A read frame passes the checksum and decodes to control 1, the address and the item count truncated to 32 bits. */
  lemma ReadFrameFields(address: bv16, n: nat)
    ensures var f := ReadFrame(address, n);
      && Checked(f)
      && var p := Decode(f);
      && p.header == HEADER && p.ctrl == CTRL_READ && PacketAddress(p) == address & 0x0FFF
      && p.data == Truncate32(n)
  {
    DecodeEncode(RequestPacket(CTRL_READ, address, Truncate32(n)));
    RequestPacketAddress(CTRL_READ, address, Truncate32(n));
    RequestChecked(CTRL_READ, address, Truncate32(n));
  }

  /** The frame `write(address, data)` sends: eight bytes, starting with the header. */
  function WriteFrame(address: bv16, data: bv32): (f: seq<bv8>)
    ensures |f| == PACKET_SIZE && f[0] == HEADER
  {
    Encode(RequestPacket(CTRL_WRITE, address, data))
  }

  /** A write frame passes the checksum and decodes to control 2, the address and the value. */
  lemma WriteFrameFields(address: bv16, data: bv32)
    ensures var f := WriteFrame(address, data);
      && Checked(f)
      && var p := Decode(f);
      && p.header == HEADER && p.ctrl == CTRL_WRITE && PacketAddress(p) == address & 0x0FFF
      && p.data == data
  {
    DecodeEncode(RequestPacket(CTRL_WRITE, address, data));
    RequestPacketAddress(CTRL_WRITE, address, data);
    RequestChecked(CTRL_WRITE, address, data);
  }

  // Responses. A response frame echoes the 8-byte request, then carries a
  // 3-byte header (header, control/address nibbles, count), the payload words
  // and a checksum over everything after the echo.

  /** What a call to the receive handler did. */
  datatype Outcome =
    | Incomplete        // the frame is not complete yet
    | Mismatch          // complete, but its checksum is wrong: discarded
    | Acknowledged      // complete and valid, not a read response: nothing copied
    | Copied(count: nat) // complete and valid read response: `count` words copied
    | Fault             // the C++ driver's behaviour is undefined here (see README)

  /** The number of words copied: byte 10 of the frame, with 0 read as 1. */
  function CopyCount(buf: seq<bv8>): (k: nat)
    requires |buf| > 10
    ensures 1 <= k <= 255
    ensures buf[10] != 0 ==> k == buf[10] as nat
    ensures buf[10] == 0 ==> k == 1
  {
    if buf[10] == 0 then 1 else buf[10] as nat
  }

  /** The checksum over bytes 8 .. len-2 matches byte len-1; the echoed request is not checked. */
  predicate ReplyChecks(buf: seq<bv8>, len: nat)
    requires 9 <= len <= |buf|
  {
    CheckByte(buf[8..len - 1]) == buf[len - 1]
  }

  /** Whether `count` words from slot `d.start` on stay inside the bank. */
  predicate FitsBank(d: Dest, count: nat)
  {
    d.start + count <= BankLen(d.bank)
  }

  /**
   * What the receive handler does with a complete frame of `len` bytes in
   * `buf` while `dest` is the pending destination.
   */
  function Classify(buf: seq<bv8>, len: nat, dest: Option<Dest>): (o: Outcome)
    requires len <= |buf| == BUFFER_SIZE
    ensures o != Incomplete
    ensures o.Copied? ==> dest.Some? && FitsBank(dest.value, o.count) && 11 + 4 * o.count <= |buf|
    ensures o.Copied? ==> 9 <= len && ReplyChecks(buf, len) && buf[9] & 0xF == CTRL_READ && o.count == CopyCount(buf)
    ensures o == Acknowledged ==> 9 <= len && ReplyChecks(buf, len) && buf[9] & 0xF != CTRL_READ
  {
    if len < 9 then Fault
    else if !ReplyChecks(buf, len) then Mismatch
    else if buf[9] & 0xF != CTRL_READ then Acknowledged
    else if dest.None? || !FitsBank(dest.value, CopyCount(buf)) then Fault
    else Copied(CopyCount(buf))
  }

  /**
   * The converse of `Classify`'s contract, for every buffer and length: a bad
   * checksum discards the frame, a valid frame with another control nibble is
   * acknowledged, and a valid read reply whose words fit the destination is
   * copied with the count of byte 10, whatever length the request expected.
   */
  lemma ClassifyComplete(buf: seq<bv8>, len: nat, dest: Option<Dest>)
    requires 9 <= len <= |buf| == BUFFER_SIZE
    ensures !ReplyChecks(buf, len) ==> Classify(buf, len, dest) == Mismatch
    ensures ReplyChecks(buf, len) && buf[9] & 0xF != CTRL_READ ==> Classify(buf, len, dest) == Acknowledged
    ensures ReplyChecks(buf, len) && buf[9] & 0xF == CTRL_READ && dest.Some? && FitsBank(dest.value, CopyCount(buf))
      ==> Classify(buf, len, dest) == Copied(CopyCount(buf))
  {
  }

  /** The bytes a device response carries after the echo, checksum excluded. */
  function ReplyBody(ctrl: bv8, addrH: bv8, count: bv8, words: seq<bv32>): (body: seq<bv8>)
    ensures |body| == 3 + 4 * |words|
  {
    [HEADER, ctrl | (addrH << 4), count] + LeBytesSeq(words)
  }

  /** A byte run followed by its checksum byte. */
  function Sealed(body: seq<bv8>): (f: seq<bv8>)
    ensures |f| == |body| + 1 && Checked(f)
  {
    var f := body + [CheckByte(body)];
    assert f[..|f| - 1] == body;
    CheckByteSeals(body);
    f
  }

  /** The classification depends only on what follows the echoed request. */
  lemma EchoIgnored(buf: seq<bv8>, buf': seq<bv8>, len: nat, dest: Option<Dest>)
    requires len <= |buf| == |buf'| == BUFFER_SIZE
    requires buf[PACKET_SIZE..] == buf'[PACKET_SIZE..]
    ensures Classify(buf, len, dest) == Classify(buf', len, dest)
  {
    if 9 <= len {
      assert buf[8..len - 1] == buf'[8..len - 1];
      assert buf[len - 1] == buf'[PACKET_SIZE..][len - 1 - PACKET_SIZE];
      assert buf[9] == buf'[9] && buf[10] == buf'[10];
    }
  }

  /** A read response: the echo, the sealed response body carrying `words`, and whatever follows. */
  function ReadReplyFrame(echo: seq<bv8>, addrH: bv8, count: bv8, words: seq<bv32>, rest: seq<bv8>): (buf: seq<bv8>)
    ensures |buf| == |echo| + 4 + 4 * |words| + |rest|
  {
    echo + Sealed(ReplyBody(CTRL_READ, addrH, count, words)) + rest
  }

  lemma ReadReplyAccepted(echo: seq<bv8>, addrH: bv8, count: bv8, words: seq<bv32>, rest: seq<bv8>, dest: Dest)
    requires |echo| == PACKET_SIZE && addrH < 16
    requires 1 <= |words| == count as nat && FitsBank(dest, |words|)
    requires |echo| + 4 + 4 * |words| + |rest| == BUFFER_SIZE
    ensures Classify(ReadReplyFrame(echo, addrH, count, words, rest), PACKET_SIZE + 4 + 4 * |words|, Some(dest)) == Copied(|words|)
  {
    var body := ReplyBody(CTRL_READ, addrH, count, words);
    var buf := ReadReplyFrame(echo, addrH, count, words, rest);
    var len := PACKET_SIZE + 4 + 4 * |words|;
    SliceOfMiddle(echo, Sealed(body), rest, 0, |body|);
    assert buf[8..len - 1] == body;
    assert buf[len - 1] == Sealed(body)[|body|];
    assert buf[9] == body[1] == CTRL_READ | (addrH << 4);
    assert buf[10] == body[2] == count;
  }

  lemma ReadReplyWords(echo: seq<bv8>, addrH: bv8, count: bv8, words: seq<bv32>, rest: seq<bv8>)
    requires |echo| == PACKET_SIZE
    ensures |ReadReplyFrame(echo, addrH, count, words, rest)| >= 11 + 4 * |words|
    ensures LeWords(ReadReplyFrame(echo, addrH, count, words, rest), 11, |words|) == words
  {
    var body := ReplyBody(CTRL_READ, addrH, count, words);
    var head := echo + [HEADER, CTRL_READ | (addrH << 4), count];
    var post := [CheckByte(body)] + rest;
    assert ReadReplyFrame(echo, addrH, count, words, rest) == head + LeBytesSeq(words) + post;
    LeWordsOfBytes(head, words, post);
  }

  /**
   * A read response carrying `words` after any echo is accepted and yields
   * exactly those words, in order, from byte 11 on.
   */
  lemma ReadReplyRoundTrip(echo: seq<bv8>, addrH: bv8, count: bv8, words: seq<bv32>, rest: seq<bv8>, dest: Dest)
    requires |echo| == PACKET_SIZE && addrH < 16
    requires 1 <= |words| == count as nat && FitsBank(dest, |words|)
    requires |echo| + 4 + 4 * |words| + |rest| == BUFFER_SIZE
    ensures var buf := ReadReplyFrame(echo, addrH, count, words, rest);
      && Classify(buf, PACKET_SIZE + 4 + 4 * |words|, Some(dest)) == Copied(|words|)
      && LeWords(buf, 11, |words|) == words
  {
    ReadReplyAccepted(echo, addrH, count, words, rest, dest);
    ReadReplyWords(echo, addrH, count, words, rest);
  }

  /** A valid response whose control nibble is not the read code (a write reply, say) is accepted and copies nothing. */
  lemma OtherReplyAcknowledged(echo: seq<bv8>, ctrl: bv8, addrH: bv8, addrL: bv8, rest: seq<bv8>, dest: Option<Dest>)
    requires |echo| == PACKET_SIZE && ctrl < 16 && ctrl != CTRL_READ && addrH < 16
    requires |echo| + 4 + |rest| == BUFFER_SIZE
    ensures var buf := echo + Sealed(ReplyBody(ctrl, addrH, addrL, [])) + rest;
      Classify(buf, PACKET_SIZE + 4, dest) == Acknowledged
  {
    var body := ReplyBody(ctrl, addrH, addrL, []);
    var buf := echo + Sealed(body) + rest;
    assert buf[8..11] == body;
    assert buf[9] == ctrl | (addrH << 4);
    assert buf[9] & 0xF == ctrl;
  }

  /** The response to a write is accepted and copies nothing. */
  lemma WriteReplyAcknowledged(echo: seq<bv8>, addrH: bv8, addrL: bv8, rest: seq<bv8>, dest: Option<Dest>)
    requires |echo| == PACKET_SIZE && addrH < 16
    requires |echo| + 4 + |rest| == BUFFER_SIZE
    ensures var buf := echo + Sealed(ReplyBody(CTRL_WRITE, addrH, addrL, [])) + rest;
      Classify(buf, PACKET_SIZE + 4, dest) == Acknowledged
  {
    OtherReplyAcknowledged(echo, CTRL_WRITE, addrH, addrL, rest, dest);
  }

  /** A single-word read response may carry 0 in its count byte; one word is still copied. */
  lemma ReadReplyCountZero(echo: seq<bv8>, addrH: bv8, w: bv32, rest: seq<bv8>, dest: Dest)
    requires |echo| == PACKET_SIZE && addrH < 16 && FitsBank(dest, 1)
    requires |echo| + 8 + |rest| == BUFFER_SIZE
    ensures var buf := ReadReplyFrame(echo, addrH, 0, [w], rest);
      && Classify(buf, PACKET_SIZE + 8, Some(dest)) == Copied(1)
      && LeWords(buf, 11, 1) == [w]
  {
    var body := ReplyBody(CTRL_READ, addrH, 0, [w]);
    var buf := ReadReplyFrame(echo, addrH, 0, [w], rest);
    var len := PACKET_SIZE + 8;
    SliceOfMiddle(echo, Sealed(body), rest, 0, |body|);
    assert buf[8..len - 1] == body;
    assert buf[len - 1] == Sealed(body)[|body|];
    assert buf[9] == body[1] == CTRL_READ | (addrH << 4);
    assert buf[10] == body[2] == 0;
    ReadReplyWords(echo, addrH, 0, [w], rest);
  }

  /** A response with any one byte after the echo corrupted (checksum byte aside) is discarded. */
  lemma CorruptReplyDiscarded(echo: seq<bv8>, body: seq<bv8>, i: nat, b: bv8, rest: seq<bv8>, dest: Option<Dest>)
    requires |echo| == PACKET_SIZE && i < |body| && b != body[i]
    requires |echo| + |body| + 1 + |rest| == BUFFER_SIZE
    ensures var buf := echo + Sealed(body)[i := b] + rest;
      Classify(buf, PACKET_SIZE + |body| + 1, dest) == Mismatch
  {
    var buf := echo + Sealed(body)[i := b] + rest;
    var len := PACKET_SIZE + |body| + 1;
    assert buf[8..len - 1] == body[i := b];
    assert buf[len - 1] == CheckByte(body);
    CheckByteDetectsSingleChange(body, i, b);
  }
}

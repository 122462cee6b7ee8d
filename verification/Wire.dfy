/** The bytes of the control plane and of the shared region, field by field as the protocol lays them out, and what
    the driver reads of them. Every offset, width and constant stands here as a numeral. */
module Wire {
  import opened Words
  import opened RingDriver

  // --- words ---------------------------------------------------------------------------------------

  /** Numbers stand with the low byte first. */
  lemma LowFirst(a: byte, b: byte, c: byte, d: byte)
    ensures Number([a, b]) == a + 256 * b
    ensures Number([a, b, c, d]) == a + 256 * b + 65536 * c + 16777216 * d
  {
    NumberStep(a, [b]);
    NumberStep(b, []);
    NumberStep(a, [b, c, d]);
    NumberStep(b, [c, d]);
    NumberStep(c, [d]);
    NumberStep(d, []);
    assert [a] + [b, c, d] == [a, b, c, d];
    assert [b] + [c, d] == [b, c, d];
    assert [c] + [d] == [c, d];
    assert [a] + [b] == [a, b];
  }

  lemma NumberStep(a: byte, rest: seq<byte>)
    ensures Number([a] + rest) == a + 256 * Number(rest) && Number([]) == 0 && [a] + [] == [a]
  {
    assert ([a] + rest)[1..] == rest;
  }

  lemma Limits()
    ensures Pow2(16) == 65536 && Pow2(32) == 4294967296 && Pow2(64) == 18446744073709551616
  {
    Pow2Small();
    Pow2Sum(8, 8);
    Pow2Sum(16, 16);
    Pow2Sum(32, 32);
  }

  /** Any bytes are those of the number they hold. */
  lemma {:induction false} BytesNumber(bs: seq<byte>)
    ensures Bytes(Number(bs), |bs|) == bs
  {
    if bs != [] {
      BytesNumber(bs[1..]);
      assert bs == [bs[0]] + bs[1..];
    }
  }

  // --- packets -------------------------------------------------------------------------------------

  /** A packet with two words of payload: opcode, flags and length, then the words. */
  function Packet(op: nat, flags: nat, len: nat, a: nat, b: nat): (bs: seq<byte>)
    ensures |bs| == 16
  {
    Bytes(op, 2) + Bytes(flags, 2) + Bytes(len, 4) + Bytes(a, 4) + Bytes(b, 4)
  }

  lemma PacketParts(op: nat, flags: nat, len: nat, a: nat, b: nat)
    ensures var p := Packet(op, flags, len, a, b);
      p[0..2] == Bytes(op, 2) && p[4..8] == Bytes(len, 4) && p[8..12] == Bytes(a, 4) && p[12..16] == Bytes(b, 4)
  {}

  /** What the driver takes a packet for: the end at opcode 0x00FF; a request, with the two words as sequence number
      and kernel, at opcode 2 and length 8; a defect otherwise. */
  lemma Asks(op: nat, flags: nat, len: nat, a: nat, b: nat)
    requires op < 65536 && flags < 65536 && len < 4294967296 && a < 4294967296 && b < 4294967296
    ensures AskedBy(Packet(op, flags, len, a, b))
         == if op == 0x00FF then End else if op == 2 && len == 8 then Request(a, b) else Defect
  {
    Limits();
    PacketParts(op, flags, len, a, b);
    NumberBytes(op, 2);
    NumberBytes(len, 4);
    NumberBytes(a, 4);
    NumberBytes(b, 4);
  }

  /** Every 16 bytes are such a packet. */
  lemma PacketOf(pkt: seq<byte>)
    requires |pkt| == 16
    ensures var op, flags, len := Number(pkt[0..2]), Number(pkt[2..4]), Number(pkt[4..8]);
      var a, b := Number(pkt[8..12]), Number(pkt[12..16]);
      op < 65536 && flags < 65536 && len < 4294967296 && a < 4294967296 && b < 4294967296
      && pkt == Packet(op, flags, len, a, b)
  {
    Limits();
    BytesNumber(pkt[0..2]);
    BytesNumber(pkt[2..4]);
    BytesNumber(pkt[4..8]);
    BytesNumber(pkt[8..12]);
    BytesNumber(pkt[12..16]);
    assert pkt == pkt[0..2] + pkt[2..4] + pkt[4..8] + pkt[8..12] + pkt[12..16];
  }

  /** A notification of a descriptor's sequence number and kernel. */
  ghost predicate Notifies(pkt: seq<byte>, seqNo: int, kernel: int) {
    && 0 <= seqNo < 4294967296 && 0 <= kernel < 4294967296
    && exists flags: nat :: flags < 65536 && pkt == Packet(2, flags, 8, seqNo, kernel)
  }

  lemma NotifiesAsks(pkt: seq<byte>, seqNo: int, kernel: int)
    requires Notifies(pkt, seqNo, kernel)
    ensures |pkt| == 16 && AskedBy(pkt) == Request(seqNo, kernel)
  {
    var flags: nat :| flags < 65536 && pkt == Packet(2, flags, 8, seqNo, kernel);
    Asks(2, flags, 8, seqNo, kernel);
  }

  /** The shutdown: a header alone, with no payload. */
  ghost predicate ShutsDown(bs: seq<byte>) {
    exists flags: nat :: flags < 65536 && bs == Bytes(0x00FF, 2) + Bytes(flags, 2) + Bytes(0, 4)
  }

  // --- records ---------------------------------------------------------------------------------------

  /** A descriptor in its slot: sequence number, kernel, argument offset and length, response offset. */
  ghost predicate Laid(bs: seq<byte>, d: seq<int>) {
    && |d| == 5 && 0 <= d[0] < 4294967296 && 0 <= d[1] < 4294967296
    && 0 <= d[2] < 18446744073709551616 && 0 <= d[3] < 18446744073709551616 && 0 <= d[4] < 18446744073709551616
    && bs == Bytes(d[0], 4) + Bytes(d[1], 4) + Bytes(d[2], 8) + Bytes(d[3], 8) + Bytes(d[4], 8)
  }

  lemma LaidFront(bs: seq<byte>, d: seq<int>)
    requires Laid(bs, d)
    ensures |bs| == 32 && Number(bs[0..4]) == d[0] && Number(bs[4..8]) == d[1]
  {
    Limits();
    assert bs[0..4] == Bytes(d[0], 4) && bs[4..8] == Bytes(d[1], 4);
    NumberBytes(d[0], 4);
    NumberBytes(d[1], 4);
  }

  // --- the header --------------------------------------------------------------------------------------

  /** The region's header: the magic number, the version and the capacity. */
  ghost predicate Headed(mem: seq<byte>, capacity: nat) {
    |mem| >= 16 && mem[..16] == Bytes(0x4E504B4452563033, 8) + Bytes(3, 4) + Bytes(capacity, 4)
  }

  /** The header checks pass exactly on such a header, for a power of two whose ring of 32-byte slots fits behind the
      256 bytes in front of it. */
  lemma HeaderIs(mem: seq<byte>, size: nat, capacity: nat)
    requires size <= |mem| && 32 <= |mem| && capacity < 4294967296
    ensures GoodHeader(mem, size, capacity) <==>
              Headed(mem, capacity) && PowerOfTwo(capacity) && 256 + 32 * capacity <= size
  {
    Limits();
    Pow2Small();
    HeadParts(mem);
    NumberBytes(0x4E504B4452563033, 8);
    NumberBytes(3, 4);
    NumberBytes(capacity, 4);
    BytesNumber(mem[0..8]);
    BytesNumber(mem[8..12]);
    BytesNumber(mem[12..16]);
    if Headed(mem, capacity) {
      assert mem[..16][0..8] == Bytes(0x4E504B4452563033, 8) && mem[..16][8..12] == Bytes(3, 4)
             && mem[..16][12..16] == Bytes(capacity, 4);
    }
  }

  lemma HeadParts(mem: seq<byte>)
    requires |mem| >= 16
    ensures mem[..16] == mem[0..8] + mem[8..12] + mem[12..16]
    ensures mem[..16][0..8] == mem[0..8] && mem[..16][8..12] == mem[8..12] && mem[..16][12..16] == mem[12..16]
  {}

  /** The counters of a region: the Bridge's at 0x40, the driver's at 0x80. */
  ghost predicate Counts(mem: seq<byte>, head: int, tail: int) {
    && |mem| >= 256 && 0 <= head < 9223372036854775808 && 0 <= tail < 9223372036854775808
    && mem[0x40..0x48] == Bytes(head, 8) && mem[0x80..0x88] == Bytes(tail, 8)
  }

  lemma CountsRead(mem: seq<byte>, head: int, tail: int)
    requires Counts(mem, head, tail)
    ensures Signed64(Part(mem, HEAD, 8)) == head && Signed64(Part(mem, TAIL, 8)) == tail
  {
    Limits();
    NumberBytes(head, 8);
    NumberBytes(tail, 8);
  }

  /** A counter that reads as a number is laid out as that number. */
  lemma CountBack(bs: seq<byte>, v: int)
    requires |bs| == 8 && Signed64(bs) == v && 0 <= v
    ensures v < 9223372036854775808 && bs == Bytes(v, 8)
  {
    Limits();
    SignedRange(bs);
    BytesNumber(bs);
  }

  /** A slot of the ring behind the header. */
  function SlotBytes(mem: seq<byte>, i: nat): seq<byte>
    requires 256 + 32 * i + 32 <= |mem|
  {
    mem[256 + 32 * i..256 + 32 * i + 32]
  }
}

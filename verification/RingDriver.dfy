/** The driver's side of the ring, on the bytes: exact reads, the header checks, and one request taken from the
    mapping. */
module RingDriver {
  import opened Words

  type byte = b: int | 0 <= b < 256 witness 0

  const MAGIC: nat := 0x4E504B4452563033
  const VERSION: nat := 3
  const OP_EXEC_NOTIFY: nat := 2
  const OP_SHUTDOWN: nat := 0xFF
  const HEAD: nat := 0x40
  const TAIL: nat := 0x80
  const SLOTS: nat := 256
  const SLOT_SIZE: nat := 32

  // --- numbers in memory, the low byte first -------------------------------------------------

  function Number(bs: seq<byte>): (v: nat)
    ensures v < Pow2(8 * |bs|)
  {
    if bs == [] then
      Pow2Small();
      0
    else
      Pow2Sum(8, 8 * (|bs| - 1));
      Pow2Small();
      bs[0] + 256 * Number(bs[1..])
  }

  function Bytes(v: nat, n: nat): (bs: seq<byte>)
    ensures |bs| == n
  {
    if n == 0 then [] else [v % 256] + Bytes(v / 256, n - 1)
  }

  /** A stored number is read back. */
  lemma {:induction false} NumberBytes(v: nat, n: nat)
    requires v < Pow2(8 * n)
    ensures Number(Bytes(v, n)) == v
  {
    Pow2Small();
    if n > 0 {
      Pow2Sum(8, 8 * (n - 1));
      assert v / 256 < Pow2(8 * (n - 1));
      NumberBytes(v / 256, n - 1);
      assert Bytes(v, n)[1..] == Bytes(v / 256, n - 1);
    }
  }

  /** A signed 64-bit word. */
  function Signed64(bs: seq<byte>): int {
    SDec(64, Number(bs))
  }

  function Part(mem: seq<byte>, at: nat, n: nat): seq<byte>
    requires at + n <= |mem|
  {
    mem[at..at + n]
  }

  // --- the mask ----------------------------------------------------------------------------------

  /** `x & (2^k - 1)` is the remainder by 2^k. */
  lemma {:induction false} MaskIsMod(n: nat, x: nat, k: nat)
    requires k <= n && x < Pow2(n)
    ensures Bitwise(BAnd, n, x, Pow2(k) - 1) == x % Pow2(k)
    decreases n
  {
    Pow2Small();
    if n == 0 {
    } else if k == 0 {
      AndZero(n, x);
    } else {
      var m := Pow2(k - 1);
      Pow2Next(k - 1);
      Pow2Next(n - 1);
      HalfOdd(m);
      MaskIsMod(n - 1, x / 2, k - 1);
      HalfMod(x, m);
    }
  }

  lemma HalfOdd(m: int)
    ensures (2 * m - 1) % 2 == 1 && (2 * m - 1) / 2 == m - 1
  {}

  lemma {:induction false} AndZero(n: nat, x: nat)
    ensures Bitwise(BAnd, n, x, 0) == 0
  {
    if n > 0 { AndZero(n - 1, x / 2); }
  }

  lemma HalfMod(x: nat, m: nat)
    requires m >= 1
    ensures x % (2 * m) == x % 2 + 2 * ((x / 2) % m)
  {
    var h := x / 2;
    var q, r := h / m, h % m;
    assert h == q * m + r && x == 2 * h + x % 2;
    assert x == q * (2 * m) + (x % 2 + 2 * r);
    ModUnique(2 * m, q, x % 2 + 2 * r);
  }

  ghost predicate PowerOfTwo(c: nat) {
    exists k: nat :: c == Pow2(k)
  }

  /** The capacity test: nonzero with no bit shared with its predecessor means a power of two. */
  lemma {:induction false} OneBit(n: nat, c: nat)
    requires 0 < c < Pow2(n)
    ensures Bitwise(BAnd, n, c, c - 1) == 0 <==> PowerOfTwo(c)
  {
    Pow2Small();
    if n > 0 {
      Pow2Next(n - 1);
      if c % 2 == 1 {
        assert (c - 1) / 2 == c / 2 && (c - 1) % 2 == 0;
        AndSelf(n - 1, c / 2);
        if c == 1 { assert c == Pow2(0); } else { OddNotPower(c); }
      } else {
        assert (c - 1) / 2 == c / 2 - 1 && (c - 1) % 2 == 1;
        OneBit(n - 1, c / 2);
        EvenPower(c);
      }
    }
  }

  lemma {:induction false} AndSelf(n: nat, x: nat)
    requires x < Pow2(n)
    ensures Bitwise(BAnd, n, x, x) == x
  {
    Pow2Small();
    if n > 0 {
      Pow2Next(n - 1);
      AndSelf(n - 1, x / 2);
    }
  }

  lemma OddNotPower(c: nat)
    requires c % 2 == 1 && c > 1
    ensures !PowerOfTwo(c)
  {
    forall k: nat | c == Pow2(k) ensures false {
      Pow2Small();
      if k > 0 { Pow2Next(k - 1); }
    }
  }

  lemma EvenPower(c: nat)
    requires c % 2 == 0 && c > 0
    ensures PowerOfTwo(c) <==> PowerOfTwo(c / 2)
  {
    Pow2Small();
    if k: nat :| c == Pow2(k) {
      if k > 0 {
        Pow2Next(k - 1);
        assert c / 2 == Pow2(k - 1);
      }
    }
    if k: nat :| c / 2 == Pow2(k) {
      Pow2Next(k);
      assert c == Pow2(k + 1);
    }
  }

  // --- the control socket -----------------------------------------------------------------------

  /** What one read may do: hand over up to `k` bytes, be interrupted, or fail. */
  datatype Grant = Give(k: nat) | Interrupted | Broken

  class Socket {
    var bytes: seq<byte>       // still to come, then the end of the stream
    var grants: seq<Grant>     // how the next reads go; afterwards each gives all it is asked for

    constructor (bytes: seq<byte>, grants: seq<Grant>)
      ensures this.bytes == bytes && this.grants == grants
    {
      this.bytes, this.grants := bytes, grants;
    }

    /** `read(fd, p, n)`: some of the bytes, at least one unless the stream has ended. */
    method Read(n: nat) returns (r: int, chunk: seq<byte>, intr: bool)
      requires n > 0
      modifies this
      ensures r < 0 ==>
              bytes == old(bytes) && old(grants) != [] && grants == old(grants)[1..]
              && old(grants)[0] == if intr then Interrupted else Broken
      ensures r >= 0 ==>
              r == |chunk| <= n && old(bytes) == chunk + bytes && (r == 0 <==> old(bytes) == [])
              && NoBreak(old(grants), grants)
    {
      intr := false;
      chunk := [];
      var g := Give(n);
      if grants != [] {
        g := grants[0];
        grants := grants[1..];
      }
      if !g.Give? { return -1, [], g.Interrupted?; }
      var k := if g.k < n then g.k else n;
      if k == 0 { k := 1; }
      if k > |bytes| { k := |bytes|; }
      chunk, bytes := bytes[..k], bytes[k..];
      r := k;
    }
  }

  ghost predicate NoBreak(before: seq<Grant>, now: seq<Grant>) {
    now == before || (before != [] && before[0].Give? && now == before[1..])
  }

  /** Exactly `n` bytes, however the reads cut them: 1, or 0 at the end of the stream, or -1 on a failed read. */
  method ReadExact(s: Socket, buf: array<byte>, n: nat) returns (r: int)
    requires n <= buf.Length
    modifies s, buf
    ensures r == 1 ==> n <= |old(s.bytes)| && buf[..n] == old(s.bytes)[..n] && s.bytes == old(s.bytes)[n..]
    ensures r == 0 ==> |old(s.bytes)| < n && s.bytes == []
    ensures r == -1 ==> Broken in old(s.grants)
    ensures r == 1 || r == 0 || r == -1
    ensures buf[n..] == old(buf[n..])
  {
    var p: nat, left: nat := 0, n;
    while left > 0
      invariant 0 <= p <= n && p + left == n && p <= |old(s.bytes)|
      invariant buf[..p] == old(s.bytes)[..p] && s.bytes == old(s.bytes)[p..] && buf[n..] == old(buf[n..])
      invariant |s.grants| <= |old(s.grants)| && s.grants == old(s.grants)[|old(s.grants)| - |s.grants|..]
      decreases |s.grants|, left
    {
      var got, chunk, intr := s.Read(left);
      if got == 0 { return 0; }
      if got < 0 {
        if intr { continue; }
        return -1;
      }
      forall i | 0 <= i < got { buf[p + i] := chunk[i]; }
      p, left := p + got, left - got;
    }
    r := 1;
  }

  // --- the mapping --------------------------------------------------------------------------------

  /** What `npkdrv_init` accepts of a mapped region. */
  ghost predicate Accepted(mem: seq<byte>, capacity: nat) {
    && |mem| >= 256 && capacity > 0 && PowerOfTwo(capacity) && SLOTS + capacity * SLOT_SIZE <= |mem|
  }

  /** A header that passes for a region of `size` bytes, with the capacity it holds. */
  ghost predicate GoodHeader(mem: seq<byte>, size: nat, capacity: nat)
    requires size <= |mem| && 32 <= |mem|
  {
    && Number(Part(mem, 12, 4)) == capacity && Number(Part(mem, 0, 8)) == MAGIC && Number(Part(mem, 8, 4)) == VERSION
    && Accepted(mem[..size], capacity)
  }

  /** The header checks of a region of `size` bytes, mapped in whole pages, of which none ends inside the header. */
  method CheckHeader(mem: array<byte>, size: nat) returns (ok: bool, capacity: nat)
    requires size <= mem.Length && 32 <= mem.Length
    ensures capacity == Number(Part(mem[..], 12, 4))
    ensures ok <==> GoodHeader(mem[..], size, capacity)
  {
    var magic, version := Number(mem[0..8]), Number(mem[8..12]);
    capacity := Number(mem[12..16]);
    assert mem[0..8] == Part(mem[..], 0, 8) && mem[8..12] == Part(mem[..], 8, 4) && mem[12..16] == Part(mem[..], 12, 4);
    ok := magic == MAGIC && version == VERSION && capacity != 0 && Bitwise(BAnd, 32, capacity, capacity - 1) == 0
          && SLOTS + capacity * SLOT_SIZE <= size;
    if capacity != 0 { OneBit(32, capacity); }
  }

  /** The slot a tail names: its low bits, whatever the tail's 64 bits are. */
  function SlotIndex(tail: int, capacity: nat): nat
    requires capacity > 0
  {
    Bitwise(BAnd, 64, Enc(64, tail), capacity - 1)
  }

  /** For any 64-bit tail the slot's 32 bytes lie inside an accepted mapping, past its header; and tails of one
      remainder share it. */
  lemma SlotInside(mem: seq<byte>, capacity: nat, tail: int)
    requires Accepted(mem, capacity) && capacity < Pow2(32)
    ensures SlotIndex(tail, capacity) == tail % capacity
    ensures SLOTS <= SLOTS + SlotIndex(tail, capacity) * SLOT_SIZE
            && SLOTS + SlotIndex(tail, capacity) * SLOT_SIZE + SLOT_SIZE <= |mem|
  {
    var k: nat :| capacity == Pow2(k);
    SmallPower(k, 32);
    MaskIsMod(64, Enc(64, tail), k);
    Pow2Sum(64 - k, k);
    ModOfMod(tail, Pow2(64 - k), capacity);
  }

  lemma PowerMono(n: nat, k: nat)
    requires n <= k
    ensures Pow2(n) <= Pow2(k)
  {
    Pow2Sum(k - n, n);
    MulMono(1, Pow2(k - n), Pow2(n));
  }

  lemma SmallPower(k: nat, n: nat)
    requires Pow2(k) < Pow2(n)
    ensures k < n
  {
    if k >= n { PowerMono(n, k); }
  }

  lemma ModOfMod(x: int, a: nat, b: nat)
    requires a >= 1 && b >= 1
    ensures (x % (a * b)) % b == x % b
  {
    var m := a * b;
    assert m >= 1 by { MulMono(1, a, b); }
    var q, y := x / m, x % m;
    var q1, z := y / b, y % b;
    assert x == q * m + y && y == q1 * b + z;
    assert q * m == (q * a) * b;
    assert x == (q * a + q1) * b + z;
    ModUnique(b, q * a + q1, z);
  }

  // --- one request -----------------------------------------------------------------------------------

  const PACKET: nat := 16

  /** What a packet asks: the end, a defect, or the request with a sequence number and a kernel. */
  datatype Asked = End | Defect | Request(seqNo: nat, kernel: nat)

  function AskedBy(pkt: seq<byte>): Asked
    requires |pkt| == PACKET
  {
    var op := Number(pkt[0..2]);
    if op == OP_SHUTDOWN then End
    else if op != OP_EXEC_NOTIFY || Number(pkt[4..8]) != 8 then Defect
    else Request(Number(pkt[8..12]), Number(pkt[12..16]))
  }

  function Words64(v: int): seq<byte> {
    Bytes(Enc(64, v), 8)
  }

  /** A signed word is read back. */
  lemma WordsBack(v: int)
    requires -Pow2(64) <= 2 * v < Pow2(64)
    ensures Signed64(Words64(v)) == v
  {
    NumberBytes(Enc(64, v), 8);
    DecEnc(IntT(W64, true), v);
  }

  lemma SignedRange(bs: seq<byte>)
    requires |bs| == 8
    ensures -Pow2(64) <= 2 * Signed64(bs) < Pow2(64)
  {
    EncDec(IntT(W64, true), Number(bs));
  }

  /** The slot the mapped tail names. */
  function SlotAt(mem: seq<byte>, capacity: nat): nat
    requires |mem| >= 256 && capacity > 0
  {
    SLOTS + SLOT_SIZE * (Signed64(Part(mem, TAIL, 8)) % capacity)
  }

  /** A request can be taken: the ring is not empty, and the slot's record is the one announced. */
  predicate Matches(mem: seq<byte>, capacity: nat, a: Asked)
    requires |mem| >= 256 && capacity > 0 && SlotAt(mem, capacity) + SLOT_SIZE <= |mem|
  {
    && a.Request? && Signed64(Part(mem, TAIL, 8)) < Signed64(Part(mem, HEAD, 8))
    && Number(Part(mem, SlotAt(mem, capacity), 4)) == a.seqNo
       && Number(Part(mem, SlotAt(mem, capacity) + 4, 4)) == a.kernel
  }

  /** Taking the request: on 1 the tail is one further; else the mapping is as it was. */
  method Take(mem: array<byte>, capacity: nat, seqNo: nat, kernel: nat) returns (ok: bool, record: seq<byte>)
    requires Accepted(mem[..], capacity) && capacity < Pow2(32)
    modifies mem
    ensures SlotAt(old(mem[..]), capacity) + SLOT_SIZE <= mem.Length
    ensures ok <==> Matches(old(mem[..]), capacity, Request(seqNo, kernel))
    ensures ok ==> record == Part(old(mem[..]), SlotAt(old(mem[..]), capacity), SLOT_SIZE)
    ensures ok ==> Signed64(Part(mem[..], TAIL, 8)) == Signed64(Part(old(mem[..]), TAIL, 8)) + 1
    ensures mem[..TAIL] == old(mem[..TAIL]) && mem[TAIL + 8..] == old(mem[TAIL + 8..])
            && (!ok ==> mem[..] == old(mem[..]))
  {
    SameParts(mem, TAIL, 8);
    SameParts(mem, HEAD, 8);
    var tail := Signed64(mem[TAIL..TAIL + 8]);
    var head := Signed64(mem[HEAD..HEAD + 8]);
    SlotInside(mem[..], capacity, tail);
    if tail >= head { return false, []; }
    var at := SLOTS + SlotIndex(tail, capacity) * SLOT_SIZE;
    record := mem[at..at + SLOT_SIZE];
    SameParts(mem, at, SLOT_SIZE);
    Fields(mem[..], at);
    if Number(record[0..4]) != seqNo || Number(record[4..8]) != kernel { return false, []; }
    SignedRange(mem[HEAD..HEAD + 8]);
    SignedRange(mem[TAIL..TAIL + 8]);
    Advance(mem, tail + 1);
    ok := true;
  }

  lemma SameParts(mem: array<byte>, at: nat, n: nat)
    requires at + n <= mem.Length
    ensures mem[at..at + n] == Part(mem[..], at, n)
  {}

  /** A record's first two fields. */
  lemma Fields(mem: seq<byte>, at: nat)
    requires at + SLOT_SIZE <= |mem|
    ensures Part(mem, at, SLOT_SIZE)[0..4] == Part(mem, at, 4) && Part(mem, at, SLOT_SIZE)[4..8] == Part(mem, at + 4, 4)
  {
    SubPart(mem, at, SLOT_SIZE, 0, 4);
    SubPart(mem, at, SLOT_SIZE, 4, 4);
  }

  lemma SubPart(mem: seq<byte>, at: nat, n: nat, i: nat, k: nat)
    requires at + n <= |mem| && i + k <= n
    ensures Part(mem, at, n)[i..i + k] == Part(mem, at + i, k)
  {
    var x, y := Part(mem, at, n)[i..i + k], Part(mem, at + i, k);
    forall j | 0 <= j < k
      ensures x[j] == y[j]
    {
      assert x[j] == Part(mem, at, n)[i + j] == mem[at + i + j];
    }
  }

  /** The tail's word is stored. */
  method Advance(mem: array<byte>, v: int)
    requires mem.Length >= 256 && -Pow2(64) <= 2 * v < Pow2(64)
    modifies mem
    ensures Signed64(Part(mem[..], TAIL, 8)) == v
    ensures mem[..TAIL] == old(mem[..TAIL]) && mem[TAIL + 8..] == old(mem[TAIL + 8..])
  {
    WordsBack(v);
    var w := Words64(v);
    forall i | 0 <= i < 8 { mem[TAIL + i] := w[i]; }
    assert Part(mem[..], TAIL, 8) == w;
  }

  /** The next request. On 1 the record is the one in the tail's slot, and the tail is one further; on every
      other answer the mapping is as it was. */
  method Next(mem: array<byte>, capacity: nat, sock: Socket) returns (r: int, record: seq<byte>)
    requires Accepted(mem[..], capacity) && capacity < Pow2(32)
    modifies mem, sock
    ensures r == 1 || r == 0 || r == -1
    ensures |old(sock.bytes)| < PACKET ==> r == 0 || (r == -1 && Broken in old(sock.grants))
    ensures SlotAt(old(mem[..]), capacity) + SLOT_SIZE <= mem.Length
    ensures |old(sock.bytes)| >= PACKET ==>
              var a := AskedBy(old(sock.bytes)[..PACKET]);
              && (r == 0 ==> a.End?) && (r == 1 ==> Matches(old(mem[..]), capacity, a))
              && (Broken !in old(sock.grants)
                 ==> (a.End? ==> r == 0) && (Matches(old(mem[..]), capacity, a) ==> r == 1))
    ensures r == 1 ==>
            |old(sock.bytes)| >= PACKET && record == Part(old(mem[..]), SlotAt(old(mem[..]), capacity), SLOT_SIZE)
    ensures r == 1 ==> Signed64(Part(mem[..], TAIL, 8)) == Signed64(Part(old(mem[..]), TAIL, 8)) + 1
    ensures r == 1 ==> sock.bytes == old(sock.bytes)[PACKET..]
    ensures mem[..TAIL] == old(mem[..TAIL]) && mem[TAIL + 8..] == old(mem[TAIL + 8..])
            && (r != 1 ==> mem[..] == old(mem[..]))
  {
    SlotInside(mem[..], capacity, Signed64(Part(mem[..], TAIL, 8)));
    record := [];
    var pkt := new byte[PACKET];
    var got := ReadExact(sock, pkt, PACKET);
    if got != 1 { return got, []; }
    assert pkt[..] == old(sock.bytes)[..PACKET];
    match AskedBy(pkt[..]) {
      case End => r := 0;
      case Defect => r := -1;
      case Request(seqNo, kernel) =>
        var ok;
        ok, record := Take(mem, capacity, seqNo, kernel);
        r := if ok then 1 else -1;
    }
  }
}

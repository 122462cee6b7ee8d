/** The driver's code as the driver of the protocol: what one call does to the bytes is what its steps do to the
    ring. */
module RingLink {
  import opened Words
  import opened RingDriver
  import opened Wire
  import P = RingProtocol
  import opened RingRuns

  predicate HasSlot(mem: seq<byte>, i: nat) {
    256 + 32 * i + 32 <= |mem|
  }

  ghost predicate HoldsSlot(mem: seq<byte>, i: nat, fields: seq<int>) {
    HasSlot(mem, i) && Laid(SlotBytes(mem, i), fields)
  }

  /** The mapping shows the ring: both counters and every slot, where the layout puts them. */
  ghost predicate Shows(mem: seq<byte>, capacity: nat, r: P.Ring) {
    && P.Sized(r) && r.capacity == capacity && PowerOfTwo(capacity) && capacity < 4294967296
    && Counts(mem, r.head, r.tail) && 256 + 32 * capacity <= |mem|
    && forall i :: 0 <= i < capacity ==> HoldsSlot(mem, i, r.slots[i])
  }

  lemma ShownAccepted(mem: seq<byte>, capacity: nat, r: P.Ring)
    requires Shows(mem, capacity, r)
    ensures Accepted(mem, capacity) && capacity < Pow2(32)
  {
    Limits();
  }

  /** The stream carries the packets on the wire: 16 bytes a notification, 8 for the shutdown, which is the last. */
  ghost predicate Carries(bytes: seq<byte>, wire: seq<P.Packet>)
    decreases |wire|
  {
    if wire == [] then bytes == []
    else
      match wire[0]
      case ExecNotify(s, k) => |bytes| >= 16 && Notifies(bytes[..16], s, k) && Carries(bytes[16..], wire[1..])
      case Shutdown => ShutsDown(bytes) && wire[1..] == []
  }

  /** The slot the mapped tail names is the ring's front. */
  lemma FrontShown(r: P.Ring, mem: seq<byte>, capacity: nat)
    requires Shows(mem, capacity, r)
    ensures SlotAt(mem, capacity) + SLOT_SIZE <= |mem| && Laid(Part(mem, SlotAt(mem, capacity), SLOT_SIZE), Front(r))
    ensures Number(Part(mem, SlotAt(mem, capacity), 4)) == Front(r)[0]
    ensures Number(Part(mem, SlotAt(mem, capacity) + 4, 4)) == Front(r)[1]
  {
    CountsRead(mem, r.head, r.tail);
    var i := r.tail % r.capacity;
    assert HoldsSlot(mem, i, r.slots[i]);
    RecordMatches(mem, capacity, i, r.slots[i]);
  }

  /** The driver's test of a request on the bytes is the protocol's on the ring. */
  lemma FrontMatches(r: P.Ring, mem: seq<byte>, capacity: nat, bytes: seq<byte>)
    requires Shows(mem, capacity, r) && Carries(bytes, r.wire) && r.wire != [] && r.wire[0].ExecNotify?
    ensures |bytes| >= PACKET && SlotAt(mem, capacity) + SLOT_SIZE <= |mem|
    ensures Matches(mem, capacity, AskedBy(bytes[..PACKET])) <==> Served(r)
  {
    FrontShown(r, mem, capacity);
    CountsRead(mem, r.head, r.tail);
    NotifiesAsks(bytes[..16], r.wire[0].seqNo, r.wire[0].kernel);
  }

  /** In a state of the protocol the front of the wire announces the descriptor at the tail, and its slot holds it. */
  lemma FrontSlot(r: P.Ring)
    requires P.Inv(r) && r.driver == P.Waiting && r.wire != [] && r.wire[0].ExecNotify?
    ensures Served(r) && r.tail < |r.sent| && Front(r) == r.sent[r.tail]
  {
    var ds := r.sent[P.Read(r)..P.Announced(r)];
    assert ds == [] ==> P.Notices(ds) == [];
    assert ds != [] ==> P.Notices(ds)[0] == P.Notice(ds[0]) && ds[0] == r.sent[r.tail];
    assert r.slots[P.Slot(r, r.tail)] == r.sent[r.tail];
  }

  lemma RecordMatches(mem: seq<byte>, capacity: nat, i: nat, d: seq<int>)
    requires |d| == 5 && |mem| >= 256 && capacity > 0
    requires SlotAt(mem, capacity) == SLOTS + SLOT_SIZE * i && HoldsSlot(mem, i, d)
    ensures Number(Part(mem, SlotAt(mem, capacity), 4)) == d[0]
    ensures Number(Part(mem, SlotAt(mem, capacity) + 4, 4)) == d[1]
  {
    Fields(mem, SlotAt(mem, capacity));
    LaidFront(SlotBytes(mem, i), d);
  }

  /** The mapping after the tail has been stored shows the ring after the request has been taken. */
  lemma StillShows(r: P.Ring, mem: seq<byte>, capacity: nat, mem1: seq<byte>)
    requires Shows(mem, capacity, r) && |mem1| == |mem| && r.wire != []
    requires mem1[..TAIL] == mem[..TAIL] && mem1[TAIL + 8..] == mem[TAIL + 8..]
    requires Signed64(Part(mem1, TAIL, 8)) == r.tail + 1
    ensures Shows(mem1, capacity, Taken(r))
  {
    assert mem1[0x40..0x48] == mem1[..TAIL][0x40..0x48] == mem[..TAIL][0x40..0x48] == mem[0x40..0x48];
    CountBack(Part(mem1, TAIL, 8), r.tail + 1);
    forall i | 0 <= i < capacity ensures HoldsSlot(mem1, i, r.slots[i]) {
      assert HoldsSlot(mem, i, r.slots[i]);
      SameSlot(mem, mem1, i, r.slots[i]);
    }
  }

  lemma SameSlot(mem: seq<byte>, mem1: seq<byte>, i: nat, fields: seq<int>)
    requires |mem1| == |mem| >= 256 && mem1[TAIL + 8..] == mem[TAIL + 8..] && HoldsSlot(mem, i, fields)
    ensures HoldsSlot(mem1, i, fields)
  {
    var at, b := 256 + 32 * i, TAIL + 8;
    PartPast(mem, b, at, 32);
    PartPast(mem1, b, at, 32);
  }

  lemma PartPast(mem: seq<byte>, b: nat, at: nat, n: nat)
    requires b <= at && at + n <= |mem|
    ensures Part(mem, at, n) == mem[b..][at - b..at - b + n]
  {
    var rest := mem[b..];
    assert forall j :: 0 <= j < n ==> Part(mem, at, n)[j] == rest[at - b..at - b + n][j];
  }

  lemma CarriesFront(bytes: seq<byte>, wire: seq<P.Packet>)
    requires Carries(bytes, wire)
    ensures if wire != [] && wire[0].ExecNotify? then |bytes| >= 16 && Carries(bytes[16..], wire[1..]) else |bytes| < 16
  {}

  /** What is known of a call before it is made. */
  lemma Ready(r: P.Ring, mem: seq<byte>, capacity: nat, bytes: seq<byte>)
    requires r.driver == P.Waiting && Shows(mem, capacity, r) && Carries(bytes, r.wire)
    ensures Accepted(mem, capacity) && capacity < Pow2(32)
    ensures if r.wire != [] && r.wire[0].ExecNotify? then
              && |bytes| >= PACKET && SlotAt(mem, capacity) + SLOT_SIZE <= |mem|
              && AskedBy(bytes[..PACKET]).Request?
              && (Matches(mem, capacity, AskedBy(bytes[..PACKET])) <==> Served(r))
              && Signed64(Part(mem, TAIL, 8)) == r.tail
              && Laid(Part(mem, SlotAt(mem, capacity), SLOT_SIZE), Front(r))
              && Leads(r, if Served(r) then Taken(r) else Refused(r)) && Carries(bytes[PACKET..], r.wire[1..])
            else |bytes| < PACKET
  {
    ShownAccepted(mem, capacity, r);
    CarriesFront(bytes, r.wire);
    CountsRead(mem, r.head, r.tail);
    if r.wire != [] && r.wire[0].ExecNotify? {
      NotifiesAsks(bytes[..16], r.wire[0].seqNo, r.wire[0].kernel);
      FrontMatches(r, mem, capacity, bytes);
      FrontShown(r, mem, capacity);
      TakesOrRefuses(r);
    }
  }

  /** One call, on bytes that show a state of the ring, any state, while the Bridge waits: it is the driver's steps.
      On 1 the record is the one in the tail's slot, and what is left shows the ring with it taken; -1 is the driver
      failed, and 0 the driver stopped, with the mapping as it was. */
  method Serve(mem: array<byte>, capacity: nat, sock: Socket, ghost r: P.Ring) returns (a: int, record: seq<byte>)
    requires r.driver == P.Waiting && (r.wire != [] || r.closed)
    requires Shows(mem[..], capacity, r) && Carries(sock.bytes, r.wire) && Broken !in sock.grants
    modifies mem, sock
    ensures r.wire == [] || r.wire[0].Shutdown? <==> a == 0
    ensures a == 0 ==> Leads(r, r.(driver := P.Stopped, wire := if r.wire == [] then [] else r.wire[1..]))
    ensures a == 1 ==>
              && Served(r) && Laid(record, Front(r)) && Leads(r, Taken(r)) && Shows(mem[..], capacity, Taken(r))
              && Carries(sock.bytes, Taken(r).wire)
    ensures a == -1 ==> !Served(r) && Leads(r, Refused(r))
    ensures a == 0 || a == 1 || a == -1
    ensures a != 1 ==> mem[..] == old(mem[..])
  {
    Ready(r, mem[..], capacity, sock.bytes);
    ghost var before := mem[..];
    a, record := Next(mem, capacity, sock);
    if a == 0 { Stops(r); }
    if a == 1 { StillShows(r, before, capacity, mem[..]); }
  }

  /** While both sides keep the protocol, the answer is never -1, and on 1 the record is the oldest descriptor not yet
      received. */
  lemma NeverRefused(r: P.Ring)
    requires P.Inv(r) && r.driver == P.Waiting && r.wire != [] && r.wire[0].ExecNotify?
    ensures Served(r) && r.tail < |r.sent| && Front(r) == r.sent[r.tail]
    ensures Taken(r).received == r.received + [r.sent[|r.received|]]
  {
    FrontSlot(r);
  }
}

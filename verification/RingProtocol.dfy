/** The Bridge and the driver over the shared ring and the control socket, one atomic step of either at a time. */
module RingProtocol {
  import opened Words

  /** A descriptor's five fields: seq, kernel_id, arg_off, arg_len, resp_off. */
  type Desc = d: seq<int> | |d| == 5 witness [0, 0, 0, 0, 0]

  /** A notification on the control socket. */
  datatype Packet = ExecNotify(seqNo: int, kernel: int) | Shutdown

  /** The Bridge: idle, writing a descriptor field by field, publishing it, announcing it, or done. */
  datatype Bridge = Free | Writing(d: Desc, i: nat) | Publishing(d: Desc) | Announcing(d: Desc) | Closed

  /** The driver in its receive loop: each load, each field copied and each store is a step of its own. */
  datatype Driver =
    | Waiting
    | Notified(seqNo: int, kernel: int)
    | HasTail(seqNo: int, kernel: int, tail: int)
    | HasHead(seqNo: int, kernel: int, tail: int, head: int)
    | Copying(seqNo: int, kernel: int, tail: int, copy: seq<int>)
    | Taking(tail: int, taken: Desc)
    | Stopped
    | Failed

  /** What is shared, where each side is, and two histories: what was published and what was received. */
  datatype Ring = Ring(
    capacity: nat, slots: seq<seq<int>>, head: int, tail: int, wire: seq<Packet>, closed: bool,
    bridge: Bridge, driver: Driver, sent: seq<Desc>, received: seq<Desc>)

  function Slot(r: Ring, at: int): (i: int)
    requires r.capacity > 0
    ensures 0 <= i < r.capacity
  {
    at % r.capacity
  }

  predicate Sized(r: Ring) {
    r.capacity > 0 && |r.slots| == r.capacity && forall i :: 0 <= i < |r.slots| ==> |r.slots[i]| == 5
  }

  predicate Init(r: Ring) {
    && Sized(r) && r.head == r.tail == 0 && r.wire == [] && !r.closed
    && r.bridge == Free && r.driver == Waiting && r.sent == [] && r.received == []
  }

  // --- the Bridge's steps ----------------------------------------------------------------------

  /** It starts on a slot only while the ring has room. */
  predicate BeginWrite(r: Ring, r1: Ring, d: Desc) {
    r.bridge == Free && r.head - r.tail < r.capacity && r1 == r.(bridge := Writing(d, 0))
  }

  predicate WriteField(r: Ring, r1: Ring)
    requires Sized(r)
  {
    && r.bridge.Writing? && r.bridge.i < 5
    && var s := Slot(r, r.head);
    r1 == r.(slots := r.slots[s := r.slots[s][r.bridge.i := r.bridge.d[r.bridge.i]]],
        bridge := r.bridge.(i := r.bridge.i + 1))
  }

  predicate EndWrite(r: Ring, r1: Ring) {
    r.bridge.Writing? && r.bridge.i == 5 && r1 == r.(bridge := Publishing(r.bridge.d))
  }

  predicate Publish(r: Ring, r1: Ring) {
    r.bridge.Publishing? && r1 == r.(head := r.head + 1, bridge := Announcing(r.bridge.d),
        sent := r.sent + [r.bridge.d])
  }

  predicate Announce(r: Ring, r1: Ring) {
    r.bridge.Announcing? && r1 == r.(wire := r.wire + [ExecNotify(r.bridge.d[0], r.bridge.d[1])], bridge := Free)
  }

  /** SHUTDOWN is advisory: the end of the stream follows it. */
  predicate Close(r: Ring, r1: Ring, polite: bool) {
    r.bridge == Free && r1 == r.(wire := r.wire + (if polite then [Shutdown] else []), closed := true, bridge := Closed)
  }

  // --- the driver's steps (npkdrv_next) ----------------------------------------------------------

  predicate TakePacket(r: Ring, r1: Ring) {
    && r.driver == Waiting && r.wire != []
    && r1 == r.(wire := r.wire[1..],
                driver := if r.wire[0].Shutdown? then Stopped else Notified(r.wire[0].seqNo, r.wire[0].kernel))
  }

  predicate SeeEnd(r: Ring, r1: Ring) {
    r.driver == Waiting && r.wire == [] && r.closed && r1 == r.(driver := Stopped)
  }

  predicate LoadTail(r: Ring, r1: Ring) {
    r.driver.Notified? && r1 == r.(driver := HasTail(r.driver.seqNo, r.driver.kernel, r.tail))
  }

  predicate LoadHead(r: Ring, r1: Ring) {
    r.driver.HasTail? && r1 == r.(driver := HasHead(r.driver.seqNo, r.driver.kernel, r.driver.tail, r.head))
  }

  predicate Compare(r: Ring, r1: Ring) {
    && r.driver.HasHead?
    && r1 == r.(driver := if r.driver.tail >= r.driver.head then Failed
       else Copying(r.driver.seqNo, r.driver.kernel, r.driver.tail, []))
  }

  predicate CopyField(r: Ring, r1: Ring)
    requires Sized(r)
  {
    && r.driver.Copying? && |r.driver.copy| < 5
    && r1 == r.(driver := r.driver.(copy := r.driver.copy + [r.slots[Slot(r, r.driver.tail)][|r.driver.copy|]]))
  }

  predicate CheckCopy(r: Ring, r1: Ring) {
    && r.driver.Copying? && |r.driver.copy| == 5
    && r1 == r.(driver := if r.driver.copy[0] != r.driver.seqNo || r.driver.copy[1] != r.driver.kernel then Failed
                          else Taking(r.driver.tail, r.driver.copy))
  }

  predicate StoreTail(r: Ring, r1: Ring) {
    r.driver.Taking? && r1 == r.(tail := r.driver.tail + 1, driver := Waiting,
        received := r.received + [r.driver.taken])
  }

  predicate Step(r: Ring, r1: Ring)
    requires Sized(r)
  {
    || WriteField(r, r1) || EndWrite(r, r1) || Publish(r, r1) || Announce(r, r1) || Close(r, r1, true)
       || Close(r, r1, false)
    || TakePacket(r, r1) || SeeEnd(r, r1) || LoadTail(r, r1) || LoadHead(r, r1) || Compare(r, r1) || CopyField(r, r1)
    || CheckCopy(r, r1) || StoreTail(r, r1)
    || (r1.bridge.Writing? && BeginWrite(r, r1, r1.bridge.d))
  }

  // --- the invariant --------------------------------------------------------------------------------

  function Notice(d: Desc): Packet {
    ExecNotify(d[0], d[1])
  }

  function Notices(ds: seq<Desc>): seq<Packet> {
    if ds == [] then [] else [Notice(ds[0])] + Notices(ds[1..])
  }

  /** How many notifications the driver has read off the wire. */
  function Read(r: Ring): int {
    if r.driver.Waiting? || r.driver.Stopped? || r.driver.Failed? then r.tail else r.tail + 1
  }

  /** How many descriptors have been announced. */
  function Announced(r: Ring): int {
    if r.bridge.Announcing? then r.head - 1 else r.head
  }

  /** The wire holds the notifications between the two, and perhaps the shutdown after them. */
  predicate WireOk(r: Ring) {
    && 0 <= Read(r) <= Announced(r) <= |r.sent|
    && (r.bridge.Closed? <==> r.closed) && (r.driver.Stopped? ==> r.closed)
    && (r.wire == Notices(r.sent[Read(r)..Announced(r)])
        || (r.closed && !r.driver.Stopped? && r.wire == Notices(r.sent[Read(r)..Announced(r)]) + [Shutdown]))
  }

  predicate BridgeOk(r: Ring)
    requires Sized(r)
  {
    match r.bridge
    case Writing(d, i) => i <= 5 && r.head - r.tail < r.capacity && r.slots[Slot(r, r.head)][..i] == d[..i]
    case Publishing(d) => r.head - r.tail < r.capacity && r.slots[Slot(r, r.head)] == d
    case Announcing(d) => r.head == |r.sent| > 0 && r.sent[|r.sent| - 1..] == [d]
    case _ => true
  }

  predicate DriverOk(r: Ring) {
    match r.driver
    case Notified(s, k) => 0 <= r.tail < r.head == |r.sent| && Notice(r.sent[r.tail]) == ExecNotify(s, k)
    case HasTail(s, k, t) => 0 <= t == r.tail < r.head == |r.sent| && Notice(r.sent[r.tail]) == ExecNotify(s, k)
    case HasHead(s, k, t, h) => 0 <= t == r.tail < h <= r.head == |r.sent| && Notice(r.sent[r.tail]) == ExecNotify(s, k)
    case Copying(s, k, t, c) =>
      0 <= t == r.tail < r.head == |r.sent| && Notice(r.sent[r.tail]) == ExecNotify(s, k) && |c| <= 5
          && c == r.sent[r.tail][..|c|]
    case Taking(t, c) => 0 <= t == r.tail < r.head == |r.sent| && c == r.sent[r.tail]
    case Failed => false
    case _ => true
  }

  /** Published and not yet taken: the slot still holds the descriptor. */
  predicate SlotsOk(r: Ring)
    requires Sized(r)
  {
    forall i :: 0 <= r.tail <= i < r.head && i < |r.sent| ==> r.slots[Slot(r, i)] == r.sent[i]
  }

  predicate Inv(r: Ring) {
    && Sized(r) && 0 <= r.tail <= r.head == |r.sent| && r.head - r.tail <= r.capacity
    && r.received == r.sent[..r.tail]
    && WireOk(r) && BridgeOk(r) && DriverOk(r) && SlotsOk(r)
  }

  lemma InitInv(r: Ring)
    requires Init(r)
    ensures Inv(r)
  {}

  lemma {:induction false} NoticesMore(ds: seq<Desc>, d: Desc)
    ensures Notices(ds + [d]) == Notices(ds) + [Notice(d)]
  {
    if ds == [] {
      assert [d][1..] == [];
    } else {
      NoticesMore(ds[1..], d);
      assert (ds + [d])[1..] == ds[1..] + [d];
    }
  }

  /** Two positions of one window have different slots. */
  lemma SlotsDiffer(cap: nat, i: int, j: int)
    requires cap > 0 && 0 <= i < j < i + cap
    ensures i % cap != j % cap
  {
    var a, x, k := i / cap, i % cap, j - i;
    assert i == a * cap + x;
    if x + k < cap {
      ModUnique(cap, a, x + k);
    } else {
      assert (a + 1) * cap == a * cap + cap;
      ModUnique(cap, a + 1, x + k - cap);
    }
  }

  lemma WriteFieldInv(r: Ring, r1: Ring)
    requires Inv(r) && WriteField(r, r1)
    ensures Inv(r1)
  {
    var s, i, d := Slot(r, r.head), r.bridge.i, r.bridge.d;
    assert r1.slots[s][..i + 1] == d[..i + 1];
    forall j | r.tail <= j < r.head ensures r1.slots[Slot(r, j)] == r.sent[j] { SlotsDiffer(r.capacity, j, r.head); }
  }

  lemma EndWriteInv(r: Ring, r1: Ring)
    requires Inv(r) && EndWrite(r, r1)
    ensures Inv(r1)
  {
    assert r.slots[Slot(r, r.head)][..5] == r.slots[Slot(r, r.head)] && r.bridge.d[..5] == r.bridge.d;
  }

  lemma PublishInv(r: Ring, r1: Ring)
    requires Inv(r) && Publish(r, r1)
    ensures Inv(r1)
  {
    assert r1.sent[..r1.tail] == r.sent[..r.tail];
    assert r1.sent[Read(r1)..Announced(r1)] == r.sent[Read(r)..Announced(r)];
    assert r1.sent[|r1.sent| - 1..] == [r.bridge.d];
  }

  lemma AnnounceInv(r: Ring, r1: Ring)
    requires Inv(r) && Announce(r, r1)
    ensures Inv(r1)
  {
    var d := r.bridge.d;
    assert r.sent[|r.sent| - 1] == d by { assert r.sent[|r.sent| - 1..][0] == d; }
    assert r.sent[Read(r)..r.head] == r.sent[Read(r)..r.head - 1] + [d];
    NoticesMore(r.sent[Read(r)..r.head - 1], d);
  }

  lemma CloseInv(r: Ring, r1: Ring, polite: bool)
    requires Inv(r) && Close(r, r1, polite)
    ensures Inv(r1)
  {
    assert r.wire + [] == r.wire;
    assert r1.sent[Read(r1)..Announced(r1)] == r.sent[Read(r)..Announced(r)];
  }

  lemma TakePacketInv(r: Ring, r1: Ring)
    requires Inv(r) && TakePacket(r, r1)
    ensures Inv(r1)
  {
    var ds := r.sent[Read(r)..Announced(r)];
    if ds == [] {
      assert r.wire == [Shutdown];
    } else {
      assert r.wire[0] == Notice(ds[0]) && ds[0] == r.sent[r.tail];
      assert ds[1..] == r.sent[r.tail + 1..Announced(r)];
      if r.wire != Notices(ds) { assert r.wire[1..] == Notices(ds[1..]) + [Shutdown]; }
      else { assert r.wire[1..] == Notices(ds[1..]); }
    }
  }

  lemma StoreTailInv(r: Ring, r1: Ring)
    requires Inv(r) && StoreTail(r, r1)
    ensures Inv(r1)
  {
    assert r.sent[..r.tail] + [r.sent[r.tail]] == r.sent[..r.tail + 1];
  }

  lemma CopyFieldInv(r: Ring, r1: Ring)
    requires Inv(r) && CopyField(r, r1)
    ensures Inv(r1)
  {
    var c, d := r.driver.copy, r.sent[r.tail];
    assert r.slots[Slot(r, r.tail)] == d;
    assert c + [d[|c|]] == d[..|c| + 1];
  }

  lemma CheckCopyInv(r: Ring, r1: Ring)
    requires Inv(r) && CheckCopy(r, r1)
    ensures Inv(r1)
  {
    assert r.sent[r.tail][..5] == r.sent[r.tail];
  }

  lemma StepInv(r: Ring, r1: Ring)
    requires Inv(r) && Step(r, r1)
    ensures Inv(r1)
  {
    if WriteField(r, r1) { WriteFieldInv(r, r1); }
    else if EndWrite(r, r1) { EndWriteInv(r, r1); }
    else if Publish(r, r1) { PublishInv(r, r1); }
    else if Announce(r, r1) { AnnounceInv(r, r1); }
    else if Close(r, r1, true) { CloseInv(r, r1, true); }
    else if Close(r, r1, false) { CloseInv(r, r1, false); }
    else if TakePacket(r, r1) { TakePacketInv(r, r1); }
    else if CopyField(r, r1) { CopyFieldInv(r, r1); }
    else if CheckCopy(r, r1) { CheckCopyInv(r, r1); }
    else if StoreTail(r, r1) { StoreTailInv(r, r1); }
    else { OtherInv(r, r1); }
  }

  lemma OtherInv(r: Ring, r1: Ring)
    requires Inv(r)
    requires SeeEnd(r, r1) || LoadTail(r, r1) || LoadHead(r, r1) || Compare(r, r1)
             || (r1.bridge.Writing? && BeginWrite(r, r1, r1.bridge.d))
    ensures Inv(r1)
  {}

  // --- every run ---------------------------------------------------------------------------------------

  /** A run: any interleaving of the two sides. */
  predicate IsRun(rs: seq<Ring>) {
    rs != [] && Init(rs[0]) && forall i :: 0 <= i < |rs| - 1 ==> Sized(rs[i]) && Step(rs[i], rs[i + 1])
  }

  lemma {:induction false} RunInv(rs: seq<Ring>, n: nat)
    requires IsRun(rs) && n < |rs|
    ensures Inv(rs[n])
    decreases n
  {
    if n == 0 { InitInv(rs[0]); } else { RunInv(rs, n - 1); StepInv(rs[n - 1], rs[n]); }
  }

  /** In every state of every run: what was received is what was published, in order, once each; and the driver
      never fails. */
  lemma InOrderOnce(rs: seq<Ring>, n: nat)
    requires IsRun(rs) && n < |rs|
    ensures rs[n].received <= rs[n].sent && |rs[n].received| == rs[n].tail && |rs[n].sent| == rs[n].head
    ensures rs[n].driver != Failed
    ensures rs[n].bridge.Closed? && rs[n].driver.Stopped? && rs[n].wire == [] ==> rs[n].received == rs[n].sent
  {
    RunInv(rs, n);
    var r := rs[n];
    if r.bridge.Closed? && r.driver.Stopped? && r.wire == [] {
      assert Notices(r.sent[r.tail..r.head]) == [];
      assert r.sent[r.tail..r.head] == [];
    }
  }

  /** Until the driver has moved its tail past a descriptor, no step of either side changes that descriptor's slot. */
  lemma NotRewritten(r: Ring, r1: Ring, i: int)
    requires Inv(r) && Step(r, r1) && r.tail <= i < r.head
    ensures r1.slots[Slot(r, i)] == r.slots[Slot(r, i)] == r.sent[i]
  {
    if WriteField(r, r1) { SlotsDiffer(r.capacity, i, r.head); }
  }
}

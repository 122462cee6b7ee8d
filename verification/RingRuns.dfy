/** What whole operations come to, step by step: a submission and the close on the Bridge's side, and one request on the
    driver's, in any state of the ring. */
module RingRuns {
  import opened RingProtocol

  /** One step after another. */
  ghost predicate Leads(r: Ring, r1: Ring) {
    exists rs: seq<Ring> :: Chain(rs) && rs[0] == r && rs[|rs| - 1] == r1
  }

  predicate Chain(rs: seq<Ring>) {
    rs != [] && forall i :: 0 <= i < |rs| - 1 ==> Sized(rs[i]) && Step(rs[i], rs[i + 1])
  }

  lemma LeadsOn(r: Ring, r1: Ring, r2: Ring)
    requires Leads(r, r1) && Sized(r1) && Step(r1, r2)
    ensures Leads(r, r2)
  {
    var rs :| Chain(rs) && rs[0] == r && rs[|rs| - 1] == r1;
    var longer := rs + [r2];
    assert Chain(longer) && longer[0] == r && longer[|longer| - 1] == r2;
  }

  lemma LeadsSelf(r: Ring)
    ensures Leads(r, r)
  {
    assert Chain([r]) && [r][0] == r;
  }

  // --- the driver -----------------------------------------------------------------------------------

  /** The record in the slot of the tail. */
  function Front(r: Ring): seq<int>
    requires Sized(r)
  {
    r.slots[r.tail % r.capacity]
  }

  /** The packet in front is a request for the record at the tail, and the ring is not empty. */
  predicate Served(r: Ring)
    requires Sized(r) && r.wire != [] && r.wire[0].ExecNotify?
  {
    r.tail < r.head && Front(r)[0] == r.wire[0].seqNo && Front(r)[1] == r.wire[0].kernel
  }

  /** The ring after the request has been taken. */
  function Taken(r: Ring): Ring
    requires Sized(r) && r.wire != []
  {
    r.(wire := r.wire[1..], tail := r.tail + 1, received := r.received + [Front(r)])
  }

  /** The ring after it has been refused: the driver has failed. */
  function Refused(r: Ring): Ring
    requires r.wire != []
  {
    r.(wire := r.wire[1..], driver := Failed)
  }

  /** A request in front of a waiting driver is taken or refused, whatever the state of the ring. */
  lemma TakesOrRefuses(r: Ring)
    requires Sized(r) && r.driver == Waiting && r.wire != [] && r.wire[0].ExecNotify?
    ensures Leads(r, if Served(r) then Taken(r) else Refused(r))
  {
    var s, k, t := r.wire[0].seqNo, r.wire[0].kernel, r.tail;
    var r1 := r.(wire := r.wire[1..], driver := Notified(s, k));
    var r2, r3 := r1.(driver := HasTail(s, k, t)), r1.(driver := HasHead(s, k, t, r.head));
    LeadsSelf(r);
    assert TakePacket(r, r1);
    LeadsOn(r, r, r1);
    assert LoadTail(r1, r2);
    LeadsOn(r, r1, r2);
    assert LoadHead(r2, r3);
    LeadsOn(r, r2, r3);
    var r4 := r1.(driver := if t >= r.head then Failed else Copying(s, k, t, []));
    assert Compare(r3, r4);
    LeadsOn(r, r3, r4);
    if t < r.head { Copies(r, r1, s, k); }
  }

  /** The copy, field by field, the check of it and the store. */
  lemma Copies(r: Ring, r1: Ring, s: int, k: int)
    requires Sized(r) && r.driver == Waiting && r.wire != [] && r.wire[0] == ExecNotify(s, k) && r.tail < r.head
    requires r1.(driver := Waiting) == r.(wire := r.wire[1..])
    requires Leads(r, r1.(driver := Copying(s, k, r.tail, [])))
    ensures Leads(r, if Served(r) then Taken(r) else Refused(r))
  {
    var d, t := Front(r), r.tail;
    assert d[..0] == [];
    CopiesTo(r, r1, s, k, 5);
    assert d[..5] == d;
    var r2 := r1.(driver := Copying(s, k, t, d));
    var r3 := r1.(driver := if d[0] != s || d[1] != k then Failed else Taking(t, d));
    assert CheckCopy(r2, r3);
    LeadsOn(r, r2, r3);
    if Served(r) {
      assert StoreTail(r3, Taken(r));
      LeadsOn(r, r3, Taken(r));
    }
  }

  lemma {:induction false} CopiesTo(r: Ring, r1: Ring, s: int, k: int, n: nat)
    requires Sized(r) && n <= 5 && r1.(driver := Waiting) == r.(driver := Waiting, wire := r1.wire)
    requires Leads(r, r1.(driver := Copying(s, k, r.tail, Front(r)[..0])))
    ensures Leads(r, r1.(driver := Copying(s, k, r.tail, Front(r)[..n])))
  {
    if n > 0 {
      var d := Front(r);
      CopiesTo(r, r1, s, k, n - 1);
      CopiesOne(r, r1, s, k, n - 1);
      LeadsOn(r, r1.(driver := Copying(s, k, r.tail, d[..n - 1])), r1.(driver := Copying(s, k, r.tail, d[..n])));
    }
  }

  lemma CopiesOne(r: Ring, r1: Ring, s: int, k: int, n: nat)
    requires Sized(r) && n < 5 && r1.(driver := Waiting) == r.(driver := Waiting, wire := r1.wire)
    ensures Sized(r1)
    ensures var d := Front(r);
      CopyField(r1.(driver := Copying(s, k, r.tail, d[..n])), r1.(driver := Copying(s, k, r.tail, d[..n + 1])))
  {
    var d := Front(r);
    assert d[..n + 1] == d[..n] + [d[n]] && r1.slots == r.slots && r1.capacity == r.capacity;
  }

  /** At the shutdown, and at the end of a closed wire, it stops. */
  lemma Stops(r: Ring)
    requires Sized(r) && r.driver == Waiting && (if r.wire == [] then r.closed else r.wire[0].Shutdown?)
    ensures Leads(r, r.(driver := Stopped, wire := if r.wire == [] then [] else r.wire[1..]))
  {
    var r1 := r.(driver := Stopped, wire := if r.wire == [] then [] else r.wire[1..]);
    assert if r.wire == [] then SeeEnd(r, r1) else TakePacket(r, r1);
    LeadsSelf(r);
    LeadsOn(r, r, r1);
  }

  // --- the Bridge ------------------------------------------------------------------------------------

  /** The ring after a descriptor has been submitted: it stands in the slot of the head, is counted and announced. */
  function Submitted(r: Ring, d: Desc): Ring
    requires Sized(r)
  {
    r.(slots := r.slots[r.head % r.capacity := d], head := r.head + 1, sent := r.sent + [d],
       wire := r.wire + [ExecNotify(d[0], d[1])])
  }

  /** While there is room any descriptor can be submitted. */
  lemma Submits(r: Ring, d: Desc)
    requires Sized(r) && r.bridge == Free && r.head - r.tail < r.capacity
    ensures Leads(r, Submitted(r, d))
  {
    var r0 := r.(bridge := Writing(d, 0));
    LeadsSelf(r);
    assert BeginWrite(r, r0, d);
    LeadsOn(r, r, r0);
    WritesTo(r, d, 5);
    var w := Half(r, d, 5);
    assert w[..5] == w && d[..5] == d && w == d;
    var r1 := r.(slots := r.slots[r.head % r.capacity := d], bridge := Writing(d, 5));
    var r2 := r1.(bridge := Publishing(d));
    assert EndWrite(r1, r2);
    LeadsOn(r, r1, r2);
    var r3 := r2.(head := r.head + 1, bridge := Announcing(d), sent := r.sent + [d]);
    assert Publish(r2, r3);
    LeadsOn(r, r2, r3);
    assert Announce(r3, Submitted(r, d));
    LeadsOn(r, r3, Submitted(r, d));
  }

  /** A slot with its first `n` fields written. */
  function Half(r: Ring, d: Desc, n: nat): seq<int>
    requires Sized(r) && n <= 5
  {
    d[..n] + r.slots[r.head % r.capacity][n..]
  }

  lemma {:induction false} WritesTo(r: Ring, d: Desc, n: nat)
    requires Sized(r) && n <= 5 && Leads(r, r.(bridge := Writing(d, 0)))
    ensures Leads(r, r.(slots := r.slots[r.head % r.capacity := Half(r, d, n)], bridge := Writing(d, n)))
  {
    var at := r.head % r.capacity;
    if n == 0 {
      assert Half(r, d, 0) == r.slots[at];
      assert r.slots[at := Half(r, d, 0)] == r.slots;
    } else {
      WritesTo(r, d, n - 1);
      var a := r.(slots := r.slots[at := Half(r, d, n - 1)], bridge := Writing(d, n - 1));
      var b := r.(slots := r.slots[at := Half(r, d, n)], bridge := Writing(d, n));
      assert Half(r, d, n - 1)[n - 1 := d[n - 1]] == Half(r, d, n);
      assert a.slots[at := Half(r, d, n)] == b.slots;
      assert WriteField(a, b);
      LeadsOn(r, a, b);
    }
  }

  /** It can close whenever it is free, with the shutdown announced or without. */
  lemma Closes(r: Ring, polite: bool)
    requires Sized(r) && r.bridge == Free
    ensures Leads(r, r.(wire := if polite then r.wire + [Shutdown] else r.wire, closed := true, bridge := Closed))
  {
    var r1 := r.(wire := if polite then r.wire + [Shutdown] else r.wire, closed := true, bridge := Closed);
    assert r.wire + [] == r.wire;
    assert Close(r, r1, polite);
    LeadsSelf(r);
    LeadsOn(r, r, r1);
  }
}

/**
  A reference receiver for V3 fragments; the code base has none. It files parts by
  offset and takes the number of parts from the datagrams themselves.
 */
module ReceiverV3 {
  import opened Bytes
  import opened Sequences
  import opened Packet
  import opened Reassembly

  /** Not a V3 datagram of this message. */
  predicate Foreign(d: seq<Byte>, msgId: U32) {
    |d| < HEADER_V3 || d[0] != V3 || ParseV3(d).msgId != msgId
  }

  /** Parts by offset; repeats overwrite. */
  function Collected(ds: seq<seq<Byte>>, msgId: U32): map<U16, seq<Byte>> {
    if ds == [] then map[]
    else
      var n := |ds| - 1;
      var before := Collected(ds[..n], msgId);
      if Foreign(ds[n], msgId) then before else before[ParseV3(ds[n]).fragOffset := ds[n][HEADER_V3..]]
  }

  /** The number of parts that the latest datagram of the message announces; zero before the first. */
  function Announced(ds: seq<seq<Byte>>, msgId: U32): nat {
    if ds == [] then 0
    else
      var n := |ds| - 1;
      if Foreign(ds[n], msgId) then Announced(ds[..n], msgId) else ParseV3(ds[n]).fragTotal
  }

  /** The message, once all announced parts are there. */
  function Reassembled(ds: seq<seq<Byte>>, msgId: U32): Slice {
    var m, total := Collected(ds, msgId), Announced(ds, msgId);
    if 0 < total <= POW16 && forall i :: 0 <= i < total ==> i in m then Data(Joined(m, total)) else Nil
  }

  /** A datagram that is filed under this message at offset i. */
  predicate FiledAt(d: seq<Byte>, msgId: U32, i: int) {
    !Foreign(d, msgId) && ParseV3(d).fragOffset == i
  }

  /** Datagram i of a message of n parts, with its part. */
  predicate Carries(d: seq<Byte>, msgId: U32, i: int, n: nat, part: seq<Byte>) {
    FiledAt(d, msgId, i) && ParseV3(d).fragTotal == n && d[HEADER_V3..] == part
  }

  /** The datagrams of one message, in order of offset. */
  ghost predicate IsWire(wire: seq<seq<Byte>>, msgId: U32, parts: seq<seq<Byte>>) {
    && 1 <= |wire| == |parts| <= 0xFFFF
    && forall i :: 0 <= i < |wire| ==> Carries(wire[i], msgId, i, |wire|, parts[i])
  }

  /** Datagrams of the message in any order and number, and foreign ones. */
  ghost predicate Arrivals(ds: seq<seq<Byte>>, wire: seq<seq<Byte>>, msgId: U32) {
    forall j :: 0 <= j < |ds| ==> Foreign(ds[j], msgId) || ds[j] in wire
  }

  ghost predicate AllArrived(ds: seq<seq<Byte>>, wire: seq<seq<Byte>>) {
    forall i :: 0 <= i < |wire| ==> wire[i] in ds
  }

  lemma {:induction false} CollectedAt(ds: seq<seq<Byte>>, msgId: U32, i: U16, part: seq<Byte>)
    requires forall j :: 0 <= j < |ds| && FiledAt(ds[j], msgId, i) ==> ds[j][HEADER_V3..] == part
    ensures i in Collected(ds, msgId) <==> exists j :: 0 <= j < |ds| && FiledAt(ds[j], msgId, i)
    ensures i in Collected(ds, msgId) ==> Collected(ds, msgId)[i] == part
  {
    if ds != [] {
      var n := |ds| - 1;
      CollectedAt(ds[..n], msgId, i, part);
      if exists j :: 0 <= j < n && FiledAt(ds[..n][j], msgId, i) {
        var j :| 0 <= j < n && FiledAt(ds[..n][j], msgId, i);
        assert FiledAt(ds[j], msgId, i);
      }
    }
  }

  /** Part i is there exactly when datagram i has arrived. */
  lemma PartCollected(ds: seq<seq<Byte>>, msgId: U32, wire: seq<seq<Byte>>, parts: seq<seq<Byte>>, i: nat)
    requires IsWire(wire, msgId, parts) && Arrivals(ds, wire, msgId) && i < |wire|
    ensures i in Collected(ds, msgId) <==> wire[i] in ds
    ensures i in Collected(ds, msgId) ==> Collected(ds, msgId)[i] == parts[i]
  {
    forall j | 0 <= j < |ds| && FiledAt(ds[j], msgId, i)
      ensures ds[j] == wire[i] && ds[j][HEADER_V3..] == parts[i]
    {
      var k :| 0 <= k < |wire| && wire[k] == ds[j];
      assert Carries(wire[k], msgId, k, |wire|, parts[k]);
    }
    CollectedAt(ds, msgId, i, parts[i]);
    assert Carries(wire[i], msgId, i, |wire|, parts[i]);
  }

  /** Every datagram of the message announces the same total, so the first one settles it. */
  lemma {:induction false} AnnouncedOnce(ds: seq<seq<Byte>>, msgId: U32, wire: seq<seq<Byte>>, parts: seq<seq<Byte>>)
    requires IsWire(wire, msgId, parts) && Arrivals(ds, wire, msgId)
    ensures Announced(ds, msgId) == if exists d :: d in ds && d in wire then |wire| else 0
  {
    if ds != [] {
      var n := |ds| - 1;
      AnnouncedOnce(ds[..n], msgId, wire, parts);
      assert ds == ds[..n] + [ds[n]];
      if ds[n] in wire {
        var k :| 0 <= k < |wire| && wire[k] == ds[n];
        assert Carries(wire[k], msgId, k, |wire|, parts[k]);
      }
    }
  }

  /**
    Whatever the order, the repeats and the foreign datagrams among them, the receiver has
    the concatenated parts as soon as each datagram has arrived once, and nothing before.
   */
  lemma Rejoins(ds: seq<seq<Byte>>, msgId: U32, wire: seq<seq<Byte>>, parts: seq<seq<Byte>>)
    requires IsWire(wire, msgId, parts) && Arrivals(ds, wire, msgId)
    ensures Reassembled(ds, msgId) == if AllArrived(ds, wire) then Data(Flatten(parts)) else Nil
  {
    AnnouncedOnce(ds, msgId, wire, parts);
    if AllArrived(ds, wire) {
      assert wire[0] in ds && wire[0] in wire;
      AllCollected(ds, msgId, wire, parts);
      JoinedIsFlatten(Collected(ds, msgId), parts, |parts|);
      assert parts[..|parts|] == parts;
    } else {
      var i :| 0 <= i < |wire| && wire[i] !in ds;
      PartCollected(ds, msgId, wire, parts, i);
    }
  }

  lemma AllCollected(ds: seq<seq<Byte>>, msgId: U32, wire: seq<seq<Byte>>, parts: seq<seq<Byte>>)
    requires IsWire(wire, msgId, parts) && Arrivals(ds, wire, msgId) && AllArrived(ds, wire)
    ensures var m := Collected(ds, msgId); forall i :: 0 <= i < |parts| ==> i in m && m[i] == parts[i]
  {
    forall i | 0 <= i < |parts|
      ensures i in Collected(ds, msgId) && Collected(ds, msgId)[i] == parts[i]
    {
      PartCollected(ds, msgId, wire, parts, i);
    }
  }
}

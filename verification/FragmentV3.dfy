/**
  V3 sending: one datagram if the payload fits, otherwise fragments that share a
  message ID. The receiving side is not in the code base; it is measured against the
  reference receiver of ReceiverV3.
 */
module FragmentV3 {
  import opened Bytes
  import opened Sequences
  import opened Packet
  import Checksum
  import Reassembly
  import opened ReceiverV3
  import opened Chunker
  import M = ClientModel
  import CC = ClientCode

  const FRAGMENTED: Byte := 1
  const FRAG_START: Byte := 2
  const FRAG_END: Byte := 4
  const MAX_FRAGMENTS := 0xFFFF

  /**
    One message; `seqs` are the wire numbers its datagrams get from the counter, which
    other senders may use in between.
   */
  datatype Message = Message(
    payload: seq<Byte>, capacity: nat, tier: Byte, stream: U16, userFlags: Byte, msgId: U32,
    seqs: nat -> U16, hash: seq<Byte> -> U32)

  predicate WellFormed(g: Message) {
    1 <= g.capacity <= MAX_DATAGRAM - HEADER_V3
  }

  function Total(g: Message): nat
    requires WellFormed(g)
  {
    (|g.payload| + g.capacity - 1) / g.capacity
  }

  function Upto(g: Message, i: nat): nat {
    if i * g.capacity <= |g.payload| then i * g.capacity else |g.payload|
  }

  function Part(g: Message, i: nat): seq<Byte> {
    UptoGrows(g, i);
    g.payload[Upto(g, i)..Upto(g, i + 1)]
  }

  lemma UptoGrows(g: Message, i: nat)
    ensures 0 <= Upto(g, i) <= Upto(g, i + 1) <= |g.payload|
    ensures (i + 1) * g.capacity == i * g.capacity + g.capacity
  {
  }

  function FragmentFlags(first: bool, last: bool): Byte {
    FRAGMENTED + (if first then FRAG_START else 0) + (if last then FRAG_END else 0)
  }

  lemma FlagBits(first: bool, last: bool)
    ensures var flags := FragmentFlags(first, last);
            flags / 1 % 2 == 1 && (flags / 2 % 2 == 1 <==> first) && (flags / 4 % 2 == 1 <==> last) && flags < 8
  {
  }

  function FragmentHeader(g: Message, i: nat, total: nat): HeaderV3
    requires i < total <= MAX_FRAGMENTS
  {
    HeaderV3(DATA, g.tier,
             FragmentFlags(i == 0, i == total - 1),
             g.seqs(i), g.stream, g.msgId, i, total, g.hash(Part(g, i)))
  }

  /** The datagrams of a message, in sending order. */
  function Datagram(g: Message, i: nat): seq<Byte>
    requires WellFormed(g) && i < Total(g) <= MAX_FRAGMENTS
  {
    EncodeV3(FragmentHeader(g, i, Total(g)), Part(g, i))
  }

  function Single(g: Message): seq<Byte> {
    EncodeV3(HeaderV3(DATA, g.tier, g.userFlags, g.seqs(0), g.stream, g.msgId, 0, 1, g.hash(g.payload)), g.payload)
  }

  /** What a fault-free transmission puts on the wire. */
  function Wire(g: Message): seq<seq<Byte>>
    requires WellFormed(g) && Total(g) <= MAX_FRAGMENTS
  {
    if |g.payload| <= g.capacity then [Single(g)]
    else seq(Total(g), i requires 0 <= i < Total(g) => Datagram(g, i))
  }

  datatype Outcome = Done | TooManyFragments | Stalled | NotWritten

  /** Without other senders, the counter hands out consecutive numbers. */
  ghost predicate Consecutive(g: Message, counter: U32) {
    forall i: nat :: g.seqs(i) == (counter + 1 + i) % POW32 % POW16
  }

  /** The client after sending these datagrams one after the other. */
  ghost function AllSent(s: M.ClientState, wire: seq<seq<Byte>>, g: Message): M.ClientState {
    if wire == [] then s
    else CC.Tracked(AllSent(s, wire[..|wire| - 1], g), wire[|wire| - 1], g.tier, g.stream)
  }

  /** The client after the whole call: a failed write is counted, and a stall changes nothing. */
  ghost function AfterTransmit(s: M.ClientState, wire: seq<seq<Byte>>, g: Message, r: Outcome): M.ClientState
    requires WellFormed(g) && Total(g) <= MAX_FRAGMENTS && (r == NotWritten ==> |wire| < |Wire(g)|)
  {
    var t := AllSent(s, wire, g);
    if r == NotWritten then M.AfterWrite(t, Wire(g)[|wire|], g.tier, g.stream, false) else t
  }

  lemma {:induction false} CounterAfter(s: M.ClientState, wire: seq<seq<Byte>>, g: Message)
    ensures AllSent(s, wire, g).counter == (s.counter + |wire|) % POW32 && AllSent(s, wire, g).clock == s.clock
  {
    if wire != [] {
      var n := |wire| - 1;
      CounterAfter(s, wire[..n], g);
      TrackedCounter(AllSent(s, wire[..n], g), wire[n], g);
      WrapTwice(s.counter, n);
    }
  }

  lemma TrackedCounter(s: M.ClientState, data: seq<Byte>, g: Message)
    ensures var t := CC.Tracked(s, data, g.tier, g.stream); t.counter == (s.counter + 1) % POW32 && t.clock == s.clock
  {
  }

  /** The number the counter hands out next is the one the message expects. */
  lemma NextNumber(s: M.ClientState, wire: seq<seq<Byte>>, g: Message)
    requires Consecutive(g, s.counter)
    ensures M.NextKey(AllSent(s, wire, g)) % POW16 == g.seqs(|wire|)
  {
    CounterAfter(s, wire, g);
    WrapTwice(s.counter, |wire|);
  }

  lemma WrapTwice(c: nat, n: nat)
    ensures ((c + n) % POW32 + 1) % POW32 == (c + 1 + n) % POW32
  {
  }

  /** Number, build and write one datagram; track it if the write succeeds. */
  method SendOne(c: CC.Client, g: Message, build: U16 -> seq<Byte>, now: nat, ok: bool) returns (pkt: seq<Byte>)
    requires now == c.clock
    modifies c
    ensures pkt == build(M.NextKey(old(c.State())) % POW16)
    ensures c.State() == if ok then CC.Tracked(old(c.State()), pkt, g.tier, g.stream)
                         else M.AfterWrite(old(c.State()), pkt, g.tier, g.stream, false)
  {
    var key, p := c.WriteNext(build, g.tier, g.stream, now, ok);
    pkt := build(key % POW16);
    if ok && g.tier != BEST_EFFORT {
      c.InsertInflight(key, p, now);
    }
  }

  /** The header and payload of fragment i, as the loop body computes them. */
  method Cut(g: Message, i: nat, total: nat) returns (flags: Byte, chunk: seq<Byte>)
    requires WellFormed(g) && total == Total(g) <= MAX_FRAGMENTS && i < total
    ensures chunk == Part(g, i) && flags == FragmentHeader(g, i, total).flags
  {
    UptoGrows(g, i);
    StartInside(g, i);
    var start := i * g.capacity;
    var end := start + g.capacity;
    if end > |g.payload| {
      end := |g.payload|;
    }
    chunk := g.payload[start..end];
    flags := FRAGMENTED;
    if i == 0 {
      flags := flags + FRAG_START;
    }
    if i == total - 1 {
      flags := flags + FRAG_END;
    }
  }

  /** The client, started at s, has sent the datagrams of `wire`, which begin the message. */
  ghost predicate Sofar(t: M.ClientState, s: M.ClientState, g: Message, wire: seq<seq<Byte>>)
    requires WellFormed(g) && Total(g) <= MAX_FRAGMENTS
  {
    wire <= Wire(g) && t == AllSent(s, wire, g) && t.clock == s.clock
  }

  lemma OneMore(s: M.ClientState, g: Message, wire: seq<seq<Byte>>, pkt: seq<Byte>)
    requires WellFormed(g) && Total(g) <= MAX_FRAGMENTS
    requires wire <= Wire(g) && |wire| < |Wire(g)| && pkt == Wire(g)[|wire|]
    ensures Sofar(CC.Tracked(AllSent(s, wire, g), pkt, g.tier, g.stream), s, g, wire + [pkt])
  {
    SentSnoc(s, wire, pkt, g);
    PrefixSnoc(wire, Wire(g));
  }

  /** One turn of the loop, once the window is open. */
  method SendFragment(c: CC.Client, g: Message, wire: seq<seq<Byte>>, ghost s: M.ClientState, total: nat, now: nat, ok: bool)
    returns (longer: seq<seq<Byte>>)
    requires WellFormed(g) && total == Total(g) <= MAX_FRAGMENTS && |g.payload| > g.capacity && |wire| < total
    requires now == c.clock && Consecutive(g, s.counter) && Sofar(c.State(), s, g, wire)
    modifies c
    ensures ok ==> |longer| == |wire| + 1 && Sofar(c.State(), s, g, longer)
    ensures !ok ==> longer == wire
                    && c.State() == M.AfterWrite(AllSent(s, wire, g), Wire(g)[|wire|], g.tier, g.stream, false)
  {
    var i := |wire|;
    var flags, chunk := Cut(g, i, total);
    NextNumber(s, wire, g);
    var build := (q: U16) => EncodeV3(HeaderV3(DATA, g.tier, flags, q, g.stream, g.msgId, i, total, g.hash(chunk)), chunk);
    assert build(g.seqs(i)) == Wire(g)[i];
    var pkt := SendOne(c, g, build, now, ok);
    OneMore(s, g, wire, pkt);
    longer := if ok then wire + [pkt] else wire;
  }

  /** What a transmission reports, against the faults it met. */
  ghost predicate Explains(r: Outcome, n: nat, faults: nat -> Fault) {
    && (forall i: nat :: i < n ==> faults(i) == Fine)
    && (r == Stalled ==> faults(n) == Stall)
    && (r == NotWritten ==> faults(n) == WriteError)
  }

  method TransmitFragmented(c: CC.Client, g: Message, now: nat, faults: nat -> Fault) returns (r: Outcome, wire: seq<seq<Byte>>)
    requires WellFormed(g) && |g.payload| > g.capacity && now == c.clock && Consecutive(g, c.counter)
    modifies c
    ensures r == TooManyFragments <==> Total(g) > 65535
    ensures r == TooManyFragments ==> wire == [] && c.State() == old(c.State())
    ensures r != TooManyFragments ==>
              && wire <= Wire(g) && (r == Done <==> wire == Wire(g))
              && Explains(r, |wire|, faults)
              && c.State() == AfterTransmit(old(c.State()), wire, g, r)
  {
    var total := (|g.payload| + g.capacity - 1) / g.capacity;
    if total > MAX_FRAGMENTS {
      return TooManyFragments, [];
    }
    r, wire := SendFragments(c, g, total, now, faults);
  }

  /** The loop: stop at the first stall or failed write. */
  method SendFragments(c: CC.Client, g: Message, total: nat, now: nat, faults: nat -> Fault)
    returns (r: Outcome, wire: seq<seq<Byte>>)
    requires WellFormed(g) && |g.payload| > g.capacity && now == c.clock && Consecutive(g, c.counter)
    requires total == Total(g) <= MAX_FRAGMENTS
    modifies c
    ensures r != TooManyFragments && wire <= Wire(g) && (r == Done <==> |wire| == |Wire(g)|)
    ensures Explains(r, |wire|, faults)
    ensures c.State() == AfterTransmit(old(c.State()), wire, g, r)
  {
    ghost var s := c.State();
    wire := [];
    while |wire| < total
      invariant |wire| <= total && c.clock == now
      invariant Sofar(c.State(), s, g, wire) && Explains(Done, |wire|, faults)
      decreases total - |wire|
    {
      if faults(|wire|) == Stall {
        return Stalled, wire;
      }
      var ok := faults(|wire|) != WriteError;
      var longer := SendFragment(c, g, wire, s, total, now, ok);
      if !ok {
        return NotWritten, wire;
      }
      OneMoreFine(|wire|, faults);
      wire := longer;
    }
    r := Done;
  }

  lemma OneMoreFine(i: nat, faults: nat -> Fault)
    requires Explains(Done, i, faults) && faults(i) == Fine
    ensures Explains(Done, i + 1, faults)
  {
  }

  lemma SentSnoc(s: M.ClientState, wire: seq<seq<Byte>>, pkt: seq<Byte>, g: Message)
    ensures AllSent(s, wire + [pkt], g) == CC.Tracked(AllSent(s, wire, g), pkt, g.tier, g.stream)
    ensures AllSent(s, wire + [pkt], g).clock == s.clock
  {
    assert (wire + [pkt])[..|wire|] == wire;
    CounterAfter(s, wire, g);
  }

  /** `transmitSingleV3`: no size check and no window wait. */
  method TransmitSingle(c: CC.Client, g: Message, now: nat, ok: bool) returns (pkt: seq<Byte>)
    requires now == c.clock && Consecutive(g, c.counter)
    modifies c
    ensures pkt == Single(g)
    ensures c.State() == if ok then CC.Tracked(old(c.State()), pkt, g.tier, g.stream)
                         else M.AfterWrite(old(c.State()), pkt, g.tier, g.stream, false)
  {
    NextNumber(c.State(), [], g);
    pkt := SendOne(
      c, g,
      q => EncodeV3(HeaderV3(DATA, g.tier, g.userFlags, q, g.stream, g.msgId, 0, 1, g.hash(g.payload)), g.payload),
      now, ok);
  }

  /** `transmitV3`: one datagram if the payload fits, fragments otherwise. */
  method TransmitV3(c: CC.Client, g: Message, now: nat, faults: nat -> Fault) returns (r: Outcome, wire: seq<seq<Byte>>)
    requires WellFormed(g) && now == c.clock && Consecutive(g, c.counter)
    modifies c
    ensures r == TooManyFragments <==> Total(g) > 65535
    ensures r == TooManyFragments ==> wire == [] && c.State() == old(c.State())
    ensures r != TooManyFragments ==>
              && wire <= Wire(g) && (r == Done <==> wire == Wire(g))
              && c.State() == AfterTransmit(old(c.State()), wire, g, r)
    ensures |g.payload| <= g.capacity ==> r == if faults(0) == WriteError then NotWritten else Done
    ensures |g.payload| > g.capacity && r != TooManyFragments ==> Explains(r, |wire|, faults)
  {
    if |g.payload| <= g.capacity {
      OneFragmentAtMost(g);
      var ok := faults(0) != WriteError;
      ghost var s := c.State();
      var pkt := TransmitSingle(c, g, now, ok);
      SentSnoc(s, [], pkt, g);
      assert [] + [pkt] == [pkt];
      if !ok {
        return NotWritten, [];
      }
      return Done, [pkt];
    }
    r, wire := TransmitFragmented(c, g, now, faults);
  }

  lemma OneFragmentAtMost(g: Message)
    requires WellFormed(g) && |g.payload| <= g.capacity
    ensures Total(g) <= 1
  {
    var n, c := |g.payload|, g.capacity;
    DivBounds(n, c);
    if Total(g) >= 2 {
      MulLess(1, Total(g), c);
    }
  }

  /** Every fragment starts inside the payload, and the last one reaches its end. */
  lemma StartInside(g: Message, i: nat)
    requires WellFormed(g) && i < Total(g)
    ensures i * g.capacity < |g.payload|
    ensures Upto(g, Total(g)) == |g.payload|
  {
    var n, c, t := |g.payload|, g.capacity, Total(g);
    DivBounds(n, c);
    MulLess(i, t, c);
  }

  lemma DivBounds(n: nat, c: nat)
    requires c >= 1
    ensures n <= (n + c - 1) / c * c <= n + c - 1
  {
    var q := (n + c - 1) / c;
    assert n + c - 1 == q * c + (n + c - 1) % c;
  }

  lemma MulLess(i: nat, t: nat, c: nat)
    requires i < t
    ensures i * c + c <= t * c
  {
    assert (t - i - 1) * c >= 0;
    assert t * c == i * c + c + (t - i - 1) * c;
  }

  // ---- shape of the fragments ----

  /**
    Every fragment is non-empty, within capacity, parses back to its header, verifies,
    and carries START exactly at offset 0 and END exactly at the last offset.
   */
  lemma FragmentShape(g: Message, i: nat)
    requires WellFormed(g) && i < Total(g) <= MAX_FRAGMENTS
    ensures 0 < |Part(g, i)| <= g.capacity
    ensures |Datagram(g, i)| <= MAX_DATAGRAM && Checksum.Verifies(Datagram(g, i), 20)
    ensures Datagram(g, i)[HEADER_V3..] == Part(g, i)
    ensures var h := ParseV3(Datagram(g, i));
            && h.kind == 1 && h.tier == g.tier && h.seqNo == g.seqs(i) && h.stream == g.stream
            && h.msgId == g.msgId && h.fragOffset == i && h.fragTotal == Total(g)
            && h.contentId == g.hash(Part(g, i))
            && h.flags / 1 % 2 == 1 && (h.flags / 2 % 2 == 1 <==> i == 0) && (h.flags / 4 % 2 == 1 <==> i == Total(g) - 1)
            && h.flags < 8
  {
    UptoGrows(g, i);
    StartInside(g, i);
    FlagBits(i == 0, i == Total(g) - 1);
    EncodeThenParseV3(FragmentHeader(g, i, Total(g)), Part(g, i));
  }

  function Parts(g: Message, k: nat): seq<seq<Byte>> {
    if k == 0 then [] else Parts(g, k - 1) + [Part(g, k - 1)]
  }

  lemma {:induction false} PartsAt(g: Message, k: nat, i: nat)
    requires i < k
    ensures |Parts(g, k)| == k && Parts(g, k)[i] == Part(g, i)
  {
    if k > 1 {
      PartsAt(g, k - 1, if i < k - 1 then i else 0);
    }
  }

  lemma {:induction false} PartsCover(g: Message, k: nat)
    ensures Flatten(Parts(g, k)) == g.payload[..Upto(g, k)]
  {
    if k > 0 {
      PartsCover(g, k - 1);
      FlattenSnoc(Parts(g, k - 1), Part(g, k - 1));
      UptoGrows(g, k - 1);
      SliceJoin(g.payload, Upto(g, k - 1), Upto(g, k));
    }
  }

  // ---- the inflight entries ----

  /** What the header of the i-th datagram says, of one or of many. */
  lemma WireHeader(g: Message, i: nat)
    requires WellFormed(g) && Total(g) <= MAX_FRAGMENTS && i < |Wire(g)|
    ensures var d := Wire(g)[i];
            && |d| >= HEADER_V3
            && var h := ParseV3(d);
               && h.kind == 1 && h.tier == g.tier && h.seqNo == g.seqs(i) && h.stream == g.stream && h.msgId == g.msgId
               && h.contentId == g.hash(d[22..])
               && (|g.payload| <= g.capacity ==> h.flags == g.userFlags && h.fragOffset == 0 && h.fragTotal == 1)
  {
    if |g.payload| <= g.capacity {
      EncodeThenParseV3(
        HeaderV3(DATA, g.tier, g.userFlags, g.seqs(0), g.stream, g.msgId, 0, 1, g.hash(g.payload)), g.payload);
    } else {
      FragmentShape(g, i);
    }
  }

  function KeyAt(counter: U32, i: nat): U32 {
    (counter + 1 + i) % POW32
  }

  ghost predicate HasEntry(m: map<U32, M.Pkt>, k: U32, data: seq<Byte>, g: Message) {
    k in m && m[k].data == data && m[k].seqNo == k % POW16 && m[k].stream == g.stream && m[k].tier == g.tier
  }

  /** The i-th send of a call has its own inflight entry. */
  lemma {:induction false} EntryOf(s: M.ClientState, wire: seq<seq<Byte>>, g: Message, i: nat)
    requires i < |wire| <= MAX_FRAGMENTS && g.tier != BEST_EFFORT
    ensures HasEntry(AllSent(s, wire, g).inflight, KeyAt(s.counter, i), wire[i], g)
  {
    var n := |wire| - 1;
    LastKey(s, wire, g);
    if i < n {
      EntryOf(s, wire[..n], g, i);
      KeysDiffer(s.counter, i, n);
      EntryKept(AllSent(s, wire[..n], g), wire[n], g, KeyAt(s.counter, i), wire[i]);
    } else {
      TrackedEntry(AllSent(s, wire[..n], g), wire[n], g);
    }
  }

  lemma EntryKept(s: M.ClientState, last: seq<Byte>, g: Message, k: U32, data: seq<Byte>)
    requires g.tier != BEST_EFFORT && HasEntry(s.inflight, k, data, g) && k != M.NextKey(s)
    ensures HasEntry(CC.Tracked(s, last, g.tier, g.stream).inflight, k, data, g)
  {
    TrackedEntry(s, last, g);
  }

  lemma LastKey(s: M.ClientState, wire: seq<seq<Byte>>, g: Message)
    requires wire != []
    ensures var n := |wire| - 1; M.NextKey(AllSent(s, wire[..n], g)) == KeyAt(s.counter, n)
  {
    var n := |wire| - 1;
    CounterAfter(s, wire[..n], g);
    WrapTwice(s.counter, n);
  }

  lemma TrackedEntry(s: M.ClientState, data: seq<Byte>, g: Message)
    requires g.tier != BEST_EFFORT
    ensures var k, t := M.NextKey(s), CC.Tracked(s, data, g.tier, g.stream);
            t.inflight == s.inflight[k := M.Pkt(data, k % POW16, g.stream, g.tier, s.clock, 0)]
  {
  }

  lemma KeysDiffer(counter: U32, i: nat, n: nat)
    requires i < n <= MAX_FRAGMENTS
    ensures KeyAt(counter, i) != KeyAt(counter, n)
  {
  }

  /** So an ACK of any of the message's datagrams, by its own number and stream, names that datagram's entry. */
  lemma EntriesMatch(s: M.ClientState, g: Message, wire: seq<seq<Byte>>, i: nat)
    requires WellFormed(g) && Total(g) <= MAX_FRAGMENTS && wire <= Wire(g) && i < |wire|
    requires Consecutive(g, s.counter) && g.tier != BEST_EFFORT
    ensures |wire[i]| >= HEADER_V3
    ensures var m, k, h := AllSent(s, wire, g).inflight, KeyAt(s.counter, i), ParseV3(wire[i]);
            k in m && m[k].data == wire[i] && m[k].seqNo == h.seqNo && m[k].stream == h.stream
  {
    AtMostMax(g);
    WireHeader(g, i);
    EntryOf(s, wire, g, i);
  }

  lemma AtMostMax(g: Message)
    requires WellFormed(g) && Total(g) <= MAX_FRAGMENTS
    ensures |Wire(g)| <= MAX_FRAGMENTS
  {
  }

  // ---- round trip ----

  /** What the datagrams of a message carry. */
  function WireParts(g: Message): seq<seq<Byte>>
    requires WellFormed(g)
  {
    if |g.payload| <= g.capacity then [g.payload] else Parts(g, Total(g))
  }

  lemma DatagramCarries(g: Message, i: nat)
    requires WellFormed(g) && i < Total(g) <= MAX_FRAGMENTS
    ensures Carries(Datagram(g, i), g.msgId, i, Total(g), Part(g, i))
  {
    FragmentShape(g, i);
    EncodeThenParseV3(FragmentHeader(g, i, Total(g)), Part(g, i));
  }

  lemma SingleCarries(g: Message)
    requires WellFormed(g) && |g.payload| <= g.capacity
    ensures Carries(Single(g), g.msgId, 0, 1, g.payload)
  {
    EncodeThenParseV3(
      HeaderV3(DATA, g.tier, g.userFlags, g.seqs(0), g.stream, g.msgId, 0, 1, g.hash(g.payload)), g.payload);
  }

  lemma WireIsWire(g: Message)
    requires WellFormed(g) && Total(g) <= MAX_FRAGMENTS
    ensures IsWire(Wire(g), g.msgId, WireParts(g))
  {
    if |g.payload| <= g.capacity {
      SingleCarries(g);
    } else {
      var t := Total(g);
      MoreThanOne(g);
      forall i | 0 <= i < t
        ensures |Parts(g, t)| == t && Carries(Wire(g)[i], g.msgId, i, t, Parts(g, t)[i])
      {
        PartsAt(g, t, i);
        DatagramCarries(g, i);
      }
      PartsAt(g, t, 0);
    }
  }

  lemma MoreThanOne(g: Message)
    requires WellFormed(g) && |g.payload| > g.capacity
    ensures Total(g) >= 1
  {
    DivBounds(|g.payload|, g.capacity);
  }

  lemma PartsMakePayload(g: Message)
    requires WellFormed(g)
    ensures Flatten(WireParts(g)) == g.payload
  {
    if |g.payload| <= g.capacity {
      assert WireParts(g)[..0] == [];
    } else {
      PartsCover(g, Total(g));
      DivBounds(|g.payload|, g.capacity);
      assert g.payload[..|g.payload|] == g.payload;
    }
  }

  /**
    Round trip, of one datagram or many: under any arrivals, repeats and foreign datagrams
    included, the receiver has the payload as soon as every datagram of the message has
    arrived, and nothing before.
   */
  lemma RoundTrip(ds: seq<seq<Byte>>, g: Message)
    requires WellFormed(g) && Total(g) <= 65535 && Arrivals(ds, Wire(g), g.msgId)
    ensures Reassembled(ds, g.msgId) ==
            if AllArrived(ds, Wire(g)) then Reassembly.Data(g.payload) else Reassembly.Nil
  {
    WireIsWire(g);
    PartsMakePayload(g);
    Rejoins(ds, g.msgId, Wire(g), WireParts(g));
  }
}

/**
  The client as the code runs it: fields updated in place, loops over the inflight
  map, a sort, a budget. Each method is proved to be one or two steps of ClientModel.
 */
module ClientCode {
  import opened Bytes
  import Packet
  import M = ClientModel
  import opened Sack
  import opened Sequences

  function Elems(q: seq<U32>): set<U32> {
    set k | k in q
  }

  ghost predicate Distinct(q: seq<U32>) {
    forall i, j :: 0 <= i < j < |q| ==> q[i] != q[j]
  }

  lemma {:induction false} ElemsSize(q: seq<U32>)
    requires Distinct(q)
    ensures |Elems(q)| == |q|
  {
    if q != [] {
      var n := |q| - 1;
      ElemsSize(q[..n]);
      assert Elems(q) == Elems(q[..n]) + {q[n]};
    }
  }

  lemma ElemsSnoc(q: seq<U32>, k: U32)
    ensures Elems(q + [k]) == Elems(q) + {k}
    ensures Distinct(q) && k !in q ==> Distinct(q + [k])
  {
    assert k in q + [k];
    assert forall j :: j in q ==> j in q + [k];
  }

  // ---- oldest-first ordering ----

  ghost predicate Known(m: map<U32, M.Pkt>, q: seq<U32>) {
    forall k :: k in q ==> k in m
  }

  ghost predicate ByAge(m: map<U32, M.Pkt>, q: seq<U32>)
    requires Known(m, q)
  {
    forall i, j :: 0 <= i < j < |q| ==> m[q[i]].sentAt <= m[q[j]].sentAt
  }

  method InsertByAge(m: map<U32, M.Pkt>, q: seq<U32>, k: U32) returns (r: seq<U32>)
    requires k in m && Known(m, q) && ByAge(m, q) && Distinct(q) && k !in q
    ensures Elems(r) == Elems(q) + {k} && Distinct(r)
    ensures Known(m, r) && ByAge(m, r)
  {
    var i := |q|;
    while i > 0 && m[k].sentAt < m[q[i - 1]].sentAt
      invariant 0 <= i <= |q|
      invariant i < |q| ==> m[k].sentAt <= m[q[i]].sentAt
    {
      i := i - 1;
    }
    r := q[..i] + [k] + q[i..];
    SplicedElems(q, i, k);
    SplicedByAge(m, q, i, k);
  }

  lemma SplicedByAge(m: map<U32, M.Pkt>, q: seq<U32>, i: nat, k: U32)
    requires i <= |q| && k in m && Known(m, q) && ByAge(m, q)
    requires i > 0 ==> m[q[i - 1]].sentAt <= m[k].sentAt
    requires i < |q| ==> m[k].sentAt <= m[q[i]].sentAt
    ensures var r := q[..i] + [k] + q[i..]; Known(m, r) && ByAge(m, r)
  {
    var r := q[..i] + [k] + q[i..];
    SplicedKnown(m, q, i, k);
    forall x, y | 0 <= x < y < |r|
      ensures m[r[x]].sentAt <= m[r[y]].sentAt
    {
      SplicedPair(m, q, i, k, x, y);
    }
  }

  lemma SplicedPair(m: map<U32, M.Pkt>, q: seq<U32>, i: nat, k: U32, x: nat, y: nat)
    requires i <= |q| && k in m && Known(m, q) && ByAge(m, q)
    requires i > 0 ==> m[q[i - 1]].sentAt <= m[k].sentAt
    requires i < |q| ==> m[k].sentAt <= m[q[i]].sentAt
    requires x < y <= |q| && Known(m, q[..i] + [k] + q[i..])
    ensures var r := q[..i] + [k] + q[i..]; m[r[x]].sentAt <= m[r[y]].sentAt
  {
    SpliceAt(q, i, k, x);
    SpliceAt(q, i, k, y);
    if x == i {
      assert m[q[i]].sentAt <= m[q[y - 1]].sentAt;
    } else if y == i {
      assert m[q[x]].sentAt <= m[q[i - 1]].sentAt;
    }
  }

  lemma SplicedKnown(m: map<U32, M.Pkt>, q: seq<U32>, i: nat, k: U32)
    requires i <= |q| && k in m && Known(m, q)
    ensures Known(m, q[..i] + [k] + q[i..])
  {
    var r := q[..i] + [k] + q[i..];
    forall j | j in r
      ensures j in m
    {
      assert j in q || j == k;
    }
  }

  lemma SplicedElems(q: seq<U32>, i: nat, k: U32)
    requires i <= |q|
    ensures Elems(q[..i] + [k] + q[i..]) == Elems(q) + {k}
    ensures Distinct(q) && k !in q ==> Distinct(q[..i] + [k] + q[i..])
  {
    var r := q[..i] + [k] + q[i..];
    assert r[i] == k;
    forall j | j in q
      ensures j in r
    {
      var x :| 0 <= x < |q| && q[x] == j;
      assert r[if x < i then x else x + 1] == j;
    }
  }

  /** Sorts distinct packet keys by `sentAt`; equal times may come in any order. */
  method SortByAge(m: map<U32, M.Pkt>, q: seq<U32>) returns (r: seq<U32>)
    requires Known(m, q) && Distinct(q)
    ensures Elems(r) == Elems(q) && Distinct(r)
    ensures Known(m, r) && ByAge(m, r)
  {
    r := [];
    for i := 0 to |q|
      invariant Known(m, r) && ByAge(m, r) && Distinct(r)
      invariant Elems(r) == Elems(q[..i])
    {
      assert q[i] !in Elems(q[..i]);
      r := InsertByAge(m, r, q[i]);
      assert q[..i + 1] == q[..i] + [q[i]];
      ElemsSnoc(q[..i], q[i]);
    }
    assert q[..|q|] == q;
  }

  datatype SendResult = Sent | WriteFailed | TooLong

  /**
    A datagram as the server will read it: acceptable, with this payload and these header
    fields, and numbered as its inflight entry p.
   */
  ghost predicate Announces(
    data: seq<Byte>, payload: seq<Byte>, tier: Byte, stream: U16, flags: Byte, contentId: U32, p: M.Pkt)
  {
    && Packet.Accepts(data) && data[14..] == payload && p.data == data
    && var h := Packet.Parse(data);
       && h.kind == 1 && h.tier == tier && h.flags == flags && h.contentId == contentId
       && h.stream == stream && p.stream == h.stream && p.seqNo == h.seqNo
  }

  lemma SentAnnounces(payload: seq<Byte>, tier: Byte, stream: U16, flags: Byte, contentId: U32, key: U32, p: M.Pkt)
    requires 14 + |payload| <= 65000 && p.seqNo == key % POW16 && p.stream == stream
    requires p.data == Packet.DataPacket(payload, tier, stream, flags, contentId, key)
    ensures Announces(p.data, payload, tier, stream, flags, contentId, p)
  {
    Packet.EncodeThenParse(Packet.Header(Packet.DATA, tier, flags, key % POW16, stream, contentId), payload);
  }

  /** Both halves of a successful send. */
  ghost function Tracked(s: M.ClientState, data: seq<Byte>, tier: Byte, stream: U16): M.ClientState {
    var mid := M.AfterWrite(s, data, tier, stream, true);
    if tier == BEST_EFFORT then mid else M.AfterInsert(mid, M.NextKey(s))
  }

  class Client {
    var cfg: M.Config
    var counter: U32
    var inflight: map<U32, M.Pkt>
    var sent: nat
    var acked: nat
    var retransmits: nat
    var dropped: nat

    // the clock the goroutines share, what they hold between two critical sections, and the history
    ghost var clock: nat
    ghost var lastTick: nat
    ghost var written: map<U32, M.Pkt>
    ghost var uncounted: set<U32>
    ghost var log: M.Log

    ghost function State(): M.ClientState
      reads this
    {
      M.ClientState(cfg, clock, lastTick, counter, inflight, sent, acked, retransmits, dropped, written, uncounted, log)
    }

    constructor (cfg: M.Config)
      ensures State() == M.Fresh(cfg)
    {
      this.cfg := cfg;
      counter, inflight, sent, acked, retransmits, dropped := 0, map[], 0, 0, 0, 0;
      clock, lastTick, written, uncounted := 0, 0, map[], {};
      log := M.Log(0, 0, map[], {}, {}, {});
    }

    /** Numbering, packet and write; `build` makes the packet for a wire number. */
    method WriteNext(build: U16 -> seq<Byte>, tier: Byte, stream: U16, now: nat, writeOk: bool)
      returns (key: U32, pkt: M.Pkt)
      requires now == clock
      modifies this
      ensures key == M.NextKey(old(State()))
      ensures State() == M.AfterWrite(old(State()), build(key % POW16), tier, stream, writeOk)
      ensures writeOk && tier != BEST_EFFORT ==> key in written && written[key] == pkt
    {
      counter := (counter + 1) % POW32;
      key := counter;
      pkt := M.Pkt(build(key % POW16), key % POW16, stream, tier, now, 0);
      log := log.(transmits := log.transmits + 1);
      if !writeOk {
        dropped := dropped + 1;
        log := log.(failures := log.failures + 1);
        return;
      }
      sent := sent + 1;
      log := log.(stories := log.stories[key := M.Story(pkt.data, stream, tier, clock, clock, 1, 0)]);
      if tier != BEST_EFFORT {
        written := written[key := pkt];
        log := log.(tracked := log.tracked + {key});
      }
    }

    /** First half of `transmitWithFlags`: size check, numbering, packet, write. */
    method WriteDatagram(payload: seq<Byte>, tier: Byte, stream: U16, flags: Byte, contentId: U32, now: nat, writeOk: bool)
      returns (r: SendResult, key: U32, pkt: M.Pkt)
      requires now == clock
      modifies this
      ensures r == TooLong <==> 14 + |payload| > 65000
      ensures r == TooLong ==> State() == old(State())
      ensures r != TooLong ==>
                && (r == Sent <==> writeOk)
                && key == M.NextKey(old(State()))
                && State() == M.AfterWrite(
                                old(State()), Packet.DataPacket(payload, tier, stream, flags, contentId, key), tier, stream, writeOk)
                && (r == Sent && tier != BEST_EFFORT ==> key in written && written[key] == pkt)
    {
      key, pkt := 0, M.Pkt([], 0, 0, 0, 0, 0);
      if Packet.HEADER_V2 + |payload| > Packet.MAX_DATAGRAM {
        return TooLong, key, pkt;
      }
      key, pkt := WriteNext(
        seqNo => Packet.Encode(Packet.Header(Packet.DATA, tier, flags, seqNo, stream, contentId), payload),
        tier, stream, now, writeOk);
      r := if writeOk then Sent else WriteFailed;
    }

    /** Second half: the inflight entry, stamped with the time of insertion. */
    method InsertInflight(key: U32, pkt: M.Pkt, now: nat)
      requires now == clock && key in written && written[key] == pkt
      modifies this
      ensures State() == M.AfterInsert(old(State()), key)
      ensures key in inflight && inflight[key] == pkt.(sentAt := now)
    {
      inflight := inflight[key := pkt.(sentAt := now)];
      written := written - {key};
    }

    method TransmitWithFlags(payload: seq<Byte>, tier: Byte, stream: U16, flags: Byte, contentId: U32, now: nat, writeOk: bool)
      returns (r: SendResult)
      requires now == clock
      modifies this
      ensures r == TooLong <==> 14 + |payload| > 65000
      ensures r == TooLong ==> State() == old(State())
      ensures r != TooLong ==>
                var key := M.NextKey(old(State()));
                var data := Packet.DataPacket(payload, tier, stream, flags, contentId, key);
                && (r == Sent <==> writeOk)
                && State() == (if writeOk then Tracked(old(State()), data, tier, stream)
                               else M.AfterWrite(old(State()), data, tier, stream, false))
      ensures tier == 2 ==> inflight == old(inflight)
      ensures r == Sent && tier != 2 ==>
                var key := M.NextKey(old(State()));
                && key in inflight && inflight[key].sentAt == now && inflight[key].tier == tier
                && Announces(inflight[key].data, payload, tier, stream, flags, contentId, inflight[key])
    {
      var key, pkt;
      r, key, pkt := WriteDatagram(payload, tier, stream, flags, contentId, now, writeOk);
      if r == Sent && tier != BEST_EFFORT {
        InsertInflight(key, pkt, now);
        SentAnnounces(payload, tier, stream, flags, contentId, key, inflight[key]);
      }
    }

    /** The linear scan over the map, in whatever order it is iterated. */
    method FindMatch(seqNo: U16, stream: U16) returns (found: bool, key: U32)
      ensures found ==> key in inflight && inflight[key].seqNo == seqNo && inflight[key].stream == stream
      ensures !found ==> forall k :: k in inflight ==> inflight[k].seqNo != seqNo || inflight[k].stream != stream
    {
      found, key := false, 0;
      var rest := inflight.Keys;
      while rest != {}
        invariant rest <= inflight.Keys
        invariant forall k :: k in inflight && k !in rest ==> !inflight[k].Matches(seqNo, stream)
        decreases |rest|
      {
        var k :| k in rest;
        if inflight[k].Matches(seqNo, stream) {
          return true, k;
        }
        rest := rest - {k};
      }
    }

    method ProcessACK(seqNo: U16, stream: U16) returns (hit: bool, ghost key: U32)
      modifies this
      ensures hit <==> exists k :: k in old(inflight) && old(inflight)[k].seqNo == seqNo && old(inflight)[k].stream == stream
      ensures hit ==> M.Enabled(old(State()), M.Ack(seqNo, stream, key))
                      && State() == M.AfterCount(M.AfterAck(old(State()), key), key)
      ensures !hit ==> M.Enabled(old(State()), M.AckMiss(seqNo, stream)) && State() == old(State())
    {
      var k;
      hit, k := FindMatch(seqNo, stream);
      key := k;
      if hit {
        inflight := inflight - {k};
        uncounted := uncounted + {k};
        log := log.(acked := log.acked + {k});
        // the lock is released here
        acked := acked + 1;
        uncounted := uncounted - {k};
      }
    }

    method ProcessNACK(seqNo: U16, stream: U16, now: nat) returns (hit: bool, resent: seq<Byte>, ghost key: U32)
      requires now == clock
      modifies this
      ensures hit <==> exists k :: k in old(inflight) && old(inflight)[k].seqNo == seqNo && old(inflight)[k].stream == stream
      ensures hit ==> M.Enabled(old(State()), M.Nack(seqNo, stream, key)) && State() == M.AfterNack(old(State()), key)
                      && resent == old(inflight)[key].data
      ensures !hit ==> M.Enabled(old(State()), M.NackMiss(seqNo, stream)) && State() == old(State())
    {
      var k;
      hit, k := FindMatch(seqNo, stream);
      key, resent := k, [];
      if hit {
        resent := inflight[k].data;
        inflight := inflight[k := M.Resent(inflight[k], now)];
        retransmits := retransmits + 1;
        log := log.(stories := map j | j in log.stories :: var t := log.stories[j];
          if j == k then t.Again(now).(nacks := t.nacks + 1) else t);
      }
    }

    /**
      One datagram in the ACK loop: ACKs and NACKs are processed, a non-empty configuration
      is acknowledged, everything else is ignored. `wire` is what is written in return.
     */
    method ReactTo(data: seq<Byte>, now: nat) returns (acts: bool, ghost e: M.Event, wire: seq<seq<Byte>>)
      requires now == clock
      modifies this
      ensures acts <==> |data| >= 14 && data[0] == 2 && (data[1] == 2 || data[1] == 3)
      ensures !acts ==> State() == old(State())
      ensures acts ==>
                && (if data[1] == 2 then e.Ack? || e.AckMiss? else e.Nack? || e.NackMiss?)
                && e.seqNo == data[4] as int * 256 + data[5] && e.stream == data[6] as int * 256 + data[7]
                && M.Reacts(data, e) && M.Enabled(old(State()), e)
                && State() == if e.Ack? then M.AfterCount(M.AfterAck(old(State()), e.key), e.key) else M.Apply(old(State()), e)
      ensures wire == if acts && e.Nack? then [old(inflight)[e.key].data]
                      else if !acts && |data| > 14 && data[0] == 2 && data[1] == 11
                      then [Packet.Encode(Packet.Header(2, 0, 0, Packet.Parse(data).seqNo, Packet.Parse(data).stream, 0), [])]
                      else []
    {
      acts, e, wire := false, M.Advance(0), [];
      if |data| < Packet.HEADER_V2 || data[0] != Packet.V2 {
        return;
      }
      var h := Packet.Parse(data);
      if h.kind == Packet.ACK {
        acts := true;
        var hit, key := ProcessACK(h.seqNo, h.stream);
        e := if hit then M.Ack(h.seqNo, h.stream, key) else M.AckMiss(h.seqNo, h.stream);
      } else if h.kind == Packet.NACK {
        acts := true;
        var hit, resent, key := ProcessNACK(h.seqNo, h.stream, now);
        e := if hit then M.Nack(h.seqNo, h.stream, key) else M.NackMiss(h.seqNo, h.stream);
        wire := if hit then [resent] else [];
      } else if h.kind == Packet.CONFIG && |data| > Packet.HEADER_V2 {
        wire := [Packet.Encode(Packet.Header(Packet.ACK, 0, 0, h.seqNo, h.stream, 0), [])];
      }
    }

    /** The V3 selective ACK: `processACK` for each listed sequence number. */
    method ProcessSACK(seqs: seq<U16>, stream: U16)
      modifies this
      ensures Ready(old(State())) ==> State() == AfterSack(old(State()), Named(old(inflight), seqs, stream))
    {
      ghost var s := State();
      SackStart(s, seqs, stream);
      for i := 0 to |seqs|
        invariant Progress(s, State(), seqs, i, stream)
      {
        ProcessListed(seqs, i, stream, s);
      }
      SackEnd(s, State(), seqs, stream);
    }

    /** One turn of the loop; `s` is the state before the list. */
    method ProcessListed(seqs: seq<U16>, i: nat, stream: U16, ghost s: M.ClientState)
      requires i < |seqs| && Progress(s, State(), seqs, i, stream)
      modifies this
      ensures Progress(s, State(), seqs, i + 1, stream)
    {
      ghost var before := State();
      var hit, key := ProcessACK(seqs[i], stream);
      SackNext(s, before, seqs, i, stream, hit, key, State());
    }

    /** The tick's scan: who is given up and who may be retransmitted. */
    method Classify(now: nat) returns (toRemove: seq<U32>, eligible: seq<U32>)
      ensures Distinct(toRemove) && Elems(toRemove) == M.Expired(State(), now)
      ensures Distinct(eligible) && Elems(eligible) == M.Eligible(State(), now)
    {
      toRemove, eligible := [], [];
      var rest := inflight.Keys;
      while rest != {}
        invariant rest <= inflight.Keys
        invariant Distinct(toRemove) && forall k :: k in toRemove <==> k in M.Expired(State(), now) && k !in rest
        invariant Distinct(eligible) && forall k :: k in eligible <==> k in M.Eligible(State(), now) && k !in rest
        decreases |rest|
      {
        var key :| key in rest;
        rest := rest - {key};
        var pkt := inflight[key];
        if pkt.Due(cfg, now) {
          if pkt.Exhausted() {
            toRemove := toRemove + [key];
          } else {
            eligible := eligible + [key];
          }
        }
      }
    }

    method ResendPacket(k: U32, now: nat) returns (data: seq<Byte>)
      requires k in inflight
      modifies this
      ensures data == old(inflight)[k].data
      ensures State() == ResendOne(old(State()), k, now)
    {
      data := inflight[k].data;
      inflight := inflight[k := M.Resent(inflight[k], now)];
      retransmits := retransmits + 1;
      log := log.(stories := M.WroteAgain(log.stories, {k}, now));
    }

    /** Retransmits along `order` until the budget is spent. */
    method Retransmit(order: seq<U32>, budget: nat, now: nat) returns (wire: seq<seq<Byte>>)
      requires Distinct(order) && Known(inflight, order)
      modifies this
      ensures |wire| == if |order| <= budget then |order| else budget
      ensures Known(old(inflight), order) && State() == Resends(old(State()), now, order, |wire|)
      ensures Carries(wire, old(inflight), order)
    {
      ghost var s := State();
      wire := [];
      var n := 0;
      while n < |order| && n < budget
        invariant n == |wire| && n <= |order| && n <= budget
        invariant State() == Resends(s, now, order, n)
        invariant Carries(wire, s.inflight, order)
      {
        StillThere(s, now, order, n);
        CarriesNext(wire, s.inflight, order);
        var data := ResendPacket(order[n], now);
        wire := wire + [data];
        n := n + 1;
      }
    }

    method DeleteKeys(keys: seq<U32>, now: nat)
      modifies this
      ensures State() == Buried(old(State()), Elems(keys), now)
    {
      ghost var m := inflight;
      assert m - Elems(keys[..0]) == m;
      for i := 0 to |keys|
        invariant inflight == m - Elems(keys[..i])
        invariant unchanged(`cfg, `counter, `sent, `acked, `retransmits, `dropped)
        invariant unchanged(`clock, `lastTick, `written, `uncounted, `log)
      {
        DeleteNext(m, keys, i);
        inflight := inflight - {keys[i]};
      }
      assert keys[..|keys|] == keys;
      lastTick := now;
      log := log.(expired := log.expired + Elems(keys));
    }

    /** The tick after its scan and its sort: resend within the budget, delete the expired. */
    method ResendAndBury(now: nat, toRemove: seq<U32>, order: seq<U32>) returns (wire: seq<seq<Byte>>)
      requires Distinct(toRemove) && Elems(toRemove) == M.Expired(State(), now)
      requires Distinct(order) && Known(inflight, order)
      modifies this
      ensures |wire| == if |order| <= old(cfg.Budget()) then |order| else old(cfg.Budget())
      ensures State() == M.AfterTick(old(State()), now, Elems(order[..|wire|]))
      ensures Carries(wire, old(inflight), order)
    {
      ghost var s, gone := State(), Elems(toRemove);
      ElemsSize(toRemove);
      dropped := dropped + |toRemove|;
      ghost var scanned := State();
      wire := Retransmit(order, cfg.Budget(), now);
      ghost var resent := State();
      DeleteKeys(toRemove, now);
      TickDone(s, scanned, resent, State(), now, gone, order, |wire|);
    }

    /** One retransmit tick: scan, sort oldest first, resend within the budget, delete the expired. */
    method RunRetransmitTick(now: nat) returns (wire: seq<seq<Byte>>, ghost chosen: set<U32>, ghost order: seq<U32>)
      requires lastTick <= now <= clock
      modifies this
      ensures M.Enabled(old(State()), M.Tick(now, chosen))
      ensures State() == M.AfterTick(old(State()), now, chosen)
      ensures var due := |M.Eligible(old(State()), now)|;
              var budget := if old(cfg.retransmitBudget) <= 0 then 64 else old(cfg.retransmitBudget);
              |wire| == |chosen| == if due <= budget then due else budget
      ensures Elems(order) == M.Eligible(old(State()), now) && Carries(wire, old(inflight), order)
              && chosen == Elems(order[..|wire|])
    {
      ghost var s := State();
      var toRemove, eligible := Classify(now);
      assert Known(inflight, eligible) by {
        assert forall k :: k in eligible ==> k in Elems(eligible);
      }
      var byAge := SortByAge(inflight, eligible);
      order := byAge;
      FirstAreOldest(s, now, order, if |order| <= cfg.Budget() then |order| else cfg.Budget());
      wire := ResendAndBury(now, toRemove, byAge);
      chosen := Elems(order[..|wire|]);
    }
  }

  // ---- the stages of a tick ----

  /** The datagrams put on the wire are those of the first packets of `order`, in that order. */
  ghost predicate Carries(wire: seq<seq<Byte>>, m: map<U32, M.Pkt>, order: seq<U32>) {
    && |wire| <= |order|
    && forall i :: 0 <= i < |wire| ==> order[i] in m && wire[i] == m[order[i]].data
  }

  ghost function ResendOne(s: M.ClientState, k: U32, now: nat): M.ClientState
    requires k in s.inflight
  {
    s.(inflight := s.inflight[k := M.Resent(s.inflight[k], now)],
       retransmits := s.retransmits + 1,
       log := s.log.(stories := M.WroteAgain(s.log.stories, {k}, now)))
  }

  /** The given-up packets have been deleted. */
  ghost function Buried(s: M.ClientState, gone: set<U32>, now: nat): M.ClientState {
    s.(inflight := s.inflight - gone, lastTick := now, log := s.log.(expired := s.log.expired + gone))
  }

  /** The first n packets of `order` have been put back on the wire. */
  ghost function Resends(s: M.ClientState, now: nat, order: seq<U32>, n: nat): (t: M.ClientState)
    requires n <= |order| && Known(s.inflight, order)
    ensures t.inflight.Keys == s.inflight.Keys
  {
    if n == 0 then s
    else
      assert order[n - 1] in order;
      ResendOne(Resends(s, now, order, n - 1), order[n - 1], now)
  }

  lemma CarriesNext(wire: seq<seq<Byte>>, m: map<U32, M.Pkt>, order: seq<U32>)
    requires Carries(wire, m, order) && |wire| < |order| && order[|wire|] in m
    ensures Carries(wire + [m[order[|wire|]].data], m, order)
  {
  }

  lemma DeleteNext(m: map<U32, M.Pkt>, keys: seq<U32>, i: nat)
    requires i < |keys|
    ensures m - Elems(keys[..i]) - {keys[i]} == m - Elems(keys[..i + 1])
  {
    assert keys[..i + 1] == keys[..i] + [keys[i]];
    ElemsSnoc(keys[..i], keys[i]);
  }

  /** Everything but the packets, their count and their history is left alone. */
  lemma {:induction false} ResendsFrame(s: M.ClientState, s': M.ClientState, now: nat, order: seq<U32>, n: nat)
    requires n <= |order| && Known(s.inflight, order)
    requires s' == s.(dropped := s'.dropped)
    ensures var t := Resends(s, now, order, n);
            && t == s.(inflight := t.inflight, retransmits := s.retransmits + n,
                       log := s.log.(stories := t.log.stories))
            && Resends(s', now, order, n) == t.(dropped := s'.dropped)
  {
    if n > 0 {
      assert order[n - 1] in order;
      ResendsFrame(s, s', now, order, n - 1);
    }
  }

  lemma {:induction false} ResendsAt(s: M.ClientState, now: nat, order: seq<U32>, n: nat, k: U32)
    requires n <= |order| && Known(s.inflight, order) && Distinct(order) && k in s.inflight
    ensures Resends(s, now, order, n).inflight[k] ==
            if k in order[..n] then M.Resent(s.inflight[k], now) else s.inflight[k]
  {
    if n > 0 {
      var j := order[n - 1];
      assert order[..n] == order[..n - 1] + [j];
      assert j in order && j !in order[..n - 1];
      ResendsAt(s, now, order, n - 1, k);
    }
  }

  lemma {:induction false} ResendsStories(s: M.ClientState, now: nat, order: seq<U32>, n: nat)
    requires n <= |order| && Known(s.inflight, order) && Distinct(order)
    ensures Resends(s, now, order, n).log.stories == M.WroteAgain(s.log.stories, Elems(order[..n]), now)
  {
    if n == 0 {
      assert Elems(order[..0]) == {};
    } else {
      ResendsStories(s, now, order, n - 1);
      OneMoreElem(order, n - 1);
      assert order[n - 1] in order;
      StoriesNext(s, Resends(s, now, order, n - 1), Elems(order[..n - 1]), order[n - 1], now);
    }
  }

  lemma StoriesNext(s: M.ClientState, t: M.ClientState, done: set<U32>, k: U32, now: nat)
    requires t.log.stories == M.WroteAgain(s.log.stories, done, now) && k in t.inflight && k !in done
    ensures ResendOne(t, k, now).log.stories == M.WroteAgain(s.log.stories, done + {k}, now)
  {
    WroteOneMore(s.log.stories, done, k, now);
  }

  lemma OneMoreElem(order: seq<U32>, i: nat)
    requires i < |order| && Distinct(order)
    ensures Elems(order[..i + 1]) == Elems(order[..i]) + {order[i]} && order[i] !in Elems(order[..i])
  {
    assert order[..i + 1] == order[..i] + [order[i]];
    ElemsSnoc(order[..i], order[i]);
  }

  lemma WroteOneMore(stories: map<U32, M.Story>, done: set<U32>, j: U32, now: nat)
    requires j !in done
    ensures M.WroteAgain(M.WroteAgain(stories, done, now), {j}, now) == M.WroteAgain(stories, done + {j}, now)
  {
  }

  lemma StillThere(s: M.ClientState, now: nat, order: seq<U32>, n: nat)
    requires n < |order| && Known(s.inflight, order) && Distinct(order)
    ensures order[n] in s.inflight
    ensures order[n] in Resends(s, now, order, n).inflight
    ensures Resends(s, now, order, n).inflight[order[n]] == s.inflight[order[n]]
  {
    assert order[n] in order && order[n] !in order[..n];
    ResendsAt(s, now, order, n, order[n]);
  }

  lemma FirstAreOldest(s: M.ClientState, now: nat, order: seq<U32>, n: nat)
    requires Distinct(order) && Elems(order) == M.Eligible(s, now)
    requires Known(s.inflight, order) && ByAge(s.inflight, order)
    requires n == if |order| <= s.cfg.Budget() then |order| else s.cfg.Budget()
    ensures M.OldestFirst(s, now, Elems(order[..n])) && |Elems(order[..n])| == n
  {
    var chosen := Elems(order[..n]);
    ElemsSize(order);
    ElemsSize(order[..n]);
    forall k, j | k in chosen && j in M.Eligible(s, now) && j !in chosen
      ensures s.inflight[k].sentAt <= s.inflight[j].sentAt
    {
      assert j in Elems(order);
      var x :| 0 <= x < n && order[x] == k;
      var y :| 0 <= y < |order| && order[y] == j;
      assert n <= y by {
        assert order[y] !in order[..n];
      }
    }
  }

  lemma TickInflight(s: M.ClientState, now: nat, order: seq<U32>, n: nat)
    requires n <= |order| && Distinct(order) && Known(s.inflight, order)
    ensures M.AfterTick(s, now, Elems(order[..n])).inflight ==
            Resends(s, now, order, n).inflight - M.Expired(s, now)
  {
    ResendsAll(s, now, order, n);
  }

  lemma ResendsAll(s: M.ClientState, now: nat, order: seq<U32>, n: nat)
    requires n <= |order| && Distinct(order) && Known(s.inflight, order)
    ensures forall k :: k in s.inflight ==>
              Resends(s, now, order, n).inflight[k] ==
              if k in Elems(order[..n]) then M.Resent(s.inflight[k], now) else s.inflight[k]
  {
    forall k | k in s.inflight
      ensures Resends(s, now, order, n).inflight[k] ==
              if k in Elems(order[..n]) then M.Resent(s.inflight[k], now) else s.inflight[k]
    {
      ResendsAt(s, now, order, n, k);
    }
  }

  /** The stages of the method add up to one step of the model. */
  lemma TickDone(s: M.ClientState, scanned: M.ClientState, resent: M.ClientState, t: M.ClientState,
                 now: nat, gone: set<U32>, order: seq<U32>, n: nat)
    requires n <= |order| && Distinct(order) && Known(s.inflight, order)
    requires gone == M.Expired(s, now)
    requires scanned == s.(dropped := s.dropped + |gone|)
    requires resent == Resends(scanned, now, order, n)
    requires t == Buried(resent, gone, now)
    ensures t == M.AfterTick(s, now, Elems(order[..n]))
  {
    TickFrame(s, scanned, now, order, n);
    ElemsSize(order[..n]);
  }

  /** What the resends leave behind, besides the packets. */
  lemma TickFrame(s: M.ClientState, scanned: M.ClientState, now: nat, order: seq<U32>, n: nat)
    requires n <= |order| && Distinct(order) && Known(s.inflight, order)
    requires scanned == s.(dropped := scanned.dropped)
    ensures var t := Resends(scanned, now, order, n);
            && t.inflight - M.Expired(s, now) == M.AfterTick(s, now, Elems(order[..n])).inflight
            && t == scanned.(inflight := t.inflight, retransmits := s.retransmits + n,
                             log := s.log.(stories := M.WroteAgain(s.log.stories, Elems(order[..n]), now)))
  {
    TickInflight(s, now, order, n);
    ResendsFrame(s, scanned, now, order, n);
    ResendsStories(s, now, order, n);
  }
}

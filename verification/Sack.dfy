/** Selective acknowledgement: a list of wire sequence numbers for one stream. */
module Sack {
  import opened Bytes
  import opened ClientModel

  /** No two inflight packets answer to the same (sequence number, stream). */
  ghost predicate NoAlias(m: map<U32, Pkt>) {
    forall j, k :: j in m && k in m && j != k ==> !m[j].Matches(m[k].seqNo, m[k].stream)
  }

  /** The packets a list names. */
  function Named(m: map<U32, Pkt>, seqs: seq<U16>, stream: U16): set<U32> {
    set k | k in m && m[k].stream == stream && m[k].seqNo in seqs
  }

  /** Keys that span fewer than 65536 sends cannot collide on the wire. */
  lemma SpanGivesNoAlias(s: ClientState, low: U32)
    requires Books(s)
    requires forall k :: k in s.inflight ==> low <= k < low + POW16
    ensures NoAlias(s.inflight)
  {
    forall j, k | j in s.inflight && k in s.inflight && j != k
      ensures !s.inflight[j].Matches(s.inflight[k].seqNo, s.inflight[k].stream)
    {
      assert Placed(s, j) && Placed(s, k);
      SameResidue(j, k);
    }
  }

  /** The ACK handling of a list, one `processACK` per element. */
  ghost predicate Acks(es: seq<Event>, seqs: seq<U16>, stream: U16) {
    && |es| == |seqs|
    && forall i :: 0 <= i < |es| ==>
         (es[i].Ack? || es[i].AckMiss?) && es[i].seqNo == seqs[i] && es[i].stream == stream
  }

  /**
    Without aliases, a list of ACKs subtracts exactly the packets it names, and as
    many are (or will be) counted, whatever the order and the repeats in the list.
   */
  lemma {:induction false} SackSubtracts(s: ClientState, es: seq<Event>, seqs: seq<U16>, stream: U16)
    requires NoAlias(s.inflight) && IsRun(s, es) && Acks(es, seqs, stream)
    ensures var named := Named(s.inflight, seqs, stream);
            var t := End(s, es);
            && t.inflight == s.inflight - named
            && t.uncounted == s.uncounted + named
            && t.log.acked == s.log.acked + named
            && t.acked == s.acked
    decreases |es|
  {
    if es == [] {
      assert Named(s.inflight, seqs, stream) == {};
    } else {
      var t := Apply(s, es[0]);
      var hit := Named(s.inflight, [seqs[0]], stream);
      OneAck(s, es[0]);
      SackSubtracts(t, es[1..], seqs[1..], stream);
      NamedCons(s.inflight, seqs, stream);
    }
  }

  lemma NamedCons(m: map<U32, Pkt>, seqs: seq<U16>, stream: U16)
    requires seqs != []
    ensures var hit := Named(m, [seqs[0]], stream);
            Named(m, seqs, stream) == hit + Named(m - hit, seqs[1..], stream)
  {
    assert seqs == [seqs[0]] + seqs[1..];
  }

  lemma OneAck(s: ClientState, e: Event)
    requires NoAlias(s.inflight) && Enabled(s, e) && (e.Ack? || e.AckMiss?)
    ensures var named := Named(s.inflight, [e.seqNo], e.stream);
            var t := Apply(s, e);
            && t.inflight == s.inflight - named && NoAlias(t.inflight)
            && t.uncounted == s.uncounted + named && t.log.acked == s.log.acked + named && t.acked == s.acked
  {
    var named := Named(s.inflight, [e.seqNo], e.stream);
    if e.Ack? {
      assert named == {e.key};
    } else {
      assert named == {};
    }
  }

  /** The condition is exact: with an alias some one-element list leaves a named packet behind. */
  lemma AliasDefeatsSack(s: ClientState, j: U32, k: U32, e: Event)
    requires j in s.inflight && k in s.inflight && j != k
    requires s.inflight[j].Matches(s.inflight[k].seqNo, s.inflight[k].stream)
    requires Acks([e], [s.inflight[k].seqNo], s.inflight[k].stream) && IsRun(s, [e])
    ensures End(s, [e]).inflight != s.inflight - Named(s.inflight, [s.inflight[k].seqNo], s.inflight[k].stream)
  {
    var named := Named(s.inflight, [s.inflight[k].seqNo], s.inflight[k].stream);
    assert [e][0] == e && [s.inflight[k].seqNo][0] == s.inflight[k].seqNo;
    assert j in named && k in named;
    assert End(s, [e]) == Apply(s, e) by {
      assert [e][1..] == [];
    }
    assert e.Ack?;
    assert j in Apply(s, e).inflight || k in Apply(s, e).inflight;
  }

  // ---- the loop of the code, which counts each hit before the next look-up ----

  function AfterSack(s: ClientState, named: set<U32>): ClientState {
    s.(inflight := s.inflight - named, acked := s.acked + |named|,
       log := s.log.(acked := s.log.acked + named))
  }

  lemma NamedSnoc(m: map<U32, Pkt>, seqs: seq<U16>, i: nat, stream: U16)
    requires i < |seqs|
    ensures var before := Named(m, seqs[..i], stream);
            var one := Named(m - before, [seqs[i]], stream);
            Named(m, seqs[..i + 1], stream) == before + one && before !! one
  {
    assert seqs[..i + 1] == seqs[..i] + [seqs[i]];
  }

  lemma SackHit(s: ClientState, seqs: seq<U16>, i: nat, stream: U16, key: U32)
    requires i < |seqs| && NoAlias(s.inflight) && s.inflight.Keys !! s.uncounted
    requires Enabled(AfterSack(s, Named(s.inflight, seqs[..i], stream)), Ack(seqs[i], stream, key))
    ensures var t := AfterSack(s, Named(s.inflight, seqs[..i], stream));
            AfterCount(AfterAck(t, key), key) == AfterSack(s, Named(s.inflight, seqs[..i + 1], stream))
  {
    HitNames(s.inflight, seqs, i, stream, key);
    OneMoreSacked(s, Named(s.inflight, seqs[..i], stream), key);
  }

  lemma HitNames(m: map<U32, Pkt>, seqs: seq<U16>, i: nat, stream: U16, key: U32)
    requires i < |seqs| && NoAlias(m) && key in m - Named(m, seqs[..i], stream) && m[key].Matches(seqs[i], stream)
    ensures Named(m, seqs[..i + 1], stream) == Named(m, seqs[..i], stream) + {key}
  {
    NamedSnoc(m, seqs, i, stream);
    assert Named(m - Named(m, seqs[..i], stream), [seqs[i]], stream) == {key};
  }

  lemma OneMoreSacked(s: ClientState, before: set<U32>, key: U32)
    requires key !in before && key !in s.uncounted
    ensures AfterCount(AfterAck(AfterSack(s, before), key), key) == AfterSack(s, before + {key})
  {
    assert s.inflight - before - {key} == s.inflight - (before + {key});
    assert s.uncounted + {key} - {key} == s.uncounted;
    assert s.log.acked + before + {key} == s.log.acked + (before + {key});
  }

  lemma SackMiss(s: ClientState, seqs: seq<U16>, i: nat, stream: U16)
    requires i < |seqs|
    requires Enabled(AfterSack(s, Named(s.inflight, seqs[..i], stream)), AckMiss(seqs[i], stream))
    ensures Named(s.inflight, seqs[..i + 1], stream) == Named(s.inflight, seqs[..i], stream)
  {
    var before := Named(s.inflight, seqs[..i], stream);
    NamedSnoc(s.inflight, seqs, i, stream);
    assert Named(s.inflight - before, [seqs[i]], stream) == {};
  }

  /** A state in which the loop means what it should; every reachable state without aliases is one. */
  ghost predicate Ready(s: ClientState) {
    NoAlias(s.inflight) && s.inflight.Keys !! s.uncounted
  }

  /** The first i entries of the list have been processed, starting from s. */
  ghost predicate Progress(s: ClientState, t: ClientState, seqs: seq<U16>, i: nat, stream: U16)
    requires i <= |seqs|
  {
    Ready(s) ==> t == AfterSack(s, Named(s.inflight, seqs[..i], stream))
  }

  lemma SackStart(s: ClientState, seqs: seq<U16>, stream: U16)
    ensures Progress(s, s, seqs, 0, stream)
  {
    assert Named(s.inflight, seqs[..0], stream) == {};
    assert s.inflight - {} == s.inflight && s.log.acked + {} == s.log.acked;
  }

  /** One turn of the loop, hit or miss. */
  lemma SackNext(s: ClientState, before: ClientState, seqs: seq<U16>, i: nat, stream: U16, hit: bool, key: U32, t: ClientState)
    requires i < |seqs| && Progress(s, before, seqs, i, stream)
    requires hit ==> Enabled(before, Ack(seqs[i], stream, key)) && t == AfterCount(AfterAck(before, key), key)
    requires !hit ==> Enabled(before, AckMiss(seqs[i], stream)) && t == before
    ensures Progress(s, t, seqs, i + 1, stream)
  {
    if Ready(s) && hit {
      SackHit(s, seqs, i, stream, key);
    } else if Ready(s) {
      SackMiss(s, seqs, i, stream);
    }
  }

  lemma SackEnd(s: ClientState, t: ClientState, seqs: seq<U16>, stream: U16)
    requires Progress(s, t, seqs, |seqs|, stream)
    ensures Ready(s) ==> t == AfterSack(s, Named(s.inflight, seqs, stream))
  {
    assert seqs[..|seqs|] == seqs;
  }
}

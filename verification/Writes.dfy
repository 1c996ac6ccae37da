/** Every datagram the client puts on the wire is counted, as sent or as retransmitted. */
module Writes {
  import opened Bytes
  import opened ClientModel

  /** How often anything was written. */
  ghost function Total(m: map<U32, Story>): nat {
    if m == map[] then 0
    else
      var k :| k in m;
      m[k].writes + Total(m - {k})
  }

  lemma {:induction false} TotalRemove(m: map<U32, Story>, k: U32)
    requires k in m
    ensures Total(m) == m[k].writes + Total(m - {k})
    decreases |m|
  {
    var j :| j in m && Total(m) == m[j].writes + Total(m - {j});
    if j != k {
      TotalRemove(m - {j}, k);
      TotalRemove(m - {k}, j);
      assert m - {j} - {k} == m - {k} - {j};
    }
  }

  lemma TotalAdd(m: map<U32, Story>, k: U32, t: Story)
    requires k !in m
    ensures Total(m[k := t]) == Total(m) + t.writes
  {
    TotalRemove(m[k := t], k);
    assert m[k := t] - {k} == m;
  }

  lemma TotalChange(m: map<U32, Story>, k: U32, t: Story)
    requires k in m
    ensures Total(m[k := t]) == Total(m) - m[k].writes + t.writes
  {
    TotalRemove(m, k);
    TotalRemove(m[k := t], k);
    assert m[k := t] - {k} == m - {k};
  }

  lemma {:induction false} TotalAgain(m: map<U32, Story>, keys: set<U32>, now: nat)
    requires keys <= m.Keys
    ensures Total(WroteAgain(m, keys, now)) == Total(m) + |keys|
  {
    if keys == {} {
      assert WroteAgain(m, keys, now) == m;
    } else {
      var k :| k in keys;
      var less := WroteAgain(m, keys - {k}, now);
      TotalAgain(m, keys - {k}, now);
      TotalChange(less, k, m[k].Again(now));
      assert WroteAgain(m, keys, now) == less[k := m[k].Again(now)];
    }
  }

  ghost predicate Counted(s: ClientState) {
    Total(s.log.stories) == s.sent + s.retransmits
  }

  lemma WriteCounted(s: ClientState, data: seq<Byte>, tier: Byte, stream: U16, ok: bool)
    requires Books(s) && Counted(s) && s.log.transmits + 1 < POW32
    ensures Counted(AfterWrite(s, data, tier, stream, ok))
  {
    assert NextKey(s) == s.log.transmits + 1;
    assert Placed(s, NextKey(s));
    TotalAdd(s.log.stories, NextKey(s), Story(data, stream, tier, s.clock, s.clock, 1, 0));
  }

  lemma NackCounted(s: ClientState, key: U32)
    requires Counted(s) && key in s.inflight && key in s.log.stories
    ensures Counted(AfterNack(s, key))
  {
    var t := s.log.stories[key];
    var again := t.Again(s.clock).(nacks := t.nacks + 1);
    TotalChange(s.log.stories, key, again);
    assert AfterNack(s, key).log.stories == s.log.stories[key := again];
  }

  lemma TickCounted(s: ClientState, now: nat, chosen: set<U32>)
    requires Books(s) && Counted(s) && chosen <= Eligible(s, now)
    ensures Counted(AfterTick(s, now, chosen))
  {
    forall k | k in chosen
      ensures k in s.log.stories
    {
      assert Placed(s, k);
    }
    TotalAgain(s.log.stories, chosen, now);
  }

  lemma StepCounted(s: ClientState, e: Event)
    requires Books(s) && Counted(s) && Enabled(s, e) && Apply(s, e).log.transmits < POW32
    ensures Counted(Apply(s, e))
  {
    if e.Write? {
      WriteCounted(s, e.data, e.tier, e.stream, e.ok);
    } else {
      OtherCounted(s, e);
    }
  }

  lemma OtherCounted(s: ClientState, e: Event)
    requires Books(s) && Counted(s) && Enabled(s, e) && !e.Write?
    ensures Counted(Apply(s, e))
  {
    match e
    case Nack(_, _, key) =>
      assert Placed(s, key);
      NackCounted(s, key);
    case Tick(now, chosen) => TickCounted(s, now, chosen);
    case _ =>
  }

  lemma {:induction false} CountedRun(s: ClientState, es: seq<Event>)
    requires Books(s) && Counted(s) && IsRun(s, es) && End(s, es).log.transmits < POW32
    ensures Counted(End(s, es))
    decreases |es|
  {
    if es != [] {
      TransmitsGrow(Apply(s, es[0]), es[1..]);
      StepCounted(s, es[0]);
      BooksStep(s, es[0]);
      CountedRun(Apply(s, es[0]), es[1..]);
    }
  }

  /** In every run of fewer than 2^32 sends, sent + retransmits is the number of all writes. */
  lemma EveryWriteCounted(cfg: Config, es: seq<Event>)
    requires IsRun(Fresh(cfg), es) && End(Fresh(cfg), es).log.transmits < POW32
    ensures var s := End(Fresh(cfg), es); Total(s.log.stories) == s.sent + s.retransmits
  {
    CountedRun(Fresh(cfg), es);
  }
}

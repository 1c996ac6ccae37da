/**
  The budgeted, oldest-first retransmit tick starves nobody. The clock never goes
  backwards and the settings stay fixed; sends, ACKs and NACKs interleave freely.
 */
module NoStarvation {
  import opened Bytes
  import opened ClientModel

  /** Packets the tick may have to serve before p: those sent no later, p included. */
  function Ahead(s: ClientState, p: U32): set<U32>
    requires p in s.inflight
  {
    set k | k in s.inflight && s.inflight[k].sentAt <= s.inflight[p].sentAt
  }

  /** The step retransmits p or takes it out of the inflight map. */
  ghost predicate Serves(s: ClientState, e: Event, p: U32) {
    match e
    case Ack(_, _, key) => key == p
    case Nack(_, _, key) => key == p
    case Tick(now, chosen) => p in chosen || p in Expired(s, now)
    case _ => false
  }

  ghost predicate Served(s: ClientState, es: seq<Event>, p: U32)
    requires IsRun(s, es)
    decreases |es|
  {
    es != [] && (Serves(s, es[0], p) || Served(Apply(s, es[0]), es[1..], p))
  }

  function Ticks(es: seq<Event>): nat {
    if es == [] then 0 else (if es[0].Tick? then 1 else 0) + Ticks(es[1..])
  }

  /** p is past its timeout at `since`, and every tick still to come is at `since` or later. */
  ghost predicate Overdue(s: ClientState, p: U32, since: nat) {
    && p in s.inflight && s.inflight[p].Due(s.cfg, since)
    && s.inflight[p].sentAt < since <= s.clock
  }

  predicate TicksFrom(es: seq<Event>, since: nat) {
    forall e :: e in es && e.Tick? ==> e.now >= since
  }

  /** A tick that passes p over spends its whole budget on packets ahead of p. */
  lemma PassedOver(s: ClientState, now: nat, chosen: set<U32>, p: U32)
    requires p in Eligible(s, now) && OldestFirst(s, now, chosen) && p !in chosen
    ensures |chosen| == s.cfg.Budget() && chosen <= Ahead(s, p) - {p}
  {
    if |chosen| == |Eligible(s, now)| {
      SubsetSize(chosen, Eligible(s, now) - {p});
      assert false;
    }
  }

  lemma StepKeepsOverdue(s: ClientState, e: Event, p: U32, since: nat)
    requires Placed(s, p) && Overdue(s, p, since) && Enabled(s, e) && !Serves(s, e, p)
    requires e.Tick? ==> e.now >= since
    ensures var t := Apply(s, e);
            && Overdue(t, p, since)
            && t.cfg == s.cfg
            && t.inflight[p] == s.inflight[p]
            && |Ahead(t, p)| + (if e.Tick? then s.cfg.Budget() else 0) <= |Ahead(s, p)|
  {
    if e.Tick? {
      TickKeepsOverdue(s, e.now, e.chosen, p, since);
    } else {
      var t := Apply(s, e);
      assert Ahead(t, p) <= Ahead(s, p);
      SubsetSize(Ahead(t, p), Ahead(s, p));
    }
  }

  lemma TickKeepsOverdue(s: ClientState, now: nat, chosen: set<U32>, p: U32, since: nat)
    requires Overdue(s, p, since) && since <= now && OldestFirst(s, now, chosen)
    requires p !in chosen && p !in Expired(s, now)
    ensures var t := AfterTick(s, now, chosen);
            && p in t.inflight && t.inflight[p] == s.inflight[p]
            && |Ahead(t, p)| + s.cfg.Budget() <= |Ahead(s, p)|
  {
    var t := AfterTick(s, now, chosen);
    assert p in Eligible(s, now);
    PassedOver(s, now, chosen, p);
    assert Ahead(t, p) <= Ahead(s, p) - chosen;
    SubsetSize(Ahead(t, p), Ahead(s, p) - chosen);
    assert |Ahead(s, p) - chosen| == |Ahead(s, p)| - |chosen|;
  }

  /** Retransmissions the ticks of a run may have made: one budget each. */
  function Spent(es: seq<Event>, budget: nat): nat {
    if es == [] then 0 else (if es[0].Tick? then budget else 0) + Spent(es[1..], budget)
  }

  lemma {:induction false} SpentIsTicks(es: seq<Event>, budget: nat)
    ensures Spent(es, budget) == Ticks(es) * budget
  {
    if es != [] {
      SpentIsTicks(es[1..], budget);
      assert (Ticks(es[1..]) + 1) * budget == Ticks(es[1..]) * budget + budget;
    }
  }

  lemma {:induction false} UnservedBound(s: ClientState, es: seq<Event>, p: U32, since: nat)
    requires Books(s) && IsRun(s, es) && End(s, es).log.transmits < POW32
    requires Overdue(s, p, since) && TicksFrom(es, since) && !Served(s, es, p)
    ensures Spent(es, s.cfg.Budget()) < |Ahead(s, p)|
    decreases |es|
  {
    if es == [] {
      assert p in Ahead(s, p);
    } else {
      assert Placed(s, p);
      StepKeepsOverdue(s, es[0], p, since);
      TransmitsGrow(Apply(s, es[0]), es[1..]);
      BooksStep(s, es[0]);
      UnservedBound(Apply(s, es[0]), es[1..], p, since);
    }
  }

  /**
    From any state of a session of fewer than 2^32 sends: if k packets (p included) were
    sent no later than p, then p is retransmitted or gone within ceil(k / budget) ticks,
    whatever happens in between.
   */
  lemma NobodyStarves(s: ClientState, es: seq<Event>, p: U32, since: nat)
    requires Books(s) && IsRun(s, es) && End(s, es).log.transmits < POW32
    requires Overdue(s, p, since) && TicksFrom(es, since)
    requires Ticks(es) >= (|Ahead(s, p)| + s.cfg.Budget() - 1) / s.cfg.Budget()
    ensures Served(s, es, p)
  {
    EnoughTicks(es, |Ahead(s, p)|, s.cfg.Budget());
    if !Served(s, es, p) {
      UnservedBound(s, es, p, since);
    }
  }

  lemma EnoughTicks(es: seq<Event>, k: nat, budget: nat)
    requires budget >= 1 && Ticks(es) >= (k + budget - 1) / budget
    ensures Spent(es, budget) >= k
  {
    SpentIsTicks(es, budget);
    CeilDiv(k, budget, Ticks(es));
  }

  lemma CeilDiv(k: nat, b: nat, n: nat)
    requires b >= 1 && n >= (k + b - 1) / b
    ensures n * b >= k
  {
    var q := (k + b - 1) / b;
    assert k + b - 1 == q * b + (k + b - 1) % b;
    assert (n - q) * b >= 0;
    assert n * b == q * b + (n - q) * b;
  }
}

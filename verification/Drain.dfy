/** The inflight map drains: a measure that every useful step lowers and no NACK raises. */
module Drain {
  import opened Bytes
  import opened ClientModel

  /** Tries a packet has left, plus the one step that removes it. */
  function Weight(p: Pkt): (w: nat)
    ensures 1 <= w <= 11
  {
    1 + if p.Exhausted() then 0 else Limit(p.tier) - p.retries
  }

  ghost function Total(m: map<U32, Pkt>): nat {
    if m == map[] then 0
    else
      var k :| k in m;
      Weight(m[k]) + Total(m - {k})
  }

  lemma {:induction false} TotalRemove(m: map<U32, Pkt>, k: U32)
    requires k in m
    ensures Total(m) == Weight(m[k]) + Total(m - {k})
    decreases |m|
  {
    var j :| j in m && Total(m) == Weight(m[j]) + Total(m - {j});
    if j != k {
      TotalRemove(m - {j}, k);
      TotalRemove(m - {k}, j);
      assert m - {j} - {k} == m - {k} - {j};
    }
  }

  /** Dropping entries and lowering weights lowers the total. */
  lemma {:induction false} TotalMono(m: map<U32, Pkt>, n: map<U32, Pkt>)
    requires forall k :: k in n ==> k in m && Weight(n[k]) <= Weight(m[k])
    ensures Total(n) <= Total(m)
    decreases |m|
  {
    if m == map[] {
      assert n == map[];
    } else {
      var k :| k in m;
      TotalRemove(m, k);
      TotalMono(m - {k}, n - {k});
      if k in n {
        TotalRemove(n, k);
      } else {
        assert n - {k} == n;
      }
    }
  }

  lemma TotalStrict(m: map<U32, Pkt>, n: map<U32, Pkt>, j: U32)
    requires forall k :: k in n ==> k in m && Weight(n[k]) <= Weight(m[k])
    requires j in m && (j in n ==> Weight(n[j]) < Weight(m[j]))
    ensures Total(n) < Total(m)
  {
    var m', n' := m - {j}, n - {j};
    forall k | k in n'
      ensures k in m' && Weight(n'[k]) <= Weight(m'[k])
    {
      assert k in n && k != j;
    }
    TotalMono(m', n');
    TotalRemove(m, j);
    if j in n {
      TotalRemove(n, j);
    } else {
      assert n' == n;
    }
  }

  ghost predicate FindsDue(s: ClientState, e: Event) {
    e.Tick? && exists k :: k in s.inflight && s.inflight[k].Due(s.cfg, e.now)
  }

  /** A tick that finds any packet past its timeout lowers the measure; an idle tick keeps it. */
  lemma TickDrains(s: ClientState, e: Event)
    requires e.Tick? && Enabled(s, e)
    ensures Total(Apply(s, e).inflight) <= Total(s.inflight)
    ensures FindsDue(s, e) ==> Total(Apply(s, e).inflight) < Total(s.inflight)
  {
    TotalMono(s.inflight, Apply(s, e).inflight);
    if FindsDue(s, e) {
      var k :| k in s.inflight && s.inflight[k].Due(s.cfg, e.now);
      assert k in Expired(s, e.now) || e.chosen != {} by {
        assert k in Expired(s, e.now) || k in Eligible(s, e.now);
      }
      var j :| j in Expired(s, e.now) || j in e.chosen;
      TickLowers(s, e.now, e.chosen, j);
    }
  }

  lemma TickLowers(s: ClientState, now: nat, chosen: set<U32>, j: U32)
    requires chosen <= Eligible(s, now) && (j in Expired(s, now) || j in chosen)
    ensures Total(AfterTick(s, now, chosen).inflight) < Total(s.inflight)
  {
    TotalStrict(s.inflight, AfterTick(s, now, chosen).inflight, j);
  }

  ghost predicate Useful(s: ClientState, e: Event) {
    e.Ack? || FindsDue(s, e)
  }

  lemma StepDrains(s: ClientState, e: Event)
    requires Enabled(s, e)
    ensures Total(Apply(s, e).inflight) + (if Useful(s, e) then 1 else 0)
         <= Total(s.inflight) + if e.Insert? then 11 else 0
  {
    match e
    case Insert(key) =>
      var n := Apply(s, e).inflight;
      TotalRemove(n, key);
      assert n - {key} == s.inflight - {key};
      TotalMono(s.inflight, s.inflight - {key});
    case Ack(_, _, key) =>
      TotalRemove(s.inflight, key);
    case Nack(_, _, key) =>
      TotalMono(s.inflight, Apply(s, e).inflight);
    case Tick(_, _) =>
      TickDrains(s, e);
    case _ =>
  }

  ghost function Inserts(es: seq<Event>): nat {
    if es == [] then 0 else (if es[0].Insert? then 1 else 0) + Inserts(es[1..])
  }

  /** ACK hits, and ticks that found a packet past its timeout, along a run. */
  ghost function UsefulSteps(s: ClientState, es: seq<Event>): nat
    requires IsRun(s, es)
    decreases |es|
  {
    if es == [] then 0
    else (if Useful(s, es[0]) then 1 else 0) + UsefulSteps(Apply(s, es[0]), es[1..])
  }

  /** A packet weighs at least one, so the measure bounds the size of the map. */
  lemma {:induction false} TotalCounts(m: map<U32, Pkt>)
    ensures Total(m) >= |m|
    decreases |m|
  {
    if m != map[] {
      var k :| k in m;
      TotalRemove(m, k);
      TotalCounts(m - {k});
      assert |m - {k}| == |m| - 1 by {
        assert (m - {k}).Keys == m.Keys - {k};
      }
    }
  }

  /**
    Whatever the interleaving, each tracked send pays for at most 11 useful steps, those
    still to come for what is inflight at the end included; in particular after the last
    insertion only `Total` many more can occur, and when they have, nothing is inflight.
   */
  lemma {:induction false} DrainBound(s: ClientState, es: seq<Event>)
    requires IsRun(s, es)
    ensures UsefulSteps(s, es) + Total(End(s, es).inflight) <= Total(s.inflight) + 11 * Inserts(es)
    ensures UsefulSteps(s, es) + |End(s, es).inflight| <= Total(s.inflight) + 11 * Inserts(es)
    decreases |es|
  {
    TotalCounts(End(s, es).inflight);
    if es != [] {
      StepDrains(s, es[0]);
      DrainBound(Apply(s, es[0]), es[1..]);
    }
  }
}

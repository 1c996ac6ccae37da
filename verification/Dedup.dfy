/** Content-ID deduplication with a garbage-collected 60 s memory. */
module Dedup {
  import opened Bytes

  /** 60 s in nanoseconds. */
  const WINDOW := 60_000_000_000

  datatype Acceptance = Acceptance(id: U32, at: nat)

  /** `accepted` is the history of acceptances, oldest first. */
  datatype State = State(clock: nat, seen: map<U32, nat>, accepted: seq<Acceptance>)

  datatype Event =
    | Arrive(id: U32)
    | Collect(readAt: nat)  // the collector reads the clock before it takes the lock
    | Advance(to: nat)

  function Fresh(): State {
    State(0, map[], [])
  }

  function AfterArrive(s: State, id: U32): State {
    if id in s.seen then s
    else s.(seen := s.seen[id := s.clock], accepted := s.accepted + [Acceptance(id, s.clock)])
  }

  function AfterCollect(s: State, readAt: nat): State {
    s.(seen := map id | id in s.seen && s.seen[id] >= readAt - WINDOW :: s.seen[id])
  }

  predicate Enabled(s: State, e: Event) {
    match e
    case Arrive(_) => true
    case Collect(readAt) => readAt <= s.clock
    case Advance(to) => s.clock <= to
  }

  function Apply(s: State, e: Event): State {
    match e
    case Arrive(id) => AfterArrive(s, id)
    case Collect(readAt) => AfterCollect(s, readAt)
    case Advance(to) => s.(clock := to)
  }

  predicate IsRun(s: State, es: seq<Event>)
    decreases |es|
  {
    es == [] || (Enabled(s, es[0]) && IsRun(Apply(s, es[0]), es[1..]))
  }

  function End(s: State, es: seq<Event>): State
    decreases |es|
  {
    if es == [] then s else End(Apply(s, es[0]), es[1..])
  }

  // ---- invariant ----

  /** An acceptance is remembered until it is more than the window old. */
  predicate Remembered(s: State, a: Acceptance) {
    && a.at <= s.clock
    && (s.clock - a.at > WINDOW || (a.id in s.seen && a.at <= s.seen[a.id]))
  }

  /** Acceptances of one content ID are more than 60 s apart. */
  predicate FarApart(log: seq<Acceptance>) {
    forall i, j :: 0 <= i < j < |log| && log[i].id == log[j].id ==> log[j].at - log[i].at > 60_000_000_000
  }

  predicate Inv(s: State) {
    && FarApart(s.accepted)
    && (forall i :: 0 <= i < |s.accepted| ==> Remembered(s, s.accepted[i]))
    && (forall id :: id in s.seen ==> s.seen[id] <= s.clock && Acceptance(id, s.seen[id]) in s.accepted)
  }

  lemma InvStep(s: State, e: Event)
    requires Inv(s) && Enabled(s, e)
    ensures Inv(Apply(s, e))
  {
    var t := Apply(s, e);
    forall i | 0 <= i < |t.accepted|
      ensures Remembered(t, t.accepted[i])
    {
      if i < |s.accepted| {
        assert t.accepted[i] == s.accepted[i] && Remembered(s, s.accepted[i]);
      }
    }
    if e.Arrive? && e.id !in s.seen {
      assert t.accepted[|s.accepted|] == Acceptance(e.id, s.clock);
      forall i | 0 <= i < |s.accepted| && s.accepted[i].id == e.id
        ensures s.clock - t.accepted[i].at > WINDOW
      {
        assert Remembered(s, s.accepted[i]);
      }
    }
  }

  lemma {:induction false} InvRun(s: State, es: seq<Event>)
    requires Inv(s) && IsRun(s, es)
    ensures Inv(End(s, es))
    decreases |es|
  {
    if es != [] {
      InvStep(s, es[0]);
      InvRun(Apply(s, es[0]), es[1..]);
    }
  }

  /**
    In every run of arrivals and collections, however they interleave, two
    acceptances of one content ID are more than 60 s apart, and an arrival that would
    be judged a duplicate has an acceptance on record.
   */
  lemma Separation(es: seq<Event>)
    requires IsRun(Fresh(), es)
    ensures FarApart(End(Fresh(), es).accepted)
    ensures forall id :: id in End(Fresh(), es).seen ==> exists a :: a in End(Fresh(), es).accepted && a.id == id
  {
    InvRun(Fresh(), es);
  }

  /** The bound is tight: one nanosecond past the window the same content is accepted again. */
  lemma AcceptedAgain(id: U32)
    ensures var es := [Arrive(id), Advance(60_000_000_001), Collect(60_000_000_001), Arrive(id)];
            IsRun(Fresh(), es)
            && End(Fresh(), es).accepted == [Acceptance(id, 0), Acceptance(id, 60_000_000_001)]
  {
    var es := [Arrive(id), Advance(WINDOW + 1), Collect(WINDOW + 1), Arrive(id)];
    var s1 := Apply(Fresh(), es[0]);
    var s2 := Apply(s1, es[1]);
    var s3 := Apply(s2, es[2]);
    assert s3.seen == map[];
    assert es[1..] == [es[1], es[2], es[3]] && es[1..][1..] == [es[2], es[3]] && es[1..][1..][1..] == [es[3]];
    var tail := [es[3]];
    assert tail[1..] == [];
    assert IsRun(s3, tail) && End(s3, tail) == Apply(s3, es[3]);
    assert IsRun(s2, [es[2], es[3]]) && End(s2, [es[2], es[3]]) == Apply(s3, es[3]);
  }

  // ---- the code ----

  class Deduper {
    var seen: map<U32, nat>
    ghost var clock: nat
    ghost var accepted: seq<Acceptance>

    ghost function Model(): State
      reads this
    {
      State(clock, seen, accepted)
    }

    constructor ()
      ensures Model() == Fresh()
    {
      seen, clock, accepted := map[], 0, [];
    }

    method IsDuplicate(id: U32, now: nat) returns (dup: bool)
      requires now == clock
      modifies this
      ensures dup <==> id in old(seen)
      ensures Model() == AfterArrive(old(Model()), id)
    {
      if id in seen {
        return true;
      }
      seen := seen[id := now];
      accepted := accepted + [Acceptance(id, now)];
      return false;
    }

    /** One tick of the collector; `readAt` is the time it read before locking. */
    method CollectGarbage(readAt: nat)
      modifies this
      ensures Model() == AfterCollect(old(Model()), readAt)
    {
      var cutoff := readAt - WINDOW;
      var rest := seen.Keys;
      ghost var m := seen;
      while rest != {}
        invariant rest <= m.Keys
        invariant seen == map id | id in m && (id in rest || m[id] >= cutoff) :: m[id]
        invariant clock == old(clock) && accepted == old(accepted)
        decreases |rest|
      {
        var id :| id in rest;
        if seen[id] < cutoff {
          seen := seen - {id};
        }
        rest := rest - {id};
      }
    }
  }
}

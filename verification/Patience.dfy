/** How long, and how often, the client tries before it gives a packet up. */
module Patience {
  import opened Bytes
  import Backoff
  import opened ClientModel

  function Waits(cfg: Config, n: nat): int {
    Backoff.TotalRTO(cfg.baseMs, cfg.maxMs, n)
  }

  /** Each retry of the tick was earned by waiting; only NACKs come on top. */
  ghost predicate Earned(s: ClientState, k: U32) {
    && (k in s.log.stories ==> Plausible(s.log.stories[k], s.clock))
    && (k in s.written ==>
          k in s.log.stories && s.written[k].retries == 0
          && s.log.stories[k].writes == 1 && s.log.stories[k].nacks == 0
          && s.written[k].tier == s.log.stories[k].tier)
    && (k in s.inflight ==> k in s.log.stories && Waited(s.cfg, s.inflight[k], s.log.stories[k], s.clock))
  }

  predicate Plausible(t: Story, clock: nat) {
    t.at <= clock && t.last <= clock && 1 <= t.writes <= 1 + Limit(t.tier) + t.nacks
  }

  /** The entry p has waited long enough for its retries, given its story t. */
  ghost predicate Waited(cfg: Config, p: Pkt, t: Story, clock: nat) {
    && p.tier == t.tier
    && t.writes == 1 + p.retries && t.last <= p.sentAt <= clock
    && t.nacks <= p.retries <= Limit(p.tier) + t.nacks
    && (Steady(cfg, t.nacks) ==> p.sentAt - t.at >= Waits(cfg, p.retries - t.nacks))
  }

  /** With NACKs, patience is measured by timeouts that do not shrink as retries go up. */
  ghost predicate Steady(cfg: Config, nacks: nat) {
    nacks == 0 || Regular(cfg)
  }

  ghost predicate Regular(cfg: Config) {
    Backoff.InRange(cfg.baseMs, cfg.maxMs) && Backoff.NeverWrapsInside(cfg.baseMs, cfg.maxMs)
  }

  lemma RtoGrows(cfg: Config, nacks: nat, j: nat, k: nat)
    requires Steady(cfg, nacks) && j <= k <= j + nacks
    ensures cfg.Rto(j) <= cfg.Rto(k)
  {
    if nacks > 0 {
      Backoff.Grows(cfg.baseMs, cfg.maxMs, j, k);
    }
  }

  lemma {:induction false} WaitsGrow(cfg: Config, j: nat, k: nat)
    requires Backoff.InRange(cfg.baseMs, cfg.maxMs) && j <= k
    ensures Waits(cfg, j) <= Waits(cfg, k)
    decreases k
  {
    if j < k {
      WaitsGrow(cfg, j, k - 1);
      Backoff.ClosedForm(cfg.baseMs, cfg.maxMs, k - 1);
    }
  }

  ghost predicate Patient(s: ClientState) {
    forall k: U32 :: Earned(s, k)
  }

  lemma TickEarned(s: ClientState, now: nat, chosen: set<U32>, k: U32)
    requires Earned(s, k) && Placed(s, k) && OldestFirst(s, now, chosen) && now <= s.clock
    ensures Earned(AfterTick(s, now, chosen), k)
  {
    if k in chosen {
      assert k in Eligible(s, now);
      ResentWaited(s.cfg, s.inflight[k], s.log.stories[k], s.clock, now);
    }
  }

  /** A tick's resend is earned. */
  lemma ResentWaited(cfg: Config, p: Pkt, t: Story, clock: nat, now: nat)
    requires Waited(cfg, p, t, clock) && p.Due(cfg, now) && !p.Exhausted() && now <= clock
    ensures Waited(cfg, Resent(p, now), t.Again(now), clock)
  {
    if Steady(cfg, t.nacks) {
      RtoGrows(cfg, t.nacks, p.retries - t.nacks, p.retries);
      WaitsNext(cfg, p.retries - t.nacks);
    }
  }

  lemma WaitsNext(cfg: Config, n: nat)
    ensures Waits(cfg, n + 1) == Waits(cfg, n) + cfg.Rto(n)
  {
  }

  lemma NackEarned(s: ClientState, key: U32, k: U32)
    requires Earned(s, k) && Placed(s, k) && key in s.inflight
    ensures Earned(AfterNack(s, key), k)
  {
  }

  lemma WriteEarned(s: ClientState, data: seq<Byte>, tier: Byte, stream: U16, ok: bool, k: U32)
    requires Earned(s, k) && (k == NextKey(s) ==> k !in s.log.stories)
    ensures Earned(AfterWrite(s, data, tier, stream, ok), k)
  {
  }

  lemma InsertEarned(s: ClientState, key: U32, k: U32)
    requires Earned(s, k) && key in s.written
    ensures Earned(AfterInsert(s, key), k)
  {
  }

  lemma AckEarned(s: ClientState, key: U32, k: U32)
    requires Earned(s, k)
    ensures Earned(AfterAck(s, key), k) && Earned(AfterCount(s, key), k)
  {
  }

  lemma AdvanceEarned(s: ClientState, to: nat, k: U32)
    requires Earned(s, k) && s.clock <= to
    ensures Earned(s.(clock := to), k)
  {
  }

  lemma QuietEarned(s: ClientState, e: Event, k: U32)
    requires Earned(s, k) && Enabled(s, e) && !e.Write? && !e.Nack? && !e.Tick?
    ensures Earned(Apply(s, e), k)
  {
    match e
    case Insert(key) => InsertEarned(s, key, k);
    case Advance(to) => AdvanceEarned(s, to, k);
    case Ack(_, _, key) => AckEarned(s, key, k);
    case Count(key) => AckEarned(s, key, k);
    case _ =>
  }

  lemma ResendEarned(s: ClientState, e: Event, k: U32)
    requires Books(s) && Earned(s, k) && Enabled(s, e) && (e.Nack? || e.Tick?)
    ensures Earned(Apply(s, e), k)
  {
    assert Placed(s, k);
    match e
    case Nack(_, _, key) => NackEarned(s, key, k);
    case Tick(now, chosen) => TickEarned(s, now, chosen, k);
  }

  lemma PatientWrite(s: ClientState, data: seq<Byte>, tier: Byte, stream: U16, ok: bool)
    requires Books(s) && Patient(s) && s.log.transmits + 1 < POW32
    ensures Patient(AfterWrite(s, data, tier, stream, ok))
  {
    assert NextKey(s) == s.log.transmits + 1;
    assert Placed(s, NextKey(s));
    forall k: U32
      ensures Earned(AfterWrite(s, data, tier, stream, ok), k)
    {
      assert Earned(s, k);
      WriteEarned(s, data, tier, stream, ok, k);
    }
  }

  lemma PatientOther(s: ClientState, e: Event)
    requires Books(s) && Patient(s) && Enabled(s, e) && !e.Write?
    ensures Patient(Apply(s, e))
  {
    forall k: U32
      ensures Earned(Apply(s, e), k)
    {
      assert Earned(s, k);
      if e.Nack? || e.Tick? {
        ResendEarned(s, e, k);
      } else {
        QuietEarned(s, e, k);
      }
    }
  }

  lemma PatientStep(s: ClientState, e: Event)
    requires Books(s) && Patient(s) && Enabled(s, e) && Apply(s, e).log.transmits < POW32
    ensures Patient(Apply(s, e))
  {
    if e.Write? {
      PatientWrite(s, e.data, e.tier, e.stream, e.ok);
    } else {
      PatientOther(s, e);
    }
  }

  lemma {:induction false} PatientRun(s: ClientState, es: seq<Event>)
    requires Books(s) && Patient(s) && IsRun(s, es) && End(s, es).log.transmits < POW32
    ensures Patient(End(s, es))
    decreases |es|
  {
    if es != [] {
      TransmitsGrow(Apply(s, es[0]), es[1..]);
      BooksStep(s, es[0]);
      PatientStep(s, es[0]);
      PatientRun(Apply(s, es[0]), es[1..]);
    }
  }

  function Max(a: nat, b: nat): nat {
    if a >= b then a else b
  }

  /**
    The least time a packet with this many NACKs is kept: each of them saves one of the
    longer waits, but beyond the limit lengthens the last one.
   */
  function LeastWait(cfg: Config, limit: nat, nacks: nat): int {
    Waits(cfg, Max(limit, nacks) - nacks) + cfg.Rto(Max(limit, nacks))
  }

  lemma WaitedEnough(cfg: Config, limit: nat, nacks: nat, retries: nat)
    requires Steady(cfg, nacks) && Max(limit, nacks) <= retries <= limit + nacks
    ensures Waits(cfg, retries - nacks) + cfg.Rto(retries) >= LeastWait(cfg, limit, nacks)
  {
    RtoGrows(cfg, nacks, Max(limit, nacks), retries);
    if nacks > 0 {
      WaitsGrow(cfg, Max(limit, nacks) - nacks, retries - nacks);
    }
  }

  /**
    In every run, a packet the tick gives up after n NACKs has been written at least
    1 + max(limit, n) times, and more than RTO(0) + ... + RTO(limit - n - 1) +
    RTO(max(limit, n)) has passed since its first write (without NACKs, the whole sum);
    and every datagram is written at most 1 + limit + n times.
   */
  lemma NeverGivesUpEarly(cfg: Config, es: seq<Event>, now: nat, k: U32)
    requires IsRun(Fresh(cfg), es) && End(Fresh(cfg), es).log.transmits < POW32
    ensures var s := End(Fresh(cfg), es);
            && (k in s.log.stories ==>
                  var t := s.log.stories[k];
                  t.writes <= 1 + Limit(t.tier) + t.nacks)
            && (k in Expired(s, now) ==>
                  && k in s.log.stories
                  && var t := s.log.stories[k];
                     && t.writes >= 1 + Max(Limit(t.tier), t.nacks)
                     && (Steady(s.cfg, t.nacks) ==> now - t.at > LeastWait(s.cfg, Limit(t.tier), t.nacks)))
  {
    var s := End(Fresh(cfg), es);
    PatientRun(Fresh(cfg), es);
    assert Earned(s, k);
    if k in Expired(s, now) {
      ExpiredWaited(s.cfg, s.inflight[k], s.log.stories[k], s.clock, now);
    }
  }

  lemma ExpiredWaited(cfg: Config, p: Pkt, t: Story, clock: nat, now: nat)
    requires Waited(cfg, p, t, clock) && p.Due(cfg, now) && p.Exhausted()
    ensures t.writes >= 1 + Max(Limit(t.tier), t.nacks)
    ensures Steady(cfg, t.nacks) ==> now - t.at > LeastWait(cfg, Limit(t.tier), t.nacks)
  {
    if Steady(cfg, t.nacks) {
      WaitedEnough(cfg, Limit(p.tier), t.nacks, p.retries);
    }
  }

  /**
    Spacing, NACKs included: whenever a tick resends or gives up a datagram that has
    been written w times, more than RTO(w - 1) has passed since its latest write.
   */
  lemma NeverHurries(cfg: Config, es: seq<Event>, now: nat, chosen: set<U32>, k: U32)
    requires IsRun(Fresh(cfg), es) && End(Fresh(cfg), es).log.transmits < POW32
    requires Enabled(End(Fresh(cfg), es), Tick(now, chosen))
    requires k in chosen || k in Expired(End(Fresh(cfg), es), now)
    ensures var s := End(Fresh(cfg), es);
            && k in s.log.stories && s.log.stories[k].writes >= 1
            && now - s.log.stories[k].last > s.cfg.Rto(s.log.stories[k].writes - 1)
  {
    var s := End(Fresh(cfg), es);
    PatientRun(Fresh(cfg), es);
    assert Earned(s, k);
    Spacing(s, now, chosen, k);
  }

  lemma Spacing(s: ClientState, now: nat, chosen: set<U32>, k: U32)
    requires Earned(s, k) && chosen <= Eligible(s, now) && (k in chosen || k in Expired(s, now))
    ensures k in s.log.stories && s.log.stories[k].writes >= 1
    ensures now - s.log.stories[k].last > s.cfg.Rto(s.log.stories[k].writes - 1)
  {
    assert k in s.inflight && s.inflight[k].Due(s.cfg, now);
  }

  /** With the built-in settings and no NACKs the wait is 240 s (guaranteed, 11 sends) or 30 s (others, 4 sends). */
  lemma DefaultWaits(cfg: Config)
    requires cfg.baseMs == 2000 && cfg.maxMs == 30000
    ensures Limit(0) == 10 && LeastWait(cfg, Limit(0), 0) == 240_000_000_000
    ensures forall tier: Byte :: tier != 0 ==> Limit(tier) == 3 && LeastWait(cfg, Limit(tier), 0) == 30_000_000_000
  {
    Backoff.DefaultPatience();
  }

  /**
    The bound is tight, for every tier and every number n of NACKs: a run in which the
    packet expires 1 ns (per wait) after it, because `processNACK` counts a retry without
    waiting and without looking at the limit.
   */
  lemma TheBoundIsTight(cfg: Config, data: seq<Byte>, tier: Byte, n: nat) returns (es: seq<Event>, now: nat)
    requires Backoff.InRange(cfg.baseMs, cfg.maxMs) && tier != BEST_EFFORT
    ensures IsRun(Fresh(cfg), es)
    ensures var s := End(Fresh(cfg), es);
            && s.log.transmits == 1 && 1 in Expired(s, now)
            && 1 in s.log.stories && s.log.stories[1].tier == tier && s.log.stories[1].nacks == n
            && now - s.log.stories[1].at == LeastWait(cfg, Limit(tier), n) + (Max(Limit(tier), n) - n) + 1
  {
    var last := Max(Limit(tier), n);
    es := FirstSend(cfg, data, tier);
    es := Ticking(cfg, es, tier, last - n);
    es := Nacking(cfg, es, tier, last - n, n);
    Backoff.ClosedForm(cfg.baseMs, cfg.maxMs, last);
    now := End(Fresh(cfg), es).clock + cfg.Rto(last) + 1;
    es := Snoc(Fresh(cfg), es, Advance(now));
  }

  /** In particular three NACKs make a reliable packet expire after about 16 s instead of 30 s. */
  lemma NacksCutTheWait(cfg: Config, data: seq<Byte>) returns (es: seq<Event>, now: nat)
    requires cfg.baseMs == Backoff.DEFAULT_BASE_MS && cfg.maxMs == Backoff.DEFAULT_MAX_MS
    ensures IsRun(Fresh(cfg), es)
    ensures var s := End(Fresh(cfg), es);
            && s.log.transmits == 1 && 1 in Expired(s, now)
            && 1 in s.log.stories && s.log.stories[1].tier == RELIABLE
            && now - s.log.stories[1].at == 16_000 * Backoff.MS + 1
  {
    Backoff.DefaultRTO(3);
    es, now := TheBoundIsTight(cfg, data, RELIABLE, 3);
  }

  /** One packet, just written for the last time, after so many retries by ticks and by NACKs. */
  ghost predicate Single(s: ClientState, cfg: Config, tier: Byte, ticks: nat, nacks: nat) {
    && s.cfg == cfg && s.log.transmits == 1 && s.lastTick <= s.clock
    && s.clock == Waits(cfg, ticks) + ticks
    && s.inflight.Keys == {1}
    && s.inflight[1] == Pkt(s.inflight[1].data, 1, 0, tier, s.clock, ticks + nacks)
    && 1 in s.log.stories && s.log.stories[1].at == 0
    && s.log.stories[1].tier == tier && s.log.stories[1].nacks == nacks
  }

  lemma FirstSend(cfg: Config, data: seq<Byte>, tier: Byte) returns (es: seq<Event>)
    requires tier != BEST_EFFORT
    ensures IsRun(Fresh(cfg), es) && Single(End(Fresh(cfg), es), cfg, tier, 0, 0)
  {
    var s := Fresh(cfg);
    assert IsRun(s, []) && End(s, []) == s;
    es := Snoc(s, [], Write(data, tier, 0, true));
    es := Snoc(s, es, Insert(1));
  }

  /** n ticks, each as soon as the timeout allows. */
  lemma {:induction false} Ticking(cfg: Config, start: seq<Event>, tier: Byte, n: nat) returns (es: seq<Event>)
    requires Backoff.InRange(cfg.baseMs, cfg.maxMs) && n <= Limit(tier)
    requires IsRun(Fresh(cfg), start) && Single(End(Fresh(cfg), start), cfg, tier, 0, 0)
    ensures IsRun(Fresh(cfg), es) && Single(End(Fresh(cfg), es), cfg, tier, n, 0)
    decreases n
  {
    es := start;
    if n > 0 {
      es := Ticking(cfg, start, tier, n - 1);
      es := OneTick(cfg, es, tier, n - 1);
    }
  }

  lemma OneTick(cfg: Config, start: seq<Event>, tier: Byte, r: nat) returns (es: seq<Event>)
    requires Backoff.InRange(cfg.baseMs, cfg.maxMs) && r < Limit(tier)
    requires IsRun(Fresh(cfg), start) && Single(End(Fresh(cfg), start), cfg, tier, r, 0)
    ensures IsRun(Fresh(cfg), es) && Single(End(Fresh(cfg), es), cfg, tier, r + 1, 0)
  {
    Backoff.ClosedForm(cfg.baseMs, cfg.maxMs, r);
    var now := End(Fresh(cfg), start).clock + cfg.Rto(r) + 1;
    es := Snoc(Fresh(cfg), start, Advance(now));
    TickServesSingle(End(Fresh(cfg), es), cfg, tier, r, now);
    es := Snoc(Fresh(cfg), es, Tick(now, {1}));
  }

  lemma TickServesSingle(s: ClientState, cfg: Config, tier: Byte, r: nat, now: nat)
    requires r < Limit(tier) && now >= cfg.Rto(r) + 1 && s.clock == now && s.lastTick <= now
    requires Single(s.(clock := now - cfg.Rto(r) - 1), cfg, tier, r, 0)
    ensures Enabled(s, Tick(now, {1})) && Single(AfterTick(s, now, {1}), cfg, tier, r + 1, 0)
  {
    var p := s.inflight[1];
    assert p.Due(cfg, now) && !p.Exhausted();
    WaitsNext(cfg, r);
    OnlyOneDue(s, now, 1);
  }

  lemma OnlyOneDue(s: ClientState, now: nat, k: U32)
    requires s.inflight.Keys == {k} && s.inflight[k].Due(s.cfg, now) && !s.inflight[k].Exhausted()
    ensures OldestFirst(s, now, {k})
    ensures AfterTick(s, now, {k}).inflight == map[k := Resent(s.inflight[k], now)]
  {
    assert Eligible(s, now) == {k} && Expired(s, now) == {};
  }

  /** Then n NACKs at once. */
  lemma {:induction false} Nacking(cfg: Config, start: seq<Event>, tier: Byte, ticks: nat, n: nat) returns (es: seq<Event>)
    requires IsRun(Fresh(cfg), start) && Single(End(Fresh(cfg), start), cfg, tier, ticks, 0)
    ensures IsRun(Fresh(cfg), es) && Single(End(Fresh(cfg), es), cfg, tier, ticks, n)
    decreases n
  {
    es := start;
    if n > 0 {
      es := Nacking(cfg, start, tier, ticks, n - 1);
      es := Snoc(Fresh(cfg), es, Nack(1, 0, 1));
    }
  }

  lemma Snoc(s: ClientState, es: seq<Event>, e: Event) returns (longer: seq<Event>)
    requires IsRun(s, es) && Enabled(End(s, es), e)
    ensures IsRun(s, longer) && End(s, longer) == Apply(End(s, es), e)
  {
    RunSnoc(s, es, e);
    longer := es + [e];
  }
}

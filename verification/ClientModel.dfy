/**
  The client's reliability machine as a transition system. One step is one
  critical section of the code: `transmitWithFlags` puts the datagram on the wire
  (Write) and later inserts the inflight entry (Insert); `processACK` deletes the
  entry (Ack) and later bumps the counter (Count); `processNACK` and the
  retransmit tick are single steps. Any interleaving of such steps is a run.
 */
module ClientModel {
  import opened Bytes
  import opened Packet
  import Backoff

  const DEFAULT_BUDGET := 64

  /** Retries after which the tick gives a packet up. */
  function Limit(tier: Byte): nat {
    if tier == GUARANTEED then 10 else 3
  }

  datatype Config = Config(baseMs: int, maxMs: int, retransmitBudget: int) {
    function Rto(retries: nat): int {
      Backoff.ComputeRTO(baseMs, maxMs, retries)
    }

    function Budget(): (b: nat)
      ensures b >= 1
    {
      if retransmitBudget <= 0 then DEFAULT_BUDGET else retransmitBudget
    }
  }

  datatype Pkt = Pkt(data: seq<Byte>, seqNo: U16, stream: U16, tier: Byte, sentAt: nat, retries: nat) {
    predicate Matches(seqNo: U16, stream: U16) {
      this.seqNo == seqNo && this.stream == stream
    }

    predicate Due(cfg: Config, now: nat) {
      now - sentAt > cfg.Rto(retries)
    }

    predicate Exhausted() {
      retries >= Limit(tier)
    }
  }

  /**
    What happened to one written datagram, for specification only: first and latest
    time of writing, number of writes, and how many of them a NACK caused.
   */
  datatype Story = Story(data: seq<Byte>, stream: U16, tier: Byte, at: nat, last: nat, writes: nat, nacks: nat) {
    function Again(now: nat): Story {
      this.(last := now, writes := writes + 1)
    }
  }

  /** History of a session; no step depends on it. */
  datatype Log = Log(
    transmits: nat, failures: nat, stories: map<U32, Story>,
    tracked: set<U32>, acked: set<U32>, expired: set<U32>)

  datatype ClientState = ClientState(
    cfg: Config, clock: nat, lastTick: nat,
    counter: U32, inflight: map<U32, Pkt>,
    sent: nat, acked: nat, retransmits: nat, dropped: nat,
    written: map<U32, Pkt>,  // on the wire, inflight entry not yet inserted
    uncounted: set<U32>,     // inflight entry deleted, `acked` not yet bumped
    log: Log)

  function Fresh(cfg: Config): ClientState {
    ClientState(cfg, 0, 0, 0, map[], 0, 0, 0, 0, map[], {}, Log(0, 0, map[], {}, {}, {}))
  }

  datatype Event =
    | Write(data: seq<Byte>, tier: Byte, stream: U16, ok: bool)
    | Insert(key: U32)
    | Ack(seqNo: U16, stream: U16, key: U32)
    | AckMiss(seqNo: U16, stream: U16)
    | Count(key: U32)
    | Nack(seqNo: U16, stream: U16, key: U32)
    | NackMiss(seqNo: U16, stream: U16)
    | Tick(now: nat, chosen: set<U32>)
    | Advance(to: nat)

  // ---- the retransmit tick ----

  function Expired(s: ClientState, now: nat): set<U32> {
    set k | k in s.inflight && s.inflight[k].Due(s.cfg, now) && s.inflight[k].Exhausted()
  }

  function Eligible(s: ClientState, now: nat): set<U32> {
    set k | k in s.inflight && s.inflight[k].Due(s.cfg, now) && !s.inflight[k].Exhausted()
  }

  /** As many eligible packets as the budget allows, none younger than one left behind. */
  ghost predicate OldestFirst(s: ClientState, now: nat, chosen: set<U32>) {
    && chosen <= Eligible(s, now)
    && |chosen| == (if |Eligible(s, now)| <= s.cfg.Budget() then |Eligible(s, now)| else s.cfg.Budget())
    && forall k, j :: k in chosen && j in Eligible(s, now) && j !in chosen ==>
                        s.inflight[k].sentAt <= s.inflight[j].sentAt
  }

  function Resent(p: Pkt, now: nat): Pkt {
    p.(retries := p.retries + 1, sentAt := now)
  }

  function WroteAgain(stories: map<U32, Story>, keys: set<U32>, now: nat): map<U32, Story> {
    map k | k in stories :: if k in keys then stories[k].Again(now) else stories[k]
  }

  function AfterTick(s: ClientState, now: nat, chosen: set<U32>): ClientState {
    var gone := Expired(s, now);
    s.(lastTick := now,
       inflight := map k | k in s.inflight && k !in gone ::
         if k in chosen then Resent(s.inflight[k], now) else s.inflight[k],
       retransmits := s.retransmits + |chosen|,
       dropped := s.dropped + |gone|,
       log := s.log.(stories := WroteAgain(s.log.stories, chosen, now), expired := s.log.expired + gone))
  }

  // ---- the other steps ----

  function NextKey(s: ClientState): U32 {
    (s.counter + 1) % POW32
  }

  function AfterWrite(s: ClientState, data: seq<Byte>, tier: Byte, stream: U16, ok: bool): ClientState {
    var key := NextKey(s);
    var counted := s.(counter := key, log := s.log.(transmits := s.log.transmits + 1));
    if !ok then
      counted.(dropped := s.dropped + 1, log := counted.log.(failures := s.log.failures + 1))
    else
      var logged := counted.(
        sent := s.sent + 1,
        log := counted.log.(stories := s.log.stories[key := Story(data, stream, tier, s.clock, s.clock, 1, 0)]));
      if tier == BEST_EFFORT then logged
      else logged.(
        written := s.written[key := Pkt(data, key % POW16, stream, tier, s.clock, 0)],
        log := logged.log.(tracked := s.log.tracked + {key}))
  }

  function AfterInsert(s: ClientState, key: U32): ClientState
    requires key in s.written
  {
    s.(written := s.written - {key}, inflight := s.inflight[key := s.written[key].(sentAt := s.clock)])
  }

  function AfterAck(s: ClientState, key: U32): ClientState {
    s.(inflight := s.inflight - {key}, uncounted := s.uncounted + {key},
       log := s.log.(acked := s.log.acked + {key}))
  }

  function AfterCount(s: ClientState, key: U32): ClientState {
    s.(uncounted := s.uncounted - {key}, acked := s.acked + 1)
  }

  function AfterNack(s: ClientState, key: U32): ClientState
    requires key in s.inflight
  {
    s.(inflight := s.inflight[key := Resent(s.inflight[key], s.clock)],
       retransmits := s.retransmits + 1,
       log := s.log.(stories := map k | k in s.log.stories :: var t := s.log.stories[k];
         if k == key then t.Again(s.clock).(nacks := t.nacks + 1) else t))
  }

  /** How the ACK loop reacts to a datagram: it looks at version, type, sequence number and stream. */
  predicate Reacts(datagram: seq<Byte>, e: Event) {
    && |datagram| >= HEADER_V2 && datagram[0] == V2
    && var h := Parse(datagram);
       match e
       case Ack(q, t, _) => h.kind == ACK && q == h.seqNo && t == h.stream
       case AckMiss(q, t) => h.kind == ACK && q == h.seqNo && t == h.stream
       case Nack(q, t, _) => h.kind == NACK && q == h.seqNo && t == h.stream
       case NackMiss(q, t) => h.kind == NACK && q == h.seqNo && t == h.stream
       case _ => false
  }

  // ---- runs ----

  ghost predicate Enabled(s: ClientState, e: Event) {
    match e
    case Write(_, _, _, _) => true
    case Insert(key) => key in s.written
    case Ack(seqNo, stream, key) => key in s.inflight && s.inflight[key].Matches(seqNo, stream)
    case AckMiss(seqNo, stream) => forall k :: k in s.inflight ==> !s.inflight[k].Matches(seqNo, stream)
    case Count(key) => key in s.uncounted
    case Nack(seqNo, stream, key) => key in s.inflight && s.inflight[key].Matches(seqNo, stream)
    case NackMiss(seqNo, stream) => forall k :: k in s.inflight ==> !s.inflight[k].Matches(seqNo, stream)
    case Tick(now, chosen) => s.lastTick <= now <= s.clock && OldestFirst(s, now, chosen)
    case Advance(to) => s.clock <= to
  }

  ghost function Apply(s: ClientState, e: Event): ClientState
    requires Enabled(s, e)
  {
    match e
    case Write(data, tier, stream, ok) => AfterWrite(s, data, tier, stream, ok)
    case Insert(key) => AfterInsert(s, key)
    case Ack(_, _, key) => AfterAck(s, key)
    case AckMiss(_, _) => s
    case Count(key) => AfterCount(s, key)
    case Nack(_, _, key) => AfterNack(s, key)
    case NackMiss(_, _) => s
    case Tick(now, chosen) => AfterTick(s, now, chosen)
    case Advance(to) => s.(clock := to)
  }

  ghost predicate IsRun(s: ClientState, es: seq<Event>)
    decreases |es|
  {
    es == [] || (Enabled(s, es[0]) && IsRun(Apply(s, es[0]), es[1..]))
  }

  ghost function End(s: ClientState, es: seq<Event>): ClientState
    requires IsRun(s, es)
    decreases |es|
  {
    if es == [] then s else End(Apply(s, es[0]), es[1..])
  }

  lemma {:induction false} RunSnoc(s: ClientState, es: seq<Event>, e: Event)
    requires IsRun(s, es) && Enabled(End(s, es), e)
    ensures IsRun(s, es + [e]) && End(s, es + [e]) == Apply(End(s, es), e)
    decreases |es|
  {
    if es == [] {
      assert ([] + [e])[1..] == [];
    } else {
      RunSnoc(Apply(s, es[0]), es[1..], e);
      assert (es + [e])[1..] == es[1..] + [e];
    }
  }

  // ---- accounting ----

  ghost predicate Faithful(s: ClientState, k: U32, p: Pkt) {
    && k in s.log.stories
    && p.seqNo == k % POW16
    && p.data == s.log.stories[k].data && p.stream == s.log.stories[k].stream && p.tier == s.log.stories[k].tier
    && p.tier != BEST_EFFORT
  }

  /** A tracked datagram is in exactly one place, and its entry is the datagram that was written. */
  ghost predicate Placed(s: ClientState, k: U32) {
    && (k in s.log.tracked <==> k in s.inflight || k in s.written || k in s.log.acked || k in s.log.expired)
    && (k in s.inflight ==> k !in s.written && k !in s.log.acked && k !in s.log.expired && Faithful(s, k, s.inflight[k]))
    && (k in s.written ==> k !in s.log.acked && k !in s.log.expired && Faithful(s, k, s.written[k]))
    && (k in s.log.acked ==> k !in s.log.expired)
    && (k in s.uncounted ==> k in s.log.acked)
    && (k in s.log.tracked ==> k in s.log.stories)
    && (k in s.log.stories ==> 1 <= k <= s.log.transmits)
  }

  ghost predicate Tallied(s: ClientState) {
    && s.counter == s.log.transmits
    && s.acked + |s.uncounted| == |s.log.acked|
    && s.dropped == |s.log.expired| + s.log.failures
    && s.sent == |s.log.stories|
    && s.sent + s.log.failures == s.log.transmits
  }

  ghost predicate Books(s: ClientState) {
    && Tallied(s)
    && forall k: U32 :: Placed(s, k)
  }

  lemma BooksStep(s: ClientState, e: Event)
    requires Books(s) && Enabled(s, e) && Apply(s, e).log.transmits < POW32
    ensures Books(Apply(s, e))
  {
    if e.Write? || e.Insert? {
      BooksSend(s, e);
    } else if e.Tick? || e.Advance? {
      BooksTime(s, e);
    } else {
      BooksReply(s, e);
    }
  }

  lemma BooksSend(s: ClientState, e: Event)
    requires Books(s) && Enabled(s, e) && (e.Write? || e.Insert?) && Apply(s, e).log.transmits < POW32
    ensures Books(Apply(s, e))
  {
    match e
    case Write(data, tier, stream, ok) => BooksWrite(s, data, tier, stream, ok);
    case Insert(key) => BooksInsert(s, key);
  }

  lemma BooksTime(s: ClientState, e: Event)
    requires Books(s) && Enabled(s, e) && (e.Tick? || e.Advance?)
    ensures Books(Apply(s, e))
  {
    match e
    case Tick(now, chosen) => BooksTick(s, now, chosen);
    case Advance(to) => BooksAdvance(s, to);
  }

  lemma BooksReply(s: ClientState, e: Event)
    requires Books(s) && Enabled(s, e) && (e.Ack? || e.AckMiss? || e.Nack? || e.NackMiss? || e.Count?)
    ensures Books(Apply(s, e))
  {
    match e
    case Ack(_, _, key) => BooksAck(s, key);
    case Count(key) => BooksCount(s, key);
    case Nack(_, _, key) => BooksNack(s, key);
    case AckMiss(_, _) =>
    case NackMiss(_, _) =>
  }

  lemma BooksWrite(s: ClientState, data: seq<Byte>, tier: Byte, stream: U16, ok: bool)
    requires Books(s) && s.log.transmits + 1 < POW32
    ensures Books(AfterWrite(s, data, tier, stream, ok))
  {
    var t, key := AfterWrite(s, data, tier, stream, ok), NextKey(s);
    assert key == s.log.transmits + 1;
    assert Placed(s, key);
    forall k: U32
      ensures Placed(t, k)
    {
      assert Placed(s, k);
      WritePlaced(s, data, tier, stream, ok, k);
    }
  }

  lemma WritePlaced(s: ClientState, data: seq<Byte>, tier: Byte, stream: U16, ok: bool, k: U32)
    requires Placed(s, k) && NextKey(s) == s.log.transmits + 1 && (k == NextKey(s) ==> k !in s.log.stories)
    ensures Placed(AfterWrite(s, data, tier, stream, ok), k)
  {
  }

  lemma BooksInsert(s: ClientState, key: U32)
    requires Books(s) && key in s.written
    ensures Books(AfterInsert(s, key))
  {
    var t := AfterInsert(s, key);
    forall k: U32
      ensures Placed(t, k)
    {
      assert Placed(s, k);
    }
  }

  lemma BooksAck(s: ClientState, key: U32)
    requires Books(s) && key in s.inflight
    ensures Books(AfterAck(s, key))
  {
    var t := AfterAck(s, key);
    forall k: U32
      ensures Placed(t, k)
    {
      assert Placed(s, k);
    }
    assert Placed(s, key);
  }

  lemma BooksCount(s: ClientState, key: U32)
    requires Books(s) && key in s.uncounted
    ensures Books(AfterCount(s, key))
  {
    var t := AfterCount(s, key);
    forall k: U32
      ensures Placed(t, k)
    {
      assert Placed(s, k);
    }
  }

  lemma BooksNack(s: ClientState, key: U32)
    requires Books(s) && key in s.inflight
    ensures Books(AfterNack(s, key))
  {
    var t := AfterNack(s, key);
    assert t.log.stories.Keys == s.log.stories.Keys;
    forall k: U32
      ensures Placed(t, k)
    {
      assert Placed(s, k);
    }
  }

  lemma BooksTick(s: ClientState, now: nat, chosen: set<U32>)
    requires Books(s) && OldestFirst(s, now, chosen)
    ensures Books(AfterTick(s, now, chosen))
  {
    var t, gone := AfterTick(s, now, chosen), Expired(s, now);
    assert t.log.stories.Keys == s.log.stories.Keys;
    forall k: U32
      ensures Placed(t, k) && !(k in gone && k in s.log.expired)
    {
      assert Placed(s, k);
    }
    assert |s.log.expired + gone| == |s.log.expired| + |gone|;
  }

  lemma BooksAdvance(s: ClientState, to: nat)
    requires Books(s)
    ensures Books(s.(clock := to))
  {
    forall k: U32
      ensures Placed(s.(clock := to), k)
    {
      assert Placed(s, k);
    }
  }

  lemma {:induction false} TransmitsGrow(s: ClientState, es: seq<Event>)
    requires IsRun(s, es)
    ensures s.log.transmits <= End(s, es).log.transmits
    decreases |es|
  {
    if es != [] {
      TransmitsGrow(Apply(s, es[0]), es[1..]);
    }
  }

  lemma {:induction false} BooksRun(s: ClientState, es: seq<Event>)
    requires Books(s) && IsRun(s, es) && End(s, es).log.transmits < POW32
    ensures Books(End(s, es))
    decreases |es|
  {
    if es != [] {
      TransmitsGrow(Apply(s, es[0]), es[1..]);
      BooksStep(s, es[0]);
      BooksRun(Apply(s, es[0]), es[1..]);
    }
  }

  /**
    ClientState accounting, in every interleaving of a session of fewer than 2^32 sends:
    tracked sends = acked + expired + inflight, up to the sends and ACKs that are
    caught between their two critical sections. So duplicate ACKs cannot inflate `acked`.
   */
  lemma Accounting(cfg: Config, es: seq<Event>)
    requires IsRun(Fresh(cfg), es) && End(Fresh(cfg), es).log.transmits < POW32
    ensures var s := End(Fresh(cfg), es);
            && |s.log.tracked| == s.acked + |s.uncounted| + |s.log.expired| + |s.inflight| + |s.written|
            && s.acked <= |s.log.tracked| <= s.sent
            && s.dropped == |s.log.expired| + s.log.failures
  {
    var s := End(Fresh(cfg), es);
    BooksRun(Fresh(cfg), es);
    TrackedIsUnion(s);
    OnePlaceEach(s);
    TrackedWasWritten(s);
    FourParts(s.log.tracked, s.inflight.Keys, s.written.Keys, s.log.acked, s.log.expired);
    SubsetSize(s.log.tracked, s.log.stories.Keys);
  }

  lemma TrackedIsUnion(s: ClientState)
    requires Books(s)
    ensures s.log.tracked == s.inflight.Keys + s.written.Keys + s.log.acked + s.log.expired
  {
    var all := s.inflight.Keys + s.written.Keys + s.log.acked + s.log.expired;
    assert s.log.tracked <= all && all <= s.log.tracked by {
      forall k: U32
        ensures k in s.log.tracked <==> k in all
      {
        assert Placed(s, k);
      }
    }
  }

  lemma OnePlaceEach(s: ClientState)
    requires Books(s)
    ensures s.inflight.Keys !! s.written.Keys !! s.log.acked !! s.log.expired
  {
    forall k: U32
      ensures !(k in s.inflight && k in s.written)
      ensures !((k in s.inflight || k in s.written) && k in s.log.acked)
      ensures !((k in s.inflight || k in s.written || k in s.log.acked) && k in s.log.expired)
    {
      assert Placed(s, k);
    }
  }

  lemma TrackedWasWritten(s: ClientState)
    requires Books(s)
    ensures s.log.tracked <= s.log.stories.Keys
  {
    forall k: U32 | k in s.log.tracked
      ensures k in s.log.stories
    {
      assert Placed(s, k);
    }
  }

  lemma FourParts(all: set<U32>, a: set<U32>, b: set<U32>, c: set<U32>, d: set<U32>)
    requires all == a + b + c + d && a !! b !! c !! d
    ensures |all| == |a| + |b| + |c| + |d|
  {
    assert |a + b| == |a| + |b|;
    assert |a + b + c| == |a + b| + |c|;
    assert |a + b + c + d| == |a + b + c| + |d|;
  }

  lemma {:induction false} SubsetSize<T>(a: set<T>, b: set<T>)
    requires a <= b
    ensures |a| <= |b|
  {
    if a != {} {
      var x :| x in a;
      SubsetSize(a - {x}, b - {x});
    }
  }
}

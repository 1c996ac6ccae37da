/**
  The bound of 65536 sends in Session.AckSoundness is exact: one send more, and a
  delayed duplicate of an old ACK can acknowledge a datagram the server never saw.
  Nor can the "unless the server is still working on it" be dropped.
 */
module WrapAround {
  import opened Bytes
  import opened Packet
  import C = ClientModel
  import opened ServerModel
  import opened Session

  ghost predicate Reaches(s: System, t: System) {
    exists es :: IsRun(s, es) && End(s, es) == t
  }

  lemma Step(o: System, s: System, e: Event)
    requires Reaches(o, s) && Enabled(s, e)
    ensures Reaches(o, Apply(s, e))
  {
    var es :| IsRun(o, es) && End(o, es) == s;
    RunSnoc(o, es, e);
  }

  /** Everything but what the client has sent. */
  ghost predicate SameButSends(s: System, t: System) {
    && t.server == s.server && t.toClient == s.toClient
    && t.client.inflight == s.client.inflight && t.client.written == s.client.written
    && t.client.log.acked == s.client.log.acked && t.client.cfg == s.client.cfg
  }

  /** A tracked data packet on stream 0. */
  ghost predicate DataFor(m: seq<Byte>, seqNo: U16, contentId: U32) {
    Accepts(m) && Parse(m) == Header(DATA, GUARANTEED, 0, seqNo, 0, contentId)
  }

  /** An ACK on stream 0. */
  ghost predicate AckOf(a: seq<Byte>, seqNo: U16) {
    |a| >= HEADER_V2 && a[0] == V2 && Parse(a).kind == ACK && Parse(a).seqNo == seqNo && Parse(a).stream == 0
  }

  lemma WriteStep(o: System, s: System, tier: Byte, contentId: U32) returns (t: System, m: seq<Byte>)
    requires Reaches(o, s)
    ensures Reaches(o, t)
    ensures t == s.(client := C.AfterWrite(s.client, m, tier, 0, true), toServer := s.toServer + {Copy(C.NextKey(s.client), m)})
    ensures tier == GUARANTEED ==> DataFor(m, C.NextKey(s.client) % POW16, contentId)
  {
    var e := Send([], tier, 0, 0, contentId, true);
    m := Outgoing(s.client, e);
    EncodeThenParse(Header(DATA, tier, 0, C.NextKey(s.client) % POW16, 0, contentId), []);
    t := Apply(s, e);
    Step(o, s, e);
  }

  lemma OneBestEffort(o: System, s: System) returns (t: System)
    requires Reaches(o, s) && s.client.counter + 1 < POW32
    ensures Reaches(o, t) && SameButSends(s, t)
    ensures t.client.counter == s.client.counter + 1 && t.client.log.transmits == s.client.log.transmits + 1
  {
    var m;
    t, m := WriteStep(o, s, BEST_EFFORT, 0);
  }

  /** n best-effort sends move nothing but the counter. */
  lemma {:induction false} Burst(o: System, s: System, n: nat) returns (t: System)
    requires Reaches(o, s) && s.client.counter + n < POW32
    ensures Reaches(o, t) && SameButSends(s, t)
    ensures t.client.counter == s.client.counter + n && t.client.log.transmits == s.client.log.transmits + n
    decreases n
  {
    t := s;
    if n > 0 {
      t := OneBestEffort(o, s);
      t := Burst(o, t, n - 1);
    }
  }

  /** One tracked send: written, then inserted. */
  lemma TrackedSend(o: System, s: System, contentId: U32) returns (t: System, m: seq<Byte>, key: U32)
    requires Reaches(o, s) && s.client.counter + 1 < POW32 && s.client.inflight == map[] && s.client.written == map[]
    ensures key == s.client.counter + 1 && DataFor(m, key % POW16, contentId) && Reaches(o, t)
    ensures t == s.(client := t.client, toServer := s.toServer + {Copy(key, m)})
    ensures OneInflight(s.client, t.client, m)
  {
    key := s.client.counter + 1;
    var u;
    u, m := WriteStep(o, s, GUARANTEED, contentId);
    TrackedClient(s.client, m);
    t := InsertStep(o, u, key);
  }

  /** The client d after a tracked send of m by c. */
  ghost predicate OneInflight(c: C.ClientState, d: C.ClientState, m: seq<Byte>) {
    var key := c.counter + 1;
    && d.counter == key && d.log.transmits == c.log.transmits + 1 && d.log.acked == c.log.acked
    && d.inflight.Keys == {key} && d.inflight[key].Matches(key % POW16, 0) && d.written == map[]
    && key in d.log.stories && d.log.stories[key].data == m
  }

  lemma TrackedClient(c: C.ClientState, m: seq<Byte>)
    requires c.counter + 1 < POW32 && c.inflight == map[] && c.written == map[]
    ensures var d, key := C.AfterWrite(c, m, GUARANTEED, 0, true), c.counter + 1;
            C.NextKey(c) == key && key in d.written && OneInflight(c, C.AfterInsert(d, key), m)
  {
    assert C.NextKey(c) == c.counter + 1;
    var d := C.AfterWrite(c, m, GUARANTEED, 0, true);
    assert d.written - {c.counter + 1} == map[];
  }

  lemma InsertStep(o: System, s: System, key: U32) returns (t: System)
    requires Reaches(o, s) && key in s.client.written
    ensures Reaches(o, t) && t == s.(client := C.AfterInsert(s.client, key))
  {
    var e := Local(C.Insert(key));
    t := Apply(s, e);
    Step(o, s, e);
  }

  /** The server reads m: it acknowledges, and has not yet looked for duplicates. */
  lemma Acknowledge(o: System, s: System, m: seq<Byte>, seqNo: U16, contentId: U32) returns (t: System, a: Copy)
    requires Reaches(o, s) && Copy(1, m) in s.toServer && DataFor(m, seqNo, contentId)
    ensures Reaches(o, t)
    ensures t.client == s.client
    ensures t.server.handled == s.server.handled + {m} && t.server.dedup == s.server.dedup
    ensures a in t.toClient && AckOf(a.data, seqNo)
  {
    a := Copy(1, AckFor(m));
    EncodeThenParse(Header(ACK, 0, 0, seqNo, 0, contentId), []);
    var e := ServerReceive(Copy(1, m), Env(true, [], []));
    t := Apply(s, e);
    Step(o, s, e);
  }

  lemma TakeAck(o: System, s: System, a: Copy, seqNo: U16, key: U32) returns (t: System)
    requires Reaches(o, s) && a in s.toClient && AckOf(a.data, seqNo)
    requires s.client.inflight.Keys == {key} && s.client.inflight[key].Matches(seqNo, 0)
    ensures Reaches(o, t)
    ensures t.server == s.server && t.toClient == s.toClient
    ensures t.client == C.AfterAck(s.client, key) && t.client.inflight == map[]
  {
    var e := ClientReceive(a, C.Ack(seqNo, 0, key));
    t := Apply(s, e);
    Step(o, s, e);
    assert C.AfterAck(s.client, key).inflight == map[];
  }

  /** One datagram was sent and acknowledged while the server is still working on it. */
  ghost predicate Exchanged(s: System, m: seq<Byte>, a: Copy) {
    && DataFor(m, 1, 1) && a in s.toClient && AckOf(a.data, 1)
    && s.client.counter == 1 && s.client.log.transmits == 1
    && s.client.inflight == map[] && s.client.written == map[]
    && s.client.log.acked == {1} && s.server.handled == {m}
    && s.server.dedup.accepted == []
    && 1 in s.client.log.stories && s.client.log.stories[1].data == m
  }

  /** One datagram is on its way. */
  ghost predicate SentOne(s: System, m: seq<Byte>) {
    && DataFor(m, 1, 1) && Copy(1, m) in s.toServer && s.server == ServerModel.Fresh()
    && s.client.counter == 1 && s.client.log.transmits == 1 && s.client.written == map[]
    && s.client.inflight.Keys == {1} && s.client.inflight[1].Matches(1, 0) && s.client.log.acked == {}
    && 1 in s.client.log.stories && s.client.log.stories[1].data == m
  }

  lemma FirstSend(cfg: C.Config) returns (s: System, m: seq<Byte>)
    ensures Reaches(Init(cfg), s) && SentOne(s, m)
  {
    var o, key := Init(cfg), 0;
    assert IsRun(o, []) && End(o, []) == o;
    s, m, key := TrackedSend(o, o, 1);
  }

  lemma FirstExchange(cfg: C.Config) returns (s: System, m: seq<Byte>, a: Copy)
    ensures Reaches(Init(cfg), s) && Exchanged(s, m, a)
  {
    s, m := FirstSend(cfg);
    s, a := Acknowledge(Init(cfg), s, m, 1, 1);
    s := TakeAck(Init(cfg), s, a, 1, 1);
  }

  /** The ACK precedes the acceptance: a datagram can be acknowledged while nothing was accepted yet. */
  lemma AckedBeforeAccepted(cfg: C.Config) returns (es: seq<Event>)
    ensures IsRun(Init(cfg), es)
    ensures var s := End(Init(cfg), es);
            && s.client.log.transmits == 1 && 1 in s.client.log.acked
            && 1 in s.client.log.stories && |s.client.log.stories[1].data| >= HEADER_V2
            && !AcceptedContent(s.server, s.client.log.stories[1].data)
  {
    var s, m, a := FirstExchange(cfg);
    es :| IsRun(Init(cfg), es) && End(Init(cfg), es) == s;
  }

  /** Send number 65537 is inflight under wire number 1 again. */
  ghost predicate Wrapped(t: System, m: seq<Byte>) {
    && t.client.log.transmits == POW16 + 1
    && t.client.inflight.Keys == {POW16 + 1} && t.client.inflight[POW16 + 1].Matches(1, 0)
    && POW16 + 1 in t.client.log.stories && t.client.log.stories[POW16 + 1].data == m
    && DataFor(m, 1, 2)
  }

  /** 65536 further sends; the old ACK stays around. */
  lemma ManyMoreSends(o: System, s: System, m: seq<Byte>, a: Copy) returns (t: System, m': seq<Byte>)
    requires Reaches(o, s) && Exchanged(s, m, a)
    ensures Reaches(o, t) && t.toClient == s.toClient && t.server == s.server && Wrapped(t, m')
  {
    t := Burst(o, s, POW16 - 1);
    t, m' := WrappedSend(o, t);
  }

  lemma WrappedSend(o: System, s: System) returns (t: System, m: seq<Byte>)
    requires Reaches(o, s) && s.client.counter == s.client.log.transmits == POW16
    requires s.client.inflight == map[] && s.client.written == map[]
    ensures Reaches(o, t) && t.toClient == s.toClient && t.server == s.server && Wrapped(t, m)
  {
    var key;
    t, m, key := TrackedSend(o, s, 2);
    WrapsToOne(s.client, t.client, m);
  }

  /** The low half of 65537 is 1. */
  lemma WrapsToOne(c: C.ClientState, d: C.ClientState, m: seq<Byte>)
    requires c.counter == c.log.transmits == POW16 && OneInflight(c, d, m)
    ensures d.log.transmits == POW16 + 1 && d.inflight.Keys == {POW16 + 1} && d.inflight[POW16 + 1].Matches(1, 0)
    ensures POW16 + 1 in d.log.stories && d.log.stories[POW16 + 1].data == m
  {
  }

  lemma DifferentContent(m: seq<Byte>, m': seq<Byte>, q: U16, q': U16)
    requires DataFor(m, q, 2) && DataFor(m', q', 1)
    ensures m != m'
  {
  }

  /** With 65537 sends, a repeated old ACK acknowledges a datagram the server never handled. */
  lemma WrapDefeatsSoundness(cfg: C.Config) returns (es: seq<Event>)
    ensures IsRun(Init(cfg), es)
    ensures var s := End(Init(cfg), es);
            && s.client.log.transmits == POW16 + 1 && POW16 + 1 in s.client.log.acked
            && POW16 + 1 in s.client.log.stories
            && s.client.log.stories[POW16 + 1].data !in s.server.handled
  {
    var s, m, a := FirstExchange(cfg);
    var t, m' := ManyMoreSends(Init(cfg), s, m, a);
    DifferentContent(m', m, 1, 1);
    t := TakeAck(Init(cfg), t, a, 1, POW16 + 1);
    es :| IsRun(Init(cfg), es) && End(Init(cfg), es) == t;
  }
}

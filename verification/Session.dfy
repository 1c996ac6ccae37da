/**
  A whole session: the V2 client, the server, and a network that may lose,
  duplicate, delay and reorder datagrams but not forge or damage them. The server
  sends its ACK before it decides about duplicates, so that decision is a step of
  its own. Datagrams are the byte strings of the wire format.
 */
module Session {
  import opened Bytes
  import opened Packet
  import C = ClientModel
  import D = Dedup
  import R = Reassembly
  import opened ServerModel

  /**
    A datagram in the network. `key` is the send it is a copy of, or for a reply the send
    that provoked it; it is there for the proofs, and neither end can read it.
   */
  datatype Copy = Copy(key: U32, data: seq<Byte>)

  /** The network: everything ever sent may be delivered at any time, any number of times. */
  datatype System = System(
    client: C.ClientState, server: Server, toServer: set<Copy>, toClient: set<Copy>)

  datatype Event =
    | Send(payload: seq<Byte>, tier: Byte, stream: U16, flags: Byte, contentId: U32, ok: bool)
    | Local(e: C.Event)
    | ClientReceive(copy: Copy, e: C.Event)
    | ServerReceive(copy: Copy, env: Env)
    | ServerFinish(datagram: seq<Byte>)
    | Collect(readAt: nat)
    | Advance(to: nat)

  function Init(cfg: C.Config): System {
    System(C.Fresh(cfg), ServerModel.Fresh(), {}, {})
  }

  // ---- client side ----

  /** The datagram `transmitWithFlags` builds for the next send. */
  function Outgoing(c: C.ClientState, e: Event): seq<Byte>
    requires e.Send?
  {
    DataPacket(e.payload, e.tier, e.stream, e.flags, e.contentId, C.NextKey(c))
  }

  function Resent(c: C.ClientState, keys: set<U32>): set<Copy> {
    set k | k in keys && k in c.inflight :: Copy(k, c.inflight[k].data)
  }

  function AfterSend(s: System, e: Event): System
    requires e.Send?
  {
    var m := Outgoing(s.client, e);
    s.(client := C.AfterWrite(s.client, m, e.tier, e.stream, e.ok),
       toServer := if e.ok then s.toServer + {Copy(C.NextKey(s.client), m)} else s.toServer)
  }

  /** Whatever the client does by itself; a tick puts copies back on the network. */
  ghost function AfterLocal(s: System, e: C.Event): System
    requires C.Enabled(s.client, e)
  {
    s.(client := C.Apply(s.client, e),
       toServer := if e.Tick? then s.toServer + Resent(s.client, e.chosen)
                   else if e.Nack? then s.toServer + Resent(s.client, {e.key})
                   else s.toServer)
  }

  /** The two ends share the clock. */
  function AfterAdvance(s: System, to: nat): System {
    s.(client := s.client.(clock := to), server := s.server.(dedup := s.server.dedup.(clock := to)))
  }

  // ---- server side ----

  function AfterReceive(s: System, x: Copy, env: Env): System {
    s.(server := Received(s.server, x.data, env),
       toClient := s.toClient + set a | a in Replies(x.data, env) :: Copy(x.key, a))
  }

  function AfterFinish(s: System, m: seq<Byte>): System
    requires |m| >= HEADER_V2
  {
    s.(server := Finished(s.server, m, s.client.clock))
  }

  function AfterCollect(s: System, readAt: nat): System {
    s.(server := s.server.(dedup := D.AfterCollect(s.server.dedup, readAt)))
  }

  // ---- runs ----

  ghost predicate Enabled(s: System, e: Event) {
    match e
    case Send(payload, _, _, flags, _, _) =>
      HEADER_V2 + |payload| <= MAX_DATAGRAM && (flags == 0 || flags == FLAG_PROTOBUF)
    case Local(c) => (c.Insert? || c.Count? || c.Tick?) && C.Enabled(s.client, c)
    case ClientReceive(x, c) => x in s.toClient && C.Reacts(x.data, c) && C.Enabled(s.client, c)
    case ServerReceive(x, _) => x in s.toServer
    case ServerFinish(m) => m in s.server.working && |m| >= HEADER_V2
    case Collect(readAt) => readAt <= s.client.clock
    case Advance(to) => s.client.clock <= to
  }

  ghost function Apply(s: System, e: Event): System
    requires Enabled(s, e)
  {
    match e
    case Send(_, _, _, _, _, _) => AfterSend(s, e)
    case Local(c) => AfterLocal(s, c)
    case ClientReceive(_, c) => AfterLocal(s, c)
    case ServerReceive(x, env) => AfterReceive(s, x, env)
    case ServerFinish(m) => AfterFinish(s, m)
    case Collect(readAt) => AfterCollect(s, readAt)
    case Advance(to) => AfterAdvance(s, to)
  }

  ghost predicate IsRun(s: System, es: seq<Event>)
    decreases |es|
  {
    es == [] || (Enabled(s, es[0]) && IsRun(Apply(s, es[0]), es[1..]))
  }

  ghost function End(s: System, es: seq<Event>): System
    requires IsRun(s, es)
    decreases |es|
  {
    if es == [] then s else End(Apply(s, es[0]), es[1..])
  }

  lemma {:induction false} RunSnoc(s: System, es: seq<Event>, e: Event)
    requires IsRun(s, es) && Enabled(End(s, es), e)
    ensures IsRun(s, es + [e]) && End(s, es + [e]) == Apply(End(s, es), e)
    decreases |es|
  {
    if es == [] {
      assert ([] + [e])[1..] == [];
    } else {
      RunSnoc(Apply(s, es[0]), es[1..], e);
      assert (es + [e])[1..] == es[1..] + [e];
    }
  }

  // ---- invariant ----

  /** A data packet of the V2 client: not a fragment, and with these header fields. */
  predicate IsDataPacket(m: seq<Byte>, tier: Byte, stream: U16, seqNo: U16) {
    && Accepts(m)
    && var h := Parse(m);
       && h.kind == DATA && h.tier == tier && h.stream == stream && h.seqNo == seqNo
       && !HasFlag(h.flags, FLAG_FRAGMENT)
  }

  /** The datagram written under key k carries k's wire number. */
  ghost predicate WellSent(c: C.ClientState, k: U32)
    requires k in c.log.stories
  {
    var t := c.log.stories[k];
    IsDataPacket(t.data, t.tier, t.stream, k % POW16)
  }

  ghost predicate AcceptedContent(v: Server, m: seq<Byte>)
    requires |m| >= HEADER_V2
  {
    exists a :: a in v.dedup.accepted && a.id == Parse(m).contentId
  }

  /** Some datagram with this content is past its duplicate check. */
  ghost predicate CheckedContent(v: Server, m: seq<Byte>)
    requires |m| >= HEADER_V2
  {
    exists x :: x in v.finished && |x| >= HEADER_V2 && Parse(x).contentId == Parse(m).contentId
  }

  function AcceptedIds(log: seq<D.Acceptance>): set<U32> {
    set a | a in log :: a.id
  }

  function ContentIds(ms: set<seq<Byte>>): set<U32> {
    set m | m in ms && |m| >= HEADER_V2 :: Parse(m).contentId
  }

  ghost predicate AllWellSent(c: C.ClientState) {
    forall k :: k in c.log.stories ==> WellSent(c, k)
  }

  /** Copies on the way to the server are of what was written under their key. */
  ghost predicate AllWritten(c: C.ClientState, network: set<Copy>) {
    forall x :: x in network ==> x.key in c.log.stories && c.log.stories[x.key].data == x.data
  }

  ghost predicate AckedHandled(c: C.ClientState, handled: set<seq<Byte>>) {
    forall k :: k in c.log.acked ==> k in c.log.stories && c.log.stories[k].data in handled
  }

  /** A reply is the ACK of the datagram written under its key, which was handled. */
  ghost predicate Caused(c: C.ClientState, handled: set<seq<Byte>>, a: Copy) {
    && a.key in c.log.stories
    && var m := c.log.stories[a.key].data;
       m in handled && |m| >= HEADER_V2 && a.data == AckFor(m)
  }

  ghost predicate AllCaused(c: C.ClientState, handled: set<seq<Byte>>, replies: set<Copy>) {
    forall a :: a in replies ==> Caused(c, handled, a)
  }

  ghost predicate Written(c: C.ClientState, m: seq<Byte>) {
    exists k :: k in c.log.stories && c.log.stories[k].data == m
  }

  ghost predicate HandledWritten(c: C.ClientState, handled: set<seq<Byte>>) {
    forall m :: m in handled ==> Written(c, m)
  }

  ghost predicate ClientSide(s: System) {
    && C.Books(s.client) && AllWellSent(s.client) && AllWritten(s.client, s.toServer)
    && AckedHandled(s.client, s.server.handled) && AllCaused(s.client, s.server.handled, s.toClient)
    && HandledWritten(s.client, s.server.handled)
  }

  /** Handled datagrams are being worked on or finished; the content IDs of the latter are those accepted. */
  ghost predicate Records(v: Server) {
    && (forall m :: m in v.handled <==> m in v.working || m in v.finished)
    && AcceptedIds(v.dedup.accepted) == ContentIds(v.finished)
    && D.Inv(v.dedup) && v.counters.accepted == |v.dedup.accepted|
    && AllRouted(v)
  }

  /** The datagram has this content ID and payload. */
  predicate Holds(m: seq<Byte>, d: Delivery) {
    |m| >= HEADER_V2 && Parse(m).contentId == d.id && m[14..] == d.payload
  }

  ghost predicate RoutedFrom(v: Server, d: Delivery) {
    exists m :: m in v.finished && Holds(m, d)
  }

  /** Whatever was passed on is the payload of a finished datagram. */
  ghost predicate AllRouted(v: Server) {
    forall d :: d in v.routed ==> RoutedFrom(v, d)
  }

  lemma FinishRouted(v: Server, m: seq<Byte>, now: nat)
    requires AllRouted(v) && |m| >= HEADER_V2 && !IsFragment(m)
    ensures AllRouted(Finished(v, m, now))
  {
    var w := Finished(v, m, now);
    forall d | d in w.routed
      ensures RoutedFrom(w, d)
    {
      if d in v.routed {
        var x :| x in v.finished && Holds(x, d);
        assert x in w.finished;
      } else {
        assert m in w.finished && Holds(m, d);
      }
    }
  }

  lemma SameRouted(v: Server, w: Server)
    requires AllRouted(v) && w.routed == v.routed && w.finished == v.finished
    ensures AllRouted(w)
  {
    forall d | d in w.routed
      ensures RoutedFrom(w, d)
    {
      assert RoutedFrom(v, d);
    }
  }

  ghost predicate PlainData(m: seq<Byte>) {
    Accepts(m) && Parse(m).kind == DATA && !IsFragment(m)
  }

  ghost predicate AllPlain(handled: set<seq<Byte>>) {
    forall m :: m in handled ==> PlainData(m)
  }

  ghost predicate ServerSide(v: Server, clock: nat) {
    && v.counters.invalid == 0 && v.counters.checksumFails == 0 && v.fragments == R.Shelf(map[], false)
    && Records(v) && AllPlain(v.handled) && v.dedup.clock == clock
  }

  ghost predicate Inv(s: System) {
    ClientSide(s) && ServerSide(s.server, s.client.clock)
  }

  /** What every client step leaves alone. */
  ghost predicate KeepsDatagrams(c: C.ClientState, d: C.ClientState) {
    forall k :: k in c.log.stories ==>
      && k in d.log.stories
      && d.log.stories[k].data == c.log.stories[k].data
      && d.log.stories[k].stream == c.log.stories[k].stream
      && d.log.stories[k].tier == c.log.stories[k].tier
  }

  lemma ClientKeeps(c: C.ClientState, e: C.Event)
    requires C.Books(c) && C.Enabled(c, e) && !e.Write?
    ensures KeepsDatagrams(c, C.Apply(c, e))
    ensures C.Apply(c, e).log.stories.Keys == c.log.stories.Keys
    ensures !e.Ack? ==> C.Apply(c, e).log.acked == c.log.acked
    ensures !e.Advance? ==> C.Apply(c, e).clock == c.clock
  {
    match e
    case Tick(now, chosen) => TickKeeps(c, now, chosen);
    case Nack(_, _, key) => NackKeeps(c, key);
    case _ =>
  }

  lemma TickKeeps(c: C.ClientState, now: nat, chosen: set<U32>)
    ensures var d := C.AfterTick(c, now, chosen);
            && KeepsDatagrams(c, d) && d.log.stories.Keys == c.log.stories.Keys
            && d.log.acked == c.log.acked && d.clock == c.clock
  {
  }

  lemma NackKeeps(c: C.ClientState, key: U32)
    requires key in c.inflight
    ensures var d := C.AfterNack(c, key);
            && KeepsDatagrams(c, d) && d.log.stories.Keys == c.log.stories.Keys
            && d.log.acked == c.log.acked && d.clock == c.clock
  {
  }

  lemma FreshKey(c: C.ClientState)
    requires C.Books(c) && c.log.transmits + 1 < POW32
    ensures C.NextKey(c) !in c.log.stories
  {
    assert C.NextKey(c) == c.log.transmits + 1;
    assert C.Placed(c, C.NextKey(c));
  }

  lemma WriteKeeps(c: C.ClientState, data: seq<Byte>, tier: Byte, stream: U16, ok: bool)
    requires C.NextKey(c) !in c.log.stories
    ensures var d, k := C.AfterWrite(c, data, tier, stream, ok), C.NextKey(c);
            && KeepsDatagrams(c, d) && d.log.acked == c.log.acked && d.clock == c.clock
            && (ok ==> d.log.stories == c.log.stories[k := C.Story(data, stream, tier, c.clock, c.clock, 1, 0)])
            && (!ok ==> d.log.stories == c.log.stories)
  {
  }

  /** So what the invariant says about written datagrams stays true. */
  lemma StillTold(c: C.ClientState, d: C.ClientState, s: System)
    requires KeepsDatagrams(c, d) && AllWritten(c, s.toServer) && AllCaused(c, s.server.handled, s.toClient)
    requires HandledWritten(c, s.server.handled)
    ensures AllWritten(d, s.toServer) && AllCaused(d, s.server.handled, s.toClient)
    ensures HandledWritten(d, s.server.handled)
  {
    StillWritten(c, d, s.server.handled);
    forall a | a in s.toClient
      ensures Caused(d, s.server.handled, a)
    {
      assert Caused(c, s.server.handled, a);
    }
  }

  lemma StillWritten(c: C.ClientState, d: C.ClientState, handled: set<seq<Byte>>)
    requires KeepsDatagrams(c, d) && HandledWritten(c, handled)
    ensures HandledWritten(d, handled)
  {
    forall m | m in handled
      ensures Written(d, m)
    {
      assert Written(c, m);
      var k :| k in c.log.stories && c.log.stories[k].data == m;
      assert k in d.log.stories && d.log.stories[k].data == m;
    }
  }

  lemma StillAcked(c: C.ClientState, d: C.ClientState, handled: set<seq<Byte>>)
    requires AckedHandled(c, handled) && KeepsDatagrams(c, d) && d.log.acked == c.log.acked
    ensures AckedHandled(d, handled)
  {
  }

  lemma StillWellSent(c: C.ClientState, d: C.ClientState)
    requires KeepsDatagrams(c, d) && d.log.stories.Keys == c.log.stories.Keys && AllWellSent(c)
    ensures AllWellSent(d)
  {
    forall k | k in d.log.stories
      ensures WellSent(d, k)
    {
      assert WellSent(c, k);
    }
  }

  // ---- client steps ----

  lemma WriteWellSent(c: C.ClientState, m: seq<Byte>, tier: Byte, stream: U16, ok: bool)
    requires C.Books(c) && c.log.transmits + 1 < POW32 && AllWellSent(c)
    requires IsDataPacket(m, tier, stream, C.NextKey(c) % POW16)
    ensures AllWellSent(C.AfterWrite(c, m, tier, stream, ok))
  {
    var d := C.AfterWrite(c, m, tier, stream, ok);
    FreshKey(c);
    WriteKeeps(c, m, tier, stream, ok);
    forall k | k in d.log.stories
      ensures WellSent(d, k)
    {
      if k in c.log.stories {
        assert WellSent(c, k);
      }
    }
  }

  lemma SendKeeps(s: System, e: Event)
    requires Inv(s) && e.Send? && Enabled(s, e) && s.client.log.transmits + 1 < POW32
    ensures Inv(AfterSend(s, e))
  {
    var c, m := s.client, Outgoing(s.client, e);
    OutgoingParses(c, e);
    C.BooksWrite(c, m, e.tier, e.stream, e.ok);
    WriteWellSent(c, m, e.tier, e.stream, e.ok);
    WriteTold(s, m, e.tier, e.stream, e.ok);
  }

  lemma WriteTold(s: System, m: seq<Byte>, tier: Byte, stream: U16, ok: bool)
    requires C.Books(s.client) && s.client.log.transmits + 1 < POW32
    requires AllWritten(s.client, s.toServer) && AllCaused(s.client, s.server.handled, s.toClient)
    requires AckedHandled(s.client, s.server.handled) && HandledWritten(s.client, s.server.handled)
    ensures var d := C.AfterWrite(s.client, m, tier, stream, ok);
            && AllWritten(d, if ok then s.toServer + {Copy(C.NextKey(s.client), m)} else s.toServer)
            && AllCaused(d, s.server.handled, s.toClient) && AckedHandled(d, s.server.handled)
            && HandledWritten(d, s.server.handled) && d.clock == s.client.clock
  {
    var d := C.AfterWrite(s.client, m, tier, stream, ok);
    FreshKey(s.client);
    WriteKeeps(s.client, m, tier, stream, ok);
    StillTold(s.client, d, s);
    StillAcked(s.client, d, s.server.handled);
  }

  lemma OutgoingParses(c: C.ClientState, e: Event)
    requires e.Send? && HEADER_V2 + |e.payload| <= MAX_DATAGRAM && (e.flags == 0 || e.flags == FLAG_PROTOBUF)
    ensures IsDataPacket(Outgoing(c, e), e.tier, e.stream, C.NextKey(c) % POW16)
  {
    EncodeThenParse(Header(DATA, e.tier, e.flags, C.NextKey(c) % POW16, e.stream, e.contentId), e.payload);
  }

  lemma LocalKeeps(s: System, e: C.Event)
    requires Inv(s) && C.Enabled(s.client, e) && (e.Insert? || e.Count? || e.Tick?) && s.client.log.transmits < POW32
    ensures Inv(AfterLocal(s, e))
  {
    C.BooksStep(s.client, e);
    LocalTold(s, e);
  }

  lemma LocalTold(s: System, e: C.Event)
    requires ClientSide(s) && C.Enabled(s.client, e) && (e.Insert? || e.Count? || e.Tick?)
    ensures var d := C.Apply(s.client, e);
            && AllWellSent(d) && AllWritten(d, AfterLocal(s, e).toServer)
            && AllCaused(d, s.server.handled, s.toClient) && AckedHandled(d, s.server.handled)
            && HandledWritten(d, s.server.handled) && d.clock == s.client.clock
  {
    var d := C.Apply(s.client, e);
    ClientKeeps(s.client, e);
    StillWellSent(s.client, d);
    StillTold(s.client, d, s);
    StillAcked(s.client, d, s.server.handled);
    if e.Tick? {
      ResentWasWritten(s.client, d, e.chosen);
    }
  }

  lemma ResentWasWritten(c: C.ClientState, d: C.ClientState, keys: set<U32>)
    requires C.Books(c) && KeepsDatagrams(c, d)
    ensures AllWritten(d, Resent(c, keys))
  {
    forall x | x in Resent(c, keys)
      ensures x.key in d.log.stories && d.log.stories[x.key].data == x.data
    {
      assert C.Placed(c, x.key);
    }
  }

  lemma AdvanceKeeps(s: System, to: nat)
    requires Inv(s) && s.client.clock <= to
    ensures Inv(AfterAdvance(s, to))
  {
    var c, d := s.client, s.client.(clock := to);
    C.BooksAdvance(c, to);
    StillWellSent(c, d);
    StillTold(c, d, s);
    StillAcked(c, d, s.server.handled);
    D.InvStep(s.server.dedup, D.Advance(to));
  }

  /** Fewer than 65536 sends apart. */
  predicate Near(j: U32, k: U32) {
    -POW16 < j - k < POW16
  }

  /**
    The heart of the matter: an ACK provoked by send j that hits some inflight entry hits
    j's own exactly when the two are fewer than 65536 sends apart.
   */
  lemma AckHitsItsOwn(s: System, a: Copy, e: C.Event)
    requires ClientSide(s) && a in s.toClient
    requires e.Ack? && C.Enabled(s.client, e) && C.Reacts(a.data, e)
    ensures e.key == a.key <==> Near(a.key, e.key)
  {
    assert Caused(s.client, s.server.handled, a);
    ReactionToAck(s.client.log.stories[a.key].data, e);
    assert WellSent(s.client, a.key);
    assert C.Placed(s.client, e.key);
    if Near(a.key, e.key) {
      SameResidue(a.key, e.key);
    }
  }

  lemma ReactionToAck(m: seq<Byte>, e: C.Event)
    requires |m| >= HEADER_V2 && C.Reacts(AckFor(m), e)
    ensures (e.Ack? || e.AckMiss?) && e.seqNo == Parse(m).seqNo && e.stream == Parse(m).stream
  {
    var h := Parse(m);
    EncodeThenParse(Header(ACK, 0, 0, h.seqNo, h.stream, h.contentId), []);
  }

  /** An ACK is harmless if the datagram of the entry it hits was handled. */
  lemma AckMoves(s: System, key: U32)
    requires Inv(s) && key in s.client.inflight
    requires key in s.client.log.stories && s.client.log.stories[key].data in s.server.handled
    ensures Inv(s.(client := C.AfterAck(s.client, key)))
  {
    var c, d := s.client, C.AfterAck(s.client, key);
    C.BooksAck(c, key);
    StillWellSent(c, d);
    StillTold(c, d, s);
    OneMoreAcked(c, key, s.server.handled);
  }

  lemma OneMoreAcked(c: C.ClientState, key: U32, handled: set<seq<Byte>>)
    requires AckedHandled(c, handled) && key in c.log.stories && c.log.stories[key].data in handled
    ensures AckedHandled(C.AfterAck(c, key), handled)
  {
  }

  /** An ACK that hits an entry was provoked by a send fewer than 65536 sends away from that entry's. */
  predicate Timely(e: Event) {
    e.ClientReceive? && e.e.Ack? ==> Near(e.copy.key, e.e.key)
  }

  lemma ClientReceiveKeeps(s: System, a: Copy, e: C.Event)
    requires Inv(s) && a in s.toClient && C.Reacts(a.data, e) && C.Enabled(s.client, e)
    requires e.Ack? ==> Near(a.key, e.key)
    ensures Inv(AfterLocal(s, e))
  {
    assert Caused(s.client, s.server.handled, a);
    ReactionToAck(s.client.log.stories[a.key].data, e);
    if e.Ack? {
      AckHitsItsOwn(s, a, e);
      AckMoves(s, e.key);
      assert AfterLocal(s, e) == s.(client := C.AfterAck(s.client, e.key));
    } else {
      assert AfterLocal(s, e) == s;
    }
  }

  /**
    And it does hit it: once a tracked datagram that is still inflight reaches the server,
    its ACK is on its way, and the client can only take it for that very entry.
   */
  lemma AckReleases(s: System, x: Copy, env: Env, e: C.Event)
    requires Inv(s) && x in s.toServer && env.allowed && x.key in s.client.inflight
    requires forall k :: k in s.client.inflight ==> Near(k, x.key)
    requires C.Reacts(AckFor(x.data), e) && C.Enabled(s.client, e)
    ensures Copy(x.key, AckFor(x.data)) in AfterReceive(s, x, env).toClient
    ensures e.Ack? && e.key == x.key
  {
    assert WellSent(s.client, x.key);
    assert C.Placed(s.client, x.key);
    OneReply(x.data, env);
    OnlyThatEntry(s.client, x.key, x.data, e);
  }

  lemma OneReply(m: seq<Byte>, env: Env)
    requires Accepts(m) && Parse(m).kind == 1 && Parse(m).tier != 2 && env.allowed
    ensures Replies(m, env) == [AckFor(m)] && AckFor(m) in Replies(m, env)
  {
  }

  lemma OnlyThatEntry(c: C.ClientState, k: U32, m: seq<Byte>, e: C.Event)
    requires C.Books(c) && k in c.inflight && k in c.log.stories && c.log.stories[k].data == m && WellSent(c, k)
    requires forall j :: j in c.inflight ==> Near(j, k)
    requires C.Reacts(AckFor(m), e) && C.Enabled(c, e)
    ensures e.Ack? && e.key == k
  {
    ReactionToAck(m, e);
    EntryMatches(c, k);
    if e.Ack? {
      EntryMatches(c, e.key);
      SameResidue(e.key, k);
    }
  }

  lemma EntryMatches(c: C.ClientState, k: U32)
    requires C.Books(c) && k in c.inflight
    ensures k in c.log.stories && c.inflight[k].Matches(k % POW16, c.log.stories[k].stream)
  {
    assert C.Placed(c, k);
  }

  // ---- server steps ----

  lemma ServerReceiveKeeps(s: System, x: Copy, env: Env)
    requires Inv(s) && x in s.toServer
    ensures Inv(AfterReceive(s, x, env))
  {
    assert WellSent(s.client, x.key);
    if env.allowed {
      HandleKeeps(s, x, env);
    } else {
      assert AfterReceive(s, x, env).toClient == s.toClient;
    }
  }

  /** A data packet enters `handleData`. */
  lemma HandleKeeps(s: System, x: Copy, env: Env)
    requires Inv(s) && x in s.toServer && PlainData(x.data) && env.allowed
    ensures Inv(AfterReceive(s, x, env))
  {
    var v, w := s.server, AfterReceive(s, x, env).server;
    HandleFrame(v, x.data, env);
    HandleRecords(v, w, x.data);
    HandleTold(s, x, env, w.handled);
  }

  lemma HandleFrame(v: Server, m: seq<Byte>, env: Env)
    requires Accepts(m) && Parse(m).kind == DATA && env.allowed
    ensures var w := Received(v, m, env);
            && w.handled == v.handled + {m} && w.working == v.working + multiset{m} && w.finished == v.finished
            && w.dedup == v.dedup && w.fragments == v.fragments && w.routed == v.routed
            && w.counters == v.counters.(acksSent := w.counters.acksSent)
  {
  }

  lemma HandleRecords(v: Server, w: Server, m: seq<Byte>)
    requires Records(v)
    requires w.handled == v.handled + {m} && w.working == v.working + multiset{m} && w.finished == v.finished
    requires w.dedup == v.dedup && w.counters.accepted == v.counters.accepted && w.routed == v.routed
    ensures Records(w)
  {
    SameRouted(v, w);
  }

  lemma HandleTold(s: System, x: Copy, env: Env, handled: set<seq<Byte>>)
    requires ClientSide(s) && x in s.toServer && PlainData(x.data) && handled == s.server.handled + {x.data}
    ensures AckedHandled(s.client, handled) && AllCaused(s.client, handled, AfterReceive(s, x, env).toClient)
    ensures HandledWritten(s.client, handled)
  {
    DataReplies(x.data, env);
    assert Written(s.client, x.data) by {
      assert s.client.log.stories[x.key].data == x.data;
    }
    forall a | a in AfterReceive(s, x, env).toClient
      ensures Caused(s.client, handled, a)
    {
      if a in s.toClient {
        assert Caused(s.client, s.server.handled, a);
      }
    }
  }

  lemma DataReplies(m: seq<Byte>, env: Env)
    requires Accepts(m) && Parse(m).kind == DATA
    ensures forall a :: a in Replies(m, env) ==> a == AckFor(m)
  {
  }

  /** Without the fragment flag the second stage is just the duplicate check. */
  lemma FinishPlain(v: Server, m: seq<Byte>, now: nat)
    requires |m| >= HEADER_V2 && !IsFragment(m)
    ensures var w := Finished(v, m, now);
            && w.dedup == D.AfterArrive(v.dedup, Parse(m).contentId)
            && w.working == v.working - multiset{m} && w.finished == v.finished + {m}
            && w.handled == v.handled && w.fragments == v.fragments
            && w.counters == v.counters.(duped := w.counters.duped, accepted := w.counters.accepted)
            && w.counters.accepted - v.counters.accepted == |w.dedup.accepted| - |v.dedup.accepted|
  {
  }

  /** A duplicate check leaves its content ID on record, and adds no other. */
  lemma ArriveAccepts(d: D.State, id: U32)
    requires D.Inv(d)
    ensures AcceptedIds(D.AfterArrive(d, id).accepted) == AcceptedIds(d.accepted) + {id}
  {
    if id in d.seen {
      assert D.Acceptance(id, d.seen[id]) in d.accepted;
    } else {
      var a := D.Acceptance(id, d.clock);
      forall x | x in AcceptedIds(d.accepted) + {id}
        ensures x in AcceptedIds(d.accepted + [a])
      {
        assert a in d.accepted + [a];
        if x in AcceptedIds(d.accepted) {
          var b :| b in d.accepted && b.id == x;
          assert b in d.accepted + [a];
        }
      }
    }
  }

  lemma OneMoreId(ms: set<seq<Byte>>, m: seq<Byte>)
    requires |m| >= HEADER_V2
    ensures ContentIds(ms + {m}) == ContentIds(ms) + {Parse(m).contentId}
  {
  }

  lemma FinishRecords(v: Server, m: seq<Byte>, now: nat)
    requires Records(v) && m in v.working && |m| >= HEADER_V2 && !IsFragment(m)
    ensures Records(Finished(v, m, now))
  {
    FinishPlain(v, m, now);
    D.InvStep(v.dedup, D.Arrive(Parse(m).contentId));
    ArriveAccepts(v.dedup, Parse(m).contentId);
    FinishRouted(v, m, now);
    OneMoreId(v.finished, m);
  }

  lemma ServerFinishKeeps(s: System, m: seq<Byte>)
    requires Inv(s) && m in s.server.working && |m| >= HEADER_V2
    ensures Inv(AfterFinish(s, m))
  {
    assert PlainData(m);
    FinishPlain(s.server, m, s.client.clock);
    FinishRecords(s.server, m, s.client.clock);
  }

  lemma CollectKeeps(s: System, readAt: nat)
    requires Inv(s) && readAt <= s.client.clock
    ensures Inv(AfterCollect(s, readAt))
  {
    D.InvStep(s.server.dedup, D.Collect(readAt));
  }

  // ---- every run ----

  function Sends(e: Event): nat {
    if e.Send? then 1 else 0
  }

  lemma CountsSends(s: System, e: Event)
    requires Enabled(s, e)
    ensures Apply(s, e).client.log.transmits == s.client.log.transmits + Sends(e)
  {
  }

  lemma InvStep(s: System, e: Event)
    requires Inv(s) && Enabled(s, e) && Timely(e) && s.client.log.transmits + Sends(e) < POW32
    ensures Inv(Apply(s, e))
  {
    match e
    case Send(_, _, _, _, _, _) => SendKeeps(s, e);
    case Local(c) => LocalKeeps(s, c);
    case ClientReceive(a, c) => ClientReceiveKeeps(s, a, c);
    case ServerReceive(x, env) => ServerReceiveKeeps(s, x, env);
    case ServerFinish(m) => ServerFinishKeeps(s, m);
    case Collect(readAt) => CollectKeeps(s, readAt);
    case Advance(to) => AdvanceKeeps(s, to);
  }

  lemma {:induction false} TransmitsGrow(s: System, es: seq<Event>)
    requires IsRun(s, es)
    ensures s.client.log.transmits <= End(s, es).client.log.transmits
    ensures es != [] ==> s.client.log.transmits + Sends(es[0]) <= End(s, es).client.log.transmits
    decreases |es|
  {
    if es != [] {
      CountsSends(s, es[0]);
      TransmitsGrow(Apply(s, es[0]), es[1..]);
    }
  }

  predicate TimelyRun(es: seq<Event>) {
    forall e :: e in es ==> Timely(e)
  }

  lemma {:induction false} InvRun(s: System, es: seq<Event>)
    requires Inv(s) && IsRun(s, es) && TimelyRun(es) && End(s, es).client.log.transmits < POW32
    ensures Inv(End(s, es))
    decreases |es|
  {
    if es != [] {
      TransmitsGrow(s, es);
      InvStep(s, es[0]);
      InvRun(Apply(s, es[0]), es[1..]);
    }
  }

  /** What soundness means in a state. */
  ghost predicate Sound(s: System) {
    && s.client.acked + |s.client.uncounted| == |s.client.log.acked|
    && (forall k :: k in s.client.log.acked ==> SoundAck(s, k))
    && D.FarApart(s.server.dedup.accepted)
    && s.server.counters.invalid == 0 && s.server.counters.checksumFails == 0
    && s.server.counters.accepted == |s.server.dedup.accepted|
    && (forall d :: d in s.server.routed ==> SoundDelivery(s, d))
  }

  /** What the server passed on is the payload the client wrote under that content ID. */
  ghost predicate SoundDelivery(s: System, d: Delivery) {
    exists k :: k in s.client.log.stories && Holds(s.client.log.stories[k].data, d)
  }

  /**
    The datagram acknowledged was handled; its handling is under way or finished; and its
    content has been accepted exactly when some datagram with that content is past its
    duplicate check, so always once its own handling is finished.
   */
  ghost predicate SoundAck(s: System, k: U32) {
    && k in s.client.log.stories
    && var m := s.client.log.stories[k].data;
       && m in s.server.handled && |m| >= HEADER_V2
       && (m in s.server.working || m in s.server.finished)
       && (AcceptedContent(s.server, m) <==> CheckedContent(s.server, m))
  }

  lemma AcceptedIsChecked(v: Server, m: seq<Byte>)
    requires Records(v) && |m| >= HEADER_V2
    ensures AcceptedContent(v, m) <==> CheckedContent(v, m)
  {
    var id := Parse(m).contentId;
    assert id in AcceptedIds(v.dedup.accepted) <==> id in ContentIds(v.finished);
  }

  lemma InvIsSound(s: System)
    requires Inv(s)
    ensures Sound(s)
  {
    forall k | k in s.client.log.acked
      ensures SoundAck(s, k)
    {
      var m := s.client.log.stories[k].data;
      assert PlainData(m);
      AcceptedIsChecked(s.server, m);
    }
    forall d | d in s.server.routed
      ensures SoundDelivery(s, d)
    {
      DeliveryWasWritten(s, d);
    }
  }

  lemma DeliveryWasWritten(s: System, d: Delivery)
    requires Records(s.server) && HandledWritten(s.client, s.server.handled) && d in s.server.routed
    ensures SoundDelivery(s, d)
  {
    assert RoutedFrom(s.server, d);
    var m :| m in s.server.finished && Holds(m, d);
    assert Written(s.client, m);
    var k :| k in s.client.log.stories && s.client.log.stories[k].data == m;
    assert Holds(s.client.log.stories[k].data, d);
  }

  lemma TimelySoundness(cfg: C.Config, es: seq<Event>)
    requires IsRun(Init(cfg), es) && TimelyRun(es) && End(Init(cfg), es).client.log.transmits < POW32
    ensures Sound(End(Init(cfg), es))
  {
    InvRun(Init(cfg), es);
    InvIsSound(End(Init(cfg), es));
  }

  /** Send k is among the last 65536. */
  predicate Recent(c: C.ClientState, k: U32) {
    c.log.transmits - k < POW16
  }

  /**
    Two bounds, one on the network and one on the client: an ACK that arrives was provoked
    by one of the last 65536 sends, and what is inflight then was sent among them.
   */
  ghost predicate Windowed(s: System, e: Event) {
    e.ClientReceive? ==>
      Recent(s.client, e.copy.key) && forall k :: k in s.client.inflight ==> Recent(s.client, k)
  }

  ghost predicate WindowedRun(s: System, es: seq<Event>)
    requires IsRun(s, es)
    decreases |es|
  {
    es != [] ==> Windowed(s, es[0]) && WindowedRun(Apply(s, es[0]), es[1..])
  }

  lemma WindowedIsTimely(s: System, e: Event)
    requires Inv(s) && Enabled(s, e) && Windowed(s, e)
    ensures Timely(e)
  {
    if e.ClientReceive? && e.e.Ack? {
      assert Caused(s.client, s.server.handled, e.copy);
      BothRecent(s.client, e.copy.key, e.e.key);
    }
  }

  lemma BothRecent(c: C.ClientState, j: U32, k: U32)
    requires C.Books(c) && j in c.log.stories && k in c.inflight && Recent(c, j) && Recent(c, k)
    ensures Near(j, k)
  {
    assert C.Placed(c, j) && C.Placed(c, k);
  }

  lemma TimelyCons(es: seq<Event>)
    requires es != [] && Timely(es[0]) && TimelyRun(es[1..])
    ensures TimelyRun(es)
  {
    assert es == [es[0]] + es[1..];
  }

  lemma {:induction false} WindowedRunIsTimely(s: System, es: seq<Event>)
    requires Inv(s) && IsRun(s, es) && WindowedRun(s, es) && End(s, es).client.log.transmits < POW32
    ensures TimelyRun(es)
    decreases |es|
  {
    if es != [] {
      TransmitsGrow(s, es);
      WindowedIsTimely(s, es[0]);
      InvStep(s, es[0]);
      WindowedRunIsTimely(Apply(s, es[0]), es[1..]);
      TimelyCons(es);
    }
  }

  /**
    End-to-end ACK soundness for sessions of any length below 2^32 sends: as long as ACKs
    are delivered, and packets are acknowledged or given up, within 65536 sends.
   */
  lemma WindowedSoundness(cfg: C.Config, es: seq<Event>)
    requires IsRun(Init(cfg), es) && WindowedRun(Init(cfg), es) && End(Init(cfg), es).client.log.transmits < POW32
    ensures Sound(End(Init(cfg), es))
  {
    WindowedRunIsTimely(Init(cfg), es);
    TimelySoundness(cfg, es);
  }

  lemma FewSendsAreWindowed(s: System, e: Event)
    requires Inv(s) && Enabled(s, e) && s.client.log.transmits <= POW16
    ensures Windowed(s, e)
  {
    if e.ClientReceive? {
      assert Caused(s.client, s.server.handled, e.copy);
      AllRecent(s.client);
    }
  }

  lemma AllRecent(c: C.ClientState)
    requires C.Books(c) && c.log.transmits <= POW16
    ensures forall k :: k in c.log.stories || k in c.inflight ==> Recent(c, k)
  {
    forall k | k in c.log.stories || k in c.inflight
      ensures Recent(c, k)
    {
      assert C.Placed(c, k);
    }
  }

  lemma {:induction false} ShortRunIsWindowed(s: System, es: seq<Event>)
    requires Inv(s) && IsRun(s, es) && End(s, es).client.log.transmits <= POW16
    ensures WindowedRun(s, es)
    decreases |es|
  {
    if es != [] {
      TransmitsGrow(s, es);
      FewSendsAreWindowed(s, es[0]);
      WindowedIsTimely(s, es[0]);
      InvStep(s, es[0]);
      ShortRunIsWindowed(Apply(s, es[0]), es[1..]);
    }
  }

  /**
    So in every run with at most 65536 sends, each datagram the client has taken for
    acknowledged (and so each one it counts) was handled by the server, and its content
    accepted exactly when a datagram with that content is past its duplicate check. No
    genuine datagram is rejected as malformed.
   */
  lemma AckSoundness(cfg: C.Config, es: seq<Event>)
    requires IsRun(Init(cfg), es) && End(Init(cfg), es).client.log.transmits <= POW16
    ensures Sound(End(Init(cfg), es))
  {
    ShortRunIsWindowed(Init(cfg), es);
    WindowedSoundness(cfg, es);
  }
}

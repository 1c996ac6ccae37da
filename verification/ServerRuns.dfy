/** Every run of the server: what its counters mean, and where each data packet is. */
module ServerRuns {
  import opened Bytes
  import opened Packet
  import D = Dedup
  import R = Reassembly
  import opened ServerModel

  datatype Event =
    | Arrive(datagram: seq<Byte>, env: Env)
    | Finish(datagram: seq<Byte>)
    | Collect(readAt: nat)
    | Reap(readAt: nat)
    | Advance(to: nat)

  ghost predicate Enabled(v: Server, e: Event) {
    match e
    case Arrive(_, _) => true
    case Finish(m) => m in v.working && |m| >= HEADER_V2
    case Collect(readAt) => readAt <= v.dedup.clock
    case Reap(readAt) => readAt <= v.dedup.clock
    case Advance(to) => v.dedup.clock <= to
  }

  ghost function Apply(v: Server, e: Event): Server
    requires Enabled(v, e)
  {
    match e
    case Arrive(m, env) => Received(v, m, env)
    case Finish(m) => Finished(v, m, v.dedup.clock)
    case Collect(readAt) => v.(dedup := D.AfterCollect(v.dedup, readAt))
    case Reap(readAt) => v.(fragments := R.AfterReap(v.fragments, readAt))
    case Advance(to) => v.(dedup := v.dedup.(clock := to))
  }

  ghost predicate IsRun(es: seq<Event>)
    decreases |es|, 0
  {
    es == [] || var n := |es| - 1; IsRun(es[..n]) && Enabled(End(es[..n]), es[n])
  }

  /** The state after a run of a fresh server. */
  ghost function End(es: seq<Event>): Server
    requires IsRun(es)
    decreases |es|, 1
  {
    if es == [] then Fresh() else var n := |es| - 1; Apply(End(es[..n]), es[n])
  }

  // ---- arrivals by class ----

  /** What becomes of a datagram, by its length, version and type byte; `Quiet` are FINs, MTU probes and unknown types. */
  datatype Class = Malformed | Damaged | Refused | Greeting | Ping | Health | Payload | Quiet

  function ClassOf(m: seq<Byte>, env: Env): Class {
    if |m| < 14 || m[0] != 2 then Malformed
    else if !Accepts(m) then Damaged
    else if !env.allowed then Refused
    else KindOf(m[1])
  }

  function KindOf(kind: Byte): Class {
    match kind
    case 6 => Greeting
    case 5 => Ping
    case 10 => Health
    case 1 => Payload
    case _ => Quiet
  }

  function IsOf(e: Event, c: Class): nat {
    if e.Arrive? && ClassOf(e.datagram, e.env) == c then 1 else 0
  }

  function Count(es: seq<Event>, c: Class): nat {
    if es == [] then 0 else var n := |es| - 1; Count(es[..n], c) + IsOf(es[n], c)
  }

  function Arrivals(es: seq<Event>): nat {
    if es == [] then 0 else var n := |es| - 1; Arrivals(es[..n]) + if es[n].Arrive? then 1 else 0
  }

  /** Every other class has a counter. */
  predicate Counted(c: Class) {
    c != Payload && c != Quiet
  }

  function Counter(k: Counters, c: Class): nat
    requires Counted(c)
  {
    match c
    case Malformed => k.invalid
    case Damaged => k.checksumFails
    case Refused => k.disabled
    case Greeting => k.handshakes
    case Ping => k.keepalives
    case Health => k.metrics
  }

  lemma CounterStep(v: Server, e: Event, c: Class)
    requires Enabled(v, e) && Counted(c)
    ensures Counter(Apply(v, e).counters, c) == Counter(v.counters, c) + IsOf(e, c)
  {
    match e
    case Arrive(m, env) => CounterOfArrival(v, m, env, c);
    case Finish(m) => CounterOfFinish(v, m, v.dedup.clock, c);
    case _ =>
  }

  lemma CounterOfArrival(v: Server, m: seq<Byte>, env: Env, c: Class)
    requires Counted(c)
    ensures Counter(Received(v, m, env).counters, c) ==
            Counter(v.counters, c) + if ClassOf(m, env) == c then 1 else 0
  {
    if |m| >= 14 && m[0] == 2 && Accepts(m) && env.allowed {
      CounterOfKind(v.counters, Parse(m), c);
    }
  }

  lemma CounterOfKind(k: Counters, h: Header, c: Class)
    requires Counted(c)
    ensures Counter(ServerModel.Counted(k, h), c) == Counter(k, c) + if KindOf(h.kind) == c then 1 else 0
  {
  }

  lemma CounterOfFinish(v: Server, m: seq<Byte>, now: nat, c: Class)
    requires |m| >= HEADER_V2 && Counted(c)
    ensures Counter(Finished(v, m, now).counters, c) == Counter(v.counters, c)
  {
  }

  /** Each class counter is the number of arrivals of its class. */
  lemma {:induction false} CounterIsCount(es: seq<Event>, c: Class)
    requires IsRun(es) && Counted(c)
    ensures Counter(End(es).counters, c) == Count(es, c)
  {
    if es != [] {
      var n := |es| - 1;
      CounterIsCount(es[..n], c);
      CounterStep(End(es[..n]), es[n], c);
    }
  }

  function SixCounts(es: seq<Event>): nat {
    Count(es, Malformed) + Count(es, Damaged) + Count(es, Refused)
    + Count(es, Greeting) + Count(es, Ping) + Count(es, Health)
  }

  lemma {:induction false} ClassesPartition(es: seq<Event>)
    ensures Arrivals(es) == SixCounts(es) + Count(es, Payload) + Count(es, Quiet)
  {
    if es != [] {
      ClassesPartition(es[..|es| - 1]);
    }
  }

  function SixCounters(k: Counters): nat {
    k.invalid + k.checksumFails + k.disabled + k.handshakes + k.keepalives + k.metrics
  }

  lemma SixAgree(es: seq<Event>)
    requires IsRun(es)
    ensures SixCounters(End(es).counters) == SixCounts(es)
  {
    CounterIsCount(es, Malformed);
    CounterIsCount(es, Damaged);
    CounterIsCount(es, Refused);
    CounterIsCount(es, Greeting);
    CounterIsCount(es, Ping);
    CounterIsCount(es, Health);
  }

  /** Together with data and quiet packets, the class counters account for every arrival. */
  lemma EveryArrivalCounted(es: seq<Event>)
    requires IsRun(es)
    ensures Arrivals(es) == SixCounters(End(es).counters) + Count(es, Payload) + Count(es, Quiet)
  {
    ClassesPartition(es);
    SixAgree(es);
  }

  // ---- acknowledgements ----

  function AcksIn(rs: seq<seq<Byte>>): nat {
    if rs == [] then 0
    else
      var n := |rs| - 1;
      AcksIn(rs[..n]) + if |rs[n]| >= HEADER_V2 && Parse(rs[n]).kind == ACK then 1 else 0
  }

  function AcksReplied(es: seq<Event>): nat {
    if es == [] then 0
    else
      var n := |es| - 1;
      AcksReplied(es[..n]) + if es[n].Arrive? then AcksIn(Replies(es[n].datagram, es[n].env)) else 0
  }

  lemma AcksInOne(h: Header, payload: seq<Byte>)
    ensures AcksIn([Encode(h, payload)]) == if h.kind == ACK then 1 else 0
  {
    EncodeFields(h, payload);
    var rs := [Encode(h, payload)];
    assert rs[..0] == [];
  }

  lemma AcksInPing(env: Env)
    ensures AcksIn([Encode(Header(KEEPALIVE, 0, 0, 0, 0, 0), [])] + Pushed(env)) == 0
  {
    var ping := Encode(Header(KEEPALIVE, 0, 0, 0, 0, 0), []);
    AcksInOne(Header(KEEPALIVE, 0, 0, 0, 0, 0), []);
    if env.pending == [] {
      assert [ping] + Pushed(env) == [ping];
    } else {
      var push := Encode(Header(CONFIG, 0, 0, 0, 0, 0), env.pending[0]);
      EncodeFields(Header(CONFIG, 0, 0, 0, 0, 0), env.pending[0]);
      var rs := [ping] + Pushed(env);
      assert rs[..1] == [ping] && rs[1] == push;
    }
  }

  lemma AcksInReplies(m: seq<Byte>, env: Env)
    ensures AcksIn(Replies(m, env)) == if Accepts(m) && env.allowed && Acknowledged(Parse(m)) then 1 else 0
  {
    if Accepts(m) && env.allowed {
      var h := Parse(m);
      if h.kind == HANDSHAKE {
        AcksInOne(Header(HANDSHAKE, 0, 0, 0, 0, 0), env.greeting);
      } else if h.kind == KEEPALIVE {
        AcksInPing(env);
      } else if Acknowledged(h) {
        AcksInOne(Header(ACK, 0, 0, h.seqNo, h.stream, h.contentId), []);
      }
    }
  }

  /** A reply of this type, payload, number, stream and content ID. */
  predicate IsReply(a: seq<Byte>, kind: Byte, payload: seq<Byte>, seqNo: U16, stream: U16, contentId: U32) {
    |a| >= 14 && Parse(a) == Header(kind, 0, 0, seqNo, stream, contentId) && a[0] == 2 && a[14..] == payload
  }

  lemma EncodedReply(kind: Byte, payload: seq<Byte>, seqNo: U16, stream: U16, contentId: U32)
    ensures IsReply(Encode(Header(kind, 0, 0, seqNo, stream, contentId), payload), kind, payload, seqNo, stream, contentId)
  {
    EncodeFields(Header(kind, 0, 0, seqNo, stream, contentId), payload);
    LayoutV2(Header(kind, 0, 0, seqNo, stream, contentId), payload);
  }

  /** What the server answers, in the numbers of the wire format. */
  ghost predicate Answers(rs: seq<seq<Byte>>, h: Header, env: Env) {
    if h.kind == 9 || (h.kind == 1 && h.tier != 2) then |rs| == 1 && IsReply(rs[0], 2, [], h.seqNo, h.stream, h.contentId)
    else if h.kind == 6 then |rs| == 1 && IsReply(rs[0], 6, env.greeting, 0, 0, 0)
    else if h.kind == 5 then
      && |rs| == (if env.pending == [] then 1 else 2) && IsReply(rs[0], 5, [], 0, 0, 0)
      && (env.pending != [] ==> IsReply(rs[1], 11, env.pending[0], 0, 0, 0))
    else rs == []
  }

  /** MTU probes and data that is not best-effort are acknowledged under their own numbers; nothing else is. */
  lemma RepliesMeaning(m: seq<Byte>, env: Env)
    ensures if Accepts(m) && env.allowed then Answers(Replies(m, env), Parse(m), env) else Replies(m, env) == []
  {
    if Accepts(m) && env.allowed {
      var h := Parse(m);
      EncodedReply(2, [], h.seqNo, h.stream, h.contentId);
      EncodedReply(6, env.greeting, 0, 0, 0);
      EncodedReply(5, [], 0, 0, 0);
      if env.pending != [] {
        EncodedReply(11, env.pending[0], 0, 0, 0);
      }
    }
  }

  lemma AcksStep(v: Server, e: Event)
    requires Enabled(v, e)
    ensures Apply(v, e).counters.acksSent == v.counters.acksSent +
            if e.Arrive? && Accepts(e.datagram) && e.env.allowed && Acknowledged(Parse(e.datagram)) then 1 else 0
  {
  }

  /** `acksSent` is the number of ACK packets among all replies. */
  lemma {:induction false} AcksCounted(es: seq<Event>)
    requires IsRun(es)
    ensures End(es).counters.acksSent == AcksReplied(es)
  {
    if es != [] {
      var n := |es| - 1;
      AcksCounted(es[..n]);
      AcksStep(End(es[..n]), es[n]);
      if es[n].Arrive? {
        AcksInReplies(es[n].datagram, es[n].env);
      }
    }
  }

  // ---- data packets ----

  /** The call stored a fragment of an incomplete message and returned. */
  ghost predicate Shelved(v: Server, e: Event) {
    && e.Finish? && |e.datagram| >= HEADER_V2 && IsFragment(e.datagram)
    && R.AnswerTo(v.fragments, AsFragment(e.datagram, v.dedup.clock)) == R.Returns(R.Nil)
  }

  ghost function ShelvedCalls(es: seq<Event>): nat
    requires IsRun(es)
    decreases |es|
  {
    if es == [] then 0
    else var n := |es| - 1; ShelvedCalls(es[..n]) + if Shelved(End(es[..n]), es[n]) then 1 else 0
  }

  function Handled(v: Server): nat {
    |v.working| + v.counters.accepted + v.counters.duped
  }

  function Spare(v: Server): int {
    v.counters.accepted - |v.dedup.accepted|
  }

  /** One step moves at most one call between the four places. */
  lemma DataStep(v: Server, e: Event)
    requires Enabled(v, e)
    ensures Handled(Apply(v, e)) + (if Shelved(v, e) then 1 else 0) == Handled(v) + IsOf(e, Payload)
    ensures Spare(Apply(v, e)) == Spare(v)
  {
    match e
    case Arrive(m, env) => ArrivalData(v, m, env);
    case Finish(m) => FinishData(v, m);
    case _ =>
  }

  lemma ArrivalData(v: Server, m: seq<Byte>, env: Env)
    ensures Handled(Received(v, m, env)) == Handled(v) + if ClassOf(m, env) == Payload then 1 else 0
    ensures Spare(Received(v, m, env)) == Spare(v)
  {
  }

  lemma CheckedData(v: Server, id: U32, payload: seq<Byte>)
    ensures Handled(Checked(v, id, payload)) == Handled(v) + 1 && Spare(Checked(v, id, payload)) == Spare(v)
  {
  }

  lemma ReturnedData(v: Server, m: seq<Byte>)
    requires m in v.working
    ensures Handled(Returned(v, m)) == Handled(v) - 1 && Spare(Returned(v, m)) == Spare(v)
  {
  }

  lemma FinishData(v: Server, m: seq<Byte>)
    requires m in v.working && |m| >= HEADER_V2
    ensures var w := Finished(v, m, v.dedup.clock);
            Handled(w) + (if Shelved(v, Finish(m)) then 1 else 0) == Handled(v) && Spare(w) == Spare(v)
  {
    var id := Parse(m).contentId;
    if !IsFragment(m) {
      ReturnedData(v, m);
      CheckedData(Returned(v, m), id, m[HEADER_V2..]);
    } else {
      var f := AsFragment(m, v.dedup.clock);
      var w := v.(fragments := R.AfterFragment(v.fragments, f));
      ReturnedData(w, m);
      match R.AnswerTo(v.fragments, f)
      case Returns(Data(bytes)) => CheckedData(Returned(w, m), id, bytes);
      case _ =>
    }
  }

  /**
    Conservation of data packets: each one that was let in is still being worked on, was
    accepted, was found a duplicate, or was shelved as a fragment; and what was accepted
    is what the duplicate check remembers having accepted.
   */
  lemma {:induction false} DataConserved(es: seq<Event>)
    requires IsRun(es)
    ensures var v := End(es);
            && Count(es, Payload) == |v.working| + v.counters.accepted + v.counters.duped + ShelvedCalls(es)
            && v.counters.accepted == |v.dedup.accepted|
  {
    if es != [] {
      var n := |es| - 1;
      DataConserved(es[..n]);
      DataStep(End(es[..n]), es[n]);
    }
  }

  // ---- the session ----

  /** What an event does to the peer's session: data, handshakes, keepalives and metrics open it, FIN closes it. */
  datatype Mark = Opening | Closing | Neither

  function MarkOf(e: Event): Mark {
    if !e.Arrive? then Neither
    else if ClassOf(e.datagram, e.env) in {Greeting, Ping, Health, Payload} then Opening
    else if ClassOf(e.datagram, e.env) == Quiet && e.datagram[1] == 7 then Closing
    else Neither
  }

  function Marks(es: seq<Event>): seq<Mark> {
    if es == [] then [] else var n := |es| - 1; Marks(es[..n]) + [MarkOf(es[n])]
  }

  lemma SessionStep(v: Server, e: Event)
    requires Enabled(v, e)
    ensures Apply(v, e).session <==> MarkOf(e).Opening? || (v.session && !MarkOf(e).Closing?)
  {
  }

  ghost predicate OpenSince(ms: seq<Mark>, i: int) {
    0 <= i < |ms| && ms[i].Opening? && forall j :: i < j < |ms| ==> !ms[j].Closing?
  }

  /** Opened at some point and not closed since. */
  ghost predicate Open(ms: seq<Mark>) {
    exists i :: OpenSince(ms, i)
  }

  lemma OpenNext(ms: seq<Mark>, m: Mark)
    ensures Open(ms + [m]) <==> m.Opening? || (Open(ms) && !m.Closing?)
  {
    if m.Opening? {
      assert OpenSince(ms + [m], |ms|);
    } else {
      forall i
        ensures OpenSince(ms + [m], i) <==> OpenSince(ms, i) && !m.Closing?
      {
        SinceNext(ms, m, i);
      }
    }
  }

  lemma SinceNext(ms: seq<Mark>, m: Mark, i: int)
    requires !m.Opening?
    ensures OpenSince(ms + [m], i) <==> OpenSince(ms, i) && !m.Closing?
  {
    var more := ms + [m];
    assert more[|ms|] == m;
    if OpenSince(more, i) {
      forall j | i < j < |ms|
        ensures !ms[j].Closing?
      {
        assert more[j] == ms[j];
      }
    }
  }

  /** The peer has a session exactly when some packet opened it and no FIN closed it since. */
  lemma {:induction false} SessionIff(es: seq<Event>)
    requires IsRun(es)
    ensures End(es).session <==> Open(Marks(es))
  {
    if es != [] {
      var n := |es| - 1;
      SessionIff(es[..n]);
      SessionStep(End(es[..n]), es[n]);
      OpenNext(Marks(es[..n]), MarkOf(es[n]));
    }
  }
}

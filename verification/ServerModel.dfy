/**
  The server's handling of one peer's datagrams, in its two stages: checks, dispatch
  and replies first, then reassembly and duplicate detection.
 */
module ServerModel {
  import opened Bytes
  import opened Packet
  import D = Dedup
  import R = Reassembly

  const KEEPALIVE: Byte := 5
  const HANDSHAKE: Byte := 6
  const FIN: Byte := 7
  const MTU_PROBE: Byte := 9
  const METRICS: Byte := 10

  datatype Counters = Counters(
    invalid: nat, checksumFails: nat, disabled: nat,
    handshakes: nat, keepalives: nat, metrics: nat,
    acksSent: nat, duped: nat, accepted: nat)

  /** Accepted content on its way to the pipeline. */
  datatype Delivery = Delivery(id: U32, payload: seq<Byte>)

  datatype Server = Server(
    counters: Counters, session: bool, dedup: D.State, fragments: R.Shelf,
    routed: seq<Delivery>,         // what was passed on, in order
    handled: set<seq<Byte>>,       // history: datagrams that reached `handleData`
    working: multiset<seq<Byte>>,  // calls of it that have not returned
    finished: set<seq<Byte>>)      // datagrams for which some call has returned

  function Fresh(): Server {
    Server(Counters(0, 0, 0, 0, 0, 0, 0, 0, 0), false, D.Fresh(), R.Shelf(map[], false), [], {}, multiset{}, {})
  }

  /**
    What a step finds around it: the runtime ingest switch, the text of the handshake
    answer, and the configuration waiting for the peer, if any.
   */
  datatype Env = Env(allowed: bool, greeting: seq<Byte>, pending: seq<seq<Byte>>)

  function AckFor(m: seq<Byte>): seq<Byte>
    requires |m| >= HEADER_V2
  {
    var h := Parse(m);
    Encode(Header(ACK, 0, 0, h.seqNo, h.stream, h.contentId), [])
  }

  /** Data is acknowledged unless best-effort; MTU probes are acknowledged without being handled. */
  predicate Acknowledged(h: Header) {
    (h.kind == DATA && h.tier != BEST_EFFORT) || h.kind == MTU_PROBE
  }

  function Pushed(env: Env): seq<seq<Byte>> {
    if env.pending == [] then [] else [Encode(Header(CONFIG, 0, 0, 0, 0, 0), env.pending[0])]
  }

  function Replies(m: seq<Byte>, env: Env): seq<seq<Byte>> {
    if !Accepts(m) || !env.allowed then []
    else if Parse(m).kind == HANDSHAKE then [Encode(Header(HANDSHAKE, 0, 0, 0, 0, 0), env.greeting)]
    else if Parse(m).kind == KEEPALIVE then [Encode(Header(KEEPALIVE, 0, 0, 0, 0, 0), [])] + Pushed(env)
    else if Acknowledged(Parse(m)) then [AckFor(m)]
    else []
  }

  function Counted(c: Counters, h: Header): Counters {
    var d := if Acknowledged(h) then c.(acksSent := c.acksSent + 1) else c;
    if h.kind == HANDSHAKE then d.(handshakes := c.handshakes + 1)
    else if h.kind == KEEPALIVE then d.(keepalives := c.keepalives + 1)
    else if h.kind == METRICS then d.(metrics := c.metrics + 1)
    else d
  }

  /** Data, handshakes, keepalives and metrics open the peer's session, FIN closes it. */
  predicate InSession(before: bool, kind: Byte) {
    kind == DATA || kind == HANDSHAKE || kind == KEEPALIVE || kind == METRICS || (before && kind != FIN)
  }

  /** First stage. */
  function Received(v: Server, m: seq<Byte>, env: Env): Server {
    var c := v.counters;
    if |m| < HEADER_V2 || m[0] != V2 then v.(counters := c.(invalid := c.invalid + 1))
    else if !Accepts(m) then v.(counters := c.(checksumFails := c.checksumFails + 1))
    else if !env.allowed then v.(counters := c.(disabled := c.disabled + 1))
    else
      var h := Parse(m);
      var w := v.(counters := Counted(c, h), session := InSession(v.session, h.kind));
      if h.kind == DATA then w.(handled := v.handled + {m}, working := v.working + multiset{m}) else w
  }

  predicate IsFragment(m: seq<Byte>)
    requires |m| >= HEADER_V2
  {
    HasFlag(Parse(m).flags, FLAG_FRAGMENT)
  }

  function AsFragment(m: seq<Byte>, now: nat): R.Fragment
    requires |m| >= HEADER_V2
  {
    var h := Parse(m);
    R.Fragment(h.contentId, h.seqNo, HasFlag(h.flags, FLAG_LAST_FRAGMENT), m[HEADER_V2..], now)
  }

  /** The call never returns: the fragment hangs reassembly, or waits for one that did. */
  predicate Stuck(v: Server, m: seq<Byte>, now: nat)
    requires |m| >= HEADER_V2
  {
    IsFragment(m) && R.AnswerTo(v.fragments, AsFragment(m, now)).Never?
  }

  /** The duplicate check of this content ID; new content is passed on unless it is empty. */
  function Checked(v: Server, id: U32, payload: seq<Byte>): Server {
    var c := v.counters;
    if id in v.dedup.seen then v.(counters := c.(duped := c.duped + 1))
    else v.(counters := c.(accepted := c.accepted + 1), dedup := D.AfterArrive(v.dedup, id),
            routed := if payload == [] then v.routed else v.routed + [Delivery(id, payload)])
  }

  function Returned(v: Server, m: seq<Byte>): Server {
    v.(working := v.working - multiset{m}, finished := v.finished + {m})
  }

  /** Second stage: reassembly if the fragment flag is set, then the duplicate check. */
  function Finished(v: Server, m: seq<Byte>, now: nat): Server
    requires |m| >= HEADER_V2
  {
    var id := Parse(m).contentId;
    if !IsFragment(m) then Checked(Returned(v, m), id, m[HEADER_V2..])
    else
      var f := AsFragment(m, now);
      var w := v.(fragments := R.AfterFragment(v.fragments, f));
      match R.AnswerTo(v.fragments, f)
      case Never => w
      case Returns(Nil) => Returned(w, m)
      case Returns(Data(bytes)) => Checked(Returned(w, m), id, bytes)
  }
}

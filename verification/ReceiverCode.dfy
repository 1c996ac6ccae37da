/** The receiver as the code runs it, over its duplicate detector and its reassembler. */
module ReceiverCode {
  import opened Bytes
  import opened Packet
  import Checksum
  import D = Dedup
  import R = Reassembly
  import opened ServerModel

  class Receiver {
    const dedup: D.Deduper
    const frags: R.ServerReassembler
    var stats: Counters
    var session: bool
    var routed: seq<Delivery>  // the calls of `routeToQueue`
    ghost var handled: set<seq<Byte>>
    ghost var working: multiset<seq<Byte>>
    ghost var finished: set<seq<Byte>>

    ghost function Model(): Server
      reads this, dedup, frags
    {
      Server(stats, session, dedup.Model(), frags.Model(), routed, handled, working, finished)
    }

    constructor ()
      ensures fresh(dedup) && fresh(frags) && Model() == Fresh()
    {
      dedup := new D.Deduper();
      frags := new R.ServerReassembler();
      stats, session := Counters(0, 0, 0, 0, 0, 0, 0, 0, 0), false;
      routed, handled, working, finished := [], {}, multiset{}, {};
    }

    /** Length, version and checksum tests, the ingest switch, then dispatch on the packet type. */
    method Admit(m: seq<Byte>, env: Env) returns (data: bool, replies: seq<seq<Byte>>)
      modifies this
      ensures Model() == Received(old(Model()), m, env)
      ensures data <==> Accepts(m) && env.allowed && Parse(m).kind == DATA
      ensures replies == Replies(m, env)
    {
      data, replies := false, [];
      if |m| < HEADER_V2 || m[0] != V2 {
        stats := stats.(invalid := stats.invalid + 1);
        return;
      }
      var ok := Checksum.VerifyChecksum(m, 12);
      if !ok {
        stats := stats.(checksumFails := stats.checksumFails + 1);
        return;
      }
      if !env.allowed {
        stats := stats.(disabled := stats.disabled + 1);
        return;
      }
      data := Parse(m).kind == DATA;
      replies := Dispatch(m, env);
    }

    /** The switch on the packet type; the rest of `handleData` is `Process`. */
    method Dispatch(m: seq<Byte>, env: Env) returns (replies: seq<seq<Byte>>)
      requires Accepts(m) && env.allowed
      modifies this
      ensures Model() == Received(old(Model()), m, env)
      ensures replies == Replies(m, env)
    {
      if Parse(m).kind == DATA || Parse(m).kind == MTU_PROBE {
        replies := HandleAcknowledged(m, env);
      } else {
        replies := HandleControl(m, env);
      }
    }

    /** The start of `handleData`, and MTU probes. */
    method HandleAcknowledged(m: seq<Byte>, env: Env) returns (replies: seq<seq<Byte>>)
      requires Accepts(m) && env.allowed && (Parse(m).kind == DATA || Parse(m).kind == MTU_PROBE)
      modifies this
      ensures Model() == Received(old(Model()), m, env)
      ensures replies == Replies(m, env)
    {
      replies := [];
      var h := Parse(m);
      if h.kind == DATA {
        session := true;
        handled, working := handled + {m}, working + multiset{m};
      }
      if h.kind != DATA || h.tier != BEST_EFFORT {
        replies := SendACK(m);
      }
    }

    /** Handshakes, keepalives, metrics and FINs; unknown types are ignored. */
    method HandleControl(m: seq<Byte>, env: Env) returns (replies: seq<seq<Byte>>)
      requires Accepts(m) && env.allowed && Parse(m).kind != DATA && Parse(m).kind != MTU_PROBE
      modifies this
      ensures Model() == Received(old(Model()), m, env)
      ensures replies == Replies(m, env)
    {
      replies := [];
      var h := Parse(m);
      if h.kind == HANDSHAKE {
        stats := stats.(handshakes := stats.handshakes + 1);
        session := true;
        replies := [Encode(Header(HANDSHAKE, 0, 0, 0, 0, 0), env.greeting)];
      } else if h.kind == KEEPALIVE {
        stats := stats.(keepalives := stats.keepalives + 1);
        session := true;
        replies := [Encode(Header(KEEPALIVE, 0, 0, 0, 0, 0), [])] + Pushed(env);
      } else if h.kind == METRICS {
        stats := stats.(metrics := stats.metrics + 1);
        session := true;
      } else if h.kind == FIN {
        session := false;
      }
    }

    method SendACK(m: seq<Byte>) returns (replies: seq<seq<Byte>>)
      requires |m| >= HEADER_V2
      modifies this`stats
      ensures replies == [AckFor(m)] && stats == old(stats).(acksSent := old(stats).acksSent + 1)
    {
      replies := [AckFor(m)];
      stats := stats.(acksSent := stats.acksSent + 1);
    }

    /**
      The rest of `handleData`, after the ACK: does it return, and was the content
      accepted? `turns` is how long reassembly is followed.
     */
    method Process(m: seq<Byte>, now: nat, turns: nat) returns (returned: bool, isNew: bool)
      requires |m| >= HEADER_V2 && now == dedup.clock && turns >= POW16
      modifies this, dedup, frags
      ensures Model() == Finished(old(Model()), m, now)
      ensures returned <==> !Stuck(old(Model()), m, now)
      ensures isNew <==> stats.accepted == old(stats.accepted) + 1
    {
      returned, isNew := true, false;
      var payload := m[HEADER_V2..];
      if IsFragment(m) {
        var assembled := frags.AddFragment(AsFragment(m, now), turns);
        if assembled.Never? {
          returned := false;
          return;
        }
        Return(m);
        if assembled.slice.Nil? {
          return;
        }
        payload := assembled.slice.bytes;
      } else {
        Return(m);
      }
      isNew := CheckDuplicate(Parse(m).contentId, payload, now);
    }

    /** History only: this call of `handleData` comes to its end. */
    ghost method Return(m: seq<Byte>)
      modifies this`working, this`finished
      ensures working == old(working) - multiset{m} && finished == old(finished) + {m}
    {
      working, finished := working - multiset{m}, finished + {m};
    }

    method CheckDuplicate(id: U32, payload: seq<Byte>, now: nat) returns (isNew: bool)
      requires now == dedup.clock
      modifies this, dedup
      ensures Model() == Checked(old(Model()), id, payload)
      ensures isNew <==> stats.accepted == old(stats.accepted) + 1
    {
      var dup := dedup.IsDuplicate(id, now);
      isNew := !dup;
      if dup {
        stats := stats.(duped := stats.duped + 1);
        return;
      }
      stats := stats.(accepted := stats.accepted + 1);
      if payload != [] {
        routed := routed + [Delivery(id, payload)];
      }
    }

    method HandlePacketWithReply(m: seq<Byte>, env: Env, now: nat, turns: nat)
      returns (returned: bool, replies: seq<seq<Byte>>)
      requires now == dedup.clock && turns >= POW16
      modifies this, dedup, frags
      ensures var v := Received(old(Model()), m, env);
              if Accepts(m) && env.allowed && Parse(m).kind == DATA
              then Model() == Finished(v, m, now) && (returned <==> !Stuck(v, m, now))
              else Model() == v && returned
      ensures replies == Replies(m, env)
    {
      var data;
      returned := true;
      data, replies := Admit(m, env);
      if data {
        var isNew;
        returned, isNew := Process(m, now, turns);
      }
    }
  }
}

/**
  The client and the receiver as the code runs them, over a network that keeps a copy of
  everything: each call is a run of Session, so what holds of all its runs holds of the code.
 */
module Deployment {
  import opened Bytes
  import opened Packet
  import M = ClientModel
  import CC = ClientCode
  import opened ServerModel
  import RC = ReceiverCode
  import S = Session

  /** A run from the start that leads to s. */
  ghost predicate At(cfg: M.Config, es: seq<S.Event>, s: S.System) {
    S.IsRun(S.Init(cfg), es) && S.End(S.Init(cfg), es) == s
  }

  lemma Next(cfg: M.Config, es: seq<S.Event>, s: S.System, e: S.Event) returns (fs: seq<S.Event>)
    requires At(cfg, es, s) && S.Enabled(s, e)
    ensures At(cfg, fs, S.Apply(s, e))
  {
    S.RunSnoc(S.Init(cfg), es, e);
    fs := es + [e];
  }

  // ---- what one call amounts to ----

  ghost function AfterTransmit(s: S.System, e: S.Event): S.System
    requires e.Send?
  {
    var t, key := S.AfterSend(s, e), M.NextKey(s.client);
    if e.ok && e.tier != BEST_EFFORT then t.(client := M.AfterInsert(t.client, key)) else t
  }

  lemma TransmitRun(cfg: M.Config, es: seq<S.Event>, s: S.System, e: S.Event) returns (fs: seq<S.Event>)
    requires At(cfg, es, s) && e.Send? && S.Enabled(s, e)
    ensures At(cfg, fs, AfterTransmit(s, e))
  {
    fs := Next(cfg, es, s, e);
    if e.ok && e.tier != BEST_EFFORT {
      fs := Next(cfg, fs, S.AfterSend(s, e), S.Local(M.Insert(M.NextKey(s.client))));
    }
  }

  ghost function AfterHandling(s: S.System, x: S.Copy, env: Env): S.System {
    var t := S.AfterReceive(s, x, env);
    if Accepts(x.data) && env.allowed && Parse(x.data).kind == DATA then S.AfterFinish(t, x.data) else t
  }

  lemma HandlingRun(cfg: M.Config, es: seq<S.Event>, s: S.System, x: S.Copy, env: Env) returns (fs: seq<S.Event>)
    requires At(cfg, es, s) && x in s.toServer
    ensures At(cfg, fs, AfterHandling(s, x, env))
  {
    fs := Next(cfg, es, s, S.ServerReceive(x, env));
    if Accepts(x.data) && env.allowed && Parse(x.data).kind == DATA {
      fs := Next(cfg, fs, S.AfterReceive(s, x, env), S.ServerFinish(x.data));
    }
  }

  /** What `handlePacketWithReply` leaves of the server. */
  ghost function HandledServer(v: Server, m: seq<Byte>, env: Env, now: nat): Server {
    var w := Received(v, m, env);
    if Accepts(m) && env.allowed && Parse(m).kind == DATA then Finished(w, m, now) else w
  }

  ghost function Labelled(key: U32, replies: seq<seq<Byte>>): set<S.Copy> {
    set a | a in replies :: S.Copy(key, a)
  }

  lemma HandledIs(s: S.System, x: S.Copy, env: Env)
    ensures AfterHandling(s, x, env) ==
            s.(server := HandledServer(s.server, x.data, env, s.client.clock),
               toClient := s.toClient + Labelled(x.key, Replies(x.data, env)))
    ensures HandledServer(s.server, x.data, env, s.client.clock).dedup.clock == s.server.dedup.clock
  {
  }

  ghost function AfterReaction(s: S.System, e: M.Event): S.System
    requires M.Enabled(s.client, e)
  {
    var t := S.AfterLocal(s, e);
    if e.Ack? then t.(client := M.AfterCount(t.client, e.key)) else t
  }

  lemma ReactionRun(cfg: M.Config, es: seq<S.Event>, s: S.System, x: S.Copy, e: M.Event) returns (fs: seq<S.Event>)
    requires At(cfg, es, s) && x in s.toClient && M.Reacts(x.data, e) && M.Enabled(s.client, e)
    ensures At(cfg, fs, AfterReaction(s, e))
  {
    fs := Next(cfg, es, s, S.ClientReceive(x, e));
    if e.Ack? {
      fs := Next(cfg, fs, S.AfterLocal(s, e), S.Local(M.Count(e.key)));
    }
  }

  class Link {
    const client: CC.Client
    const receiver: RC.Receiver
    var now: nat
    ghost const cfg: M.Config
    ghost var up: set<S.Copy>    // datagrams that may reach the server
    ghost var down: set<S.Copy>  // and the client
    ghost var es: seq<S.Event>

    ghost function System(): S.System
      reads this, client, receiver, receiver.dedup, receiver.frags
    {
      S.System(client.State(), receiver.Model(), up, down)
    }

    /** The objects are where a run of the model leads. */
    ghost predicate Valid()
      reads this, client, receiver, receiver.dedup, receiver.frags
    {
      && client.clock == now && receiver.dedup.clock == now && client.lastTick <= now
      && At(cfg, es, System())
    }

    constructor (cfg: M.Config)
      ensures Valid() && fresh(client) && fresh(receiver) && fresh(receiver.dedup) && fresh(receiver.frags)
    {
      client := new CC.Client(cfg);
      receiver := new RC.Receiver();
      this.cfg := cfg;
      now, up, down, es := 0, {}, {}, [];
    }

    /** `transmitWithFlags`; what is written is on the network from then on. */
    method Send(payload: seq<Byte>, tier: Byte, stream: U16, flags: Byte, contentId: U32, ok: bool)
      returns (r: CC.SendResult, ghost sent: S.Copy)
      requires Valid() && (flags == 0 || flags == 0x40)
      modifies this`up, this`es, client
      ensures Valid()
      ensures r == CC.Sent ==> sent in up && M.NextKey(old(client.State())) == sent.key
      ensures r == CC.Sent && tier != BEST_EFFORT ==>
                sent.key in client.inflight
                && CC.Announces(sent.data, payload, tier, stream, flags, contentId, client.inflight[sent.key])
    {
      ghost var s := System();
      ghost var key := M.NextKey(client.State());
      sent := S.Copy(key, DataPacket(payload, tier, stream, flags, contentId, key));
      r := client.TransmitWithFlags(payload, tier, stream, flags, contentId, now, ok);
      if r != CC.TooLong {
        es := TransmitRun(cfg, es, s, S.Send(payload, tier, stream, flags, contentId, ok));
        up := if ok then up + {sent} else up;
      }
    }

    /** A datagram reaches the server, which handles it to the end. */
    method DeliverUp(data: seq<Byte>, ghost key: U32, env: Env) returns (replies: seq<seq<Byte>>)
      requires Valid() && S.Copy(key, data) in up
      modifies this`down, this`es, receiver, receiver.dedup, receiver.frags
      ensures Valid() && replies == Replies(data, env)
      ensures forall a :: a in replies ==> S.Copy(key, a) in down
    {
      ghost var s, x := System(), S.Copy(key, data);
      replies := Handle(data, env);
      es := HandlingRun(cfg, es, s, x, env);
      HandledIs(s, x, env);
      down := down + Labelled(key, replies);
    }

    /** The receiver's part of it. */
    method Handle(data: seq<Byte>, env: Env) returns (replies: seq<seq<Byte>>)
      requires receiver.dedup.clock == now
      modifies receiver, receiver.dedup, receiver.frags
      ensures receiver.Model() == HandledServer(old(receiver.Model()), data, env, now)
      ensures replies == Replies(data, env)
    {
      var returned;
      returned, replies := receiver.HandlePacketWithReply(data, env, now, POW16);
    }

    /** A datagram reaches the client's ACK loop. */
    method DeliverDown(data: seq<Byte>, ghost key: U32) returns (acts: bool)
      requires Valid() && S.Copy(key, data) in down
      modifies this`up, this`es, client
      ensures Valid()
    {
      ghost var s, x := System(), S.Copy(key, data);
      ghost var e;
      var wire;
      acts, e, wire := client.ReactTo(data, now);
      if acts {
        es := ReactionRun(cfg, es, s, x, e);
        up := if e.Nack? then up + S.Resent(s.client, {e.key}) else up;
      }
    }

    /** One tick of the retransmit loop. */
    method Tick() returns (wire: seq<seq<Byte>>)
      requires Valid()
      modifies this`up, this`es, client
      ensures Valid()
    {
      ghost var s := System();
      ghost var chosen, order;
      wire, chosen, order := client.RunRetransmitTick(now);
      es := Next(cfg, es, s, S.Local(M.Tick(now, chosen)));
      up := up + S.Resent(s.client, chosen);
    }

    method CollectGarbage()
      requires Valid()
      modifies this`es, receiver.dedup
      ensures Valid()
    {
      ghost var s := System();
      receiver.dedup.CollectGarbage(now);
      es := Next(cfg, es, s, S.Collect(now));
    }

    method PassTime(to: nat)
      requires Valid() && now <= to
      modifies this`now, this`es, client`clock, receiver.dedup`clock
      ensures Valid() && now == to
    {
      ghost var s := System();
      client.clock := to;
      receiver.dedup.clock := to;
      now := to;
      es := Next(cfg, es, s, S.Advance(to));
    }

    /** So the code is sound for as long as it has sent no more than 65536 datagrams. */
    lemma SoundCode()
      requires Valid() && client.log.transmits <= POW16
      ensures S.Sound(System())
    {
      S.AckSoundness(cfg, es);
    }
  }
}

/**
  Fragmented messages from the wire to the pipeline: packets in any order, with repeats,
  among any other traffic, through checks, reassembly and duplicate detection.
 */
module FragmentRuns {
  import opened Bytes
  import opened Sequences
  import opened Packet
  import R = Reassembly
  import opened ServerModel
  import opened ServerRuns

  /** Bit 0x10 of the flags, byte 3 of the packet. */
  predicate Flagged(m: seq<Byte>)
    requires |m| >= 14
  {
    m[3] / 16 % 2 == 1
  }

  /** Bit 0x20. */
  predicate LastFlagged(m: seq<Byte>)
    requires |m| >= 14
  {
    m[3] / 32 % 2 == 1
  }

  /** A packet that carries one part of the message; only the last part has bit 0x20, other bits are free. */
  predicate IsPart(m: seq<Byte>, id: U32, ps: seq<seq<Byte>>) {
    && |m| >= 14 && Flagged(m)
    && var h := Parse(m);
       && h.contentId == id && h.seqNo < |ps| && m[14..] == ps[h.seqNo]
       && (LastFlagged(m) <==> h.seqNo == |ps| - 1)
  }

  /** The packets a sender builds for a message are such packets, and the server lets them in. */
  lemma EncodedIsPart(ps: seq<seq<Byte>>, i: U16, tier: Byte, flags: Byte, stream: U16, id: U32)
    requires i < |ps| && 14 + |ps[i]| <= 65535
    requires flags / 16 % 2 == 1 && (flags / 32 % 2 == 1 <==> i == |ps| - 1)
    ensures var m := Encode(Header(1, tier, flags, i, stream, id), ps[i]);
            IsPart(m, id, ps) && Parse(m).seqNo == i && Accepts(m) && Parse(m).kind == DATA
  {
    EncodeThenParse(Header(1, tier, flags, i, stream, id), ps[i]);
    LayoutV2(Header(1, tier, flags, i, stream, id), ps[i]);
  }

  lemma FlagsAgree(m: seq<Byte>, now: nat)
    requires |m| >= 14
    ensures IsFragment(m) <==> Flagged(m)
    ensures AsFragment(m, now) == R.Fragment(Parse(m).contentId, Parse(m).seqNo, LastFlagged(m), m[14..], now)
  {
  }

  // ---- the shelf, step by step ----

  ghost predicate Gives(e: Event) {
    e.Finish? && |e.datagram| >= 14 && Flagged(e.datagram)
  }

  lemma ShelfStep(v: Server, e: Event)
    requires Enabled(v, e)
    ensures Apply(v, e).fragments ==
            if Gives(e) then R.AfterFragment(v.fragments, AsFragment(e.datagram, v.dedup.clock))
            else if e.Reap? then R.AfterReap(v.fragments, e.readAt)
            else v.fragments
  {
    match e
    case Finish(m) =>
      FlagsAgree(m, v.dedup.clock);
      FinishShelf(v, m, v.dedup.clock);
    case _ =>
  }

  lemma FinishShelf(v: Server, m: seq<Byte>, now: nat)
    requires |m| >= HEADER_V2
    ensures Finished(v, m, now).fragments ==
            if IsFragment(m) then R.AfterFragment(v.fragments, AsFragment(m, now)) else v.fragments
  {
  }

  /** A packet without bit 0x10 never touches the shelf. */
  lemma PlainKeepsShelf(v: Server, m: seq<Byte>, now: nat)
    requires |m| >= 14 && !Flagged(m)
    ensures Finished(v, m, now).fragments == v.fragments
  {
    FlagsAgree(m, now);
    FinishShelf(v, m, now);
  }

  // ---- how old a buffer is ----

  ghost predicate GivesPart(e: Event, id: U32) {
    Gives(e) && Parse(e.datagram).contentId == id
  }

  datatype Since = Never | Since(t: nat)

  predicate Stale(s: Since, now: nat) {
    s.Since? && now - s.t > 30_000_000_000
  }

  /** When the first fragment of this content ID came in, since its buffer was last completed or dropped. */
  ghost function FirstSince(es: seq<Event>, id: U32): Since
    requires IsRun(es)
    decreases |es|
  {
    if es == [] then Never
    else
      var n := |es| - 1;
      var before := FirstSince(es[..n], id);
      if GivesPart(es[n], id) then
        if id !in End(es).fragments.buffers then Never
        else if before.Never? then Since(End(es[..n]).dedup.clock) else before
      else if es[n].Reap? && Stale(before, es[n].readAt) then Never
      else before
  }

  ghost predicate AgeKnown(x: R.Shelf, id: U32, s: Since) {
    && (id in x.buffers <==> s.Since?)
    && (id in x.buffers ==> x.buffers[id].created == s.t)
  }

  lemma HeldBefore(es: seq<Event>)
    requires IsRun(es) && es != [] && !End(es).fragments.held
    ensures !End(es[..|es| - 1]).fragments.held
  {
    ShelfStep(End(es[..|es| - 1]), es[|es| - 1]);
  }

  /** In every run, a buffer is as old as its first fragment. */
  lemma {:induction false} CreatedIsFirst(es: seq<Event>, id: U32)
    requires IsRun(es) && !End(es).fragments.held
    ensures AgeKnown(End(es).fragments, id, FirstSince(es, id))
  {
    if es != [] {
      var n := |es| - 1;
      HeldBefore(es);
      CreatedIsFirst(es[..n], id);
      ShelfStep(End(es[..n]), es[n]);
      if Gives(es[n]) {
        FlagsAgree(es[n].datagram, End(es[..n]).dedup.clock);
      }
    }
  }

  /** So the reaper drops a buffer exactly when its first fragment is more than 30 s old. */
  lemma ReapedWhenStale(es: seq<Event>, readAt: nat, id: U32)
    requires IsRun(es) && !End(es).fragments.held && Enabled(End(es), Reap(readAt)) && id in End(es).fragments.buffers
    ensures id !in Apply(End(es), Reap(readAt)).fragments.buffers <==> Stale(FirstSince(es, id), readAt)
    ensures forall j :: j in Apply(End(es), Reap(readAt)).fragments.buffers ==>
              j in End(es).fragments.buffers
              && Apply(End(es), Reap(readAt)).fragments.buffers[j] == End(es).fragments.buffers[j]
  {
    CreatedIsFirst(es, id);
  }

  // ---- one message ----

  /** Every fragment packet of this content ID belongs to the message; all else is arbitrary. */
  ghost predicate Carries(es: seq<Event>, id: U32, ps: seq<seq<Byte>>) {
    forall e :: e in es && GivesPart(e, id) ==> IsPart(e.datagram, id, ps)
  }

  ghost predicate AllOf(arrived: set<int>, n: nat) {
    forall i :: 0 <= i < n ==> i in arrived
  }

  /** The parts since the message was last complete, or dropped by the reaper. */
  ghost function PartsSince(es: seq<Event>, id: U32, n: nat): set<int>
    requires IsRun(es)
    decreases |es|
  {
    if es == [] then {}
    else
      var k := |es| - 1;
      PartsNext(es[k], id, n, PartsSince(es[..k], id, n), FirstSince(es[..k], id))
  }

  ghost function PartsNext(e: Event, id: U32, n: nat, before: set<int>, since: Since): set<int> {
    if GivesPart(e, id) then
      var now := before + {Parse(e.datagram).seqNo as int};
      if AllOf(now, n) then {} else now
    else if e.Reap? && Stale(since, e.readAt) then {}
    else before
  }

  /** The buffer holds exactly these parts. */
  lemma {:induction false} HoldsSince(es: seq<Event>, id: U32, ps: seq<seq<Byte>>)
    requires IsRun(es) && Carries(es, id, ps) && 1 <= |ps| <= 65535 && !End(es).fragments.held
    ensures R.Holds(End(es).fragments.buffers, id, PartsSince(es, id, |ps|), ps)
  {
    if es != [] {
      var n := |es| - 1;
      assert es == es[..n] + [es[n]];
      HeldBefore(es);
      HoldsSince(es[..n], id, ps);
      CreatedIsFirst(es[..n], id);
      HoldsNext(End(es[..n]), es[n], id, ps, PartsSince(es[..n], id, |ps|), FirstSince(es[..n], id));
    }
  }

  lemma HoldsNext(v: Server, e: Event, id: U32, ps: seq<seq<Byte>>, before: set<int>, since: Since)
    requires Enabled(v, e) && !v.fragments.held && !Apply(v, e).fragments.held && 1 <= |ps| <= 65535
    requires R.Holds(v.fragments.buffers, id, before, ps) && AgeKnown(v.fragments, id, since)
    requires GivesPart(e, id) ==> IsPart(e.datagram, id, ps)
    ensures R.Holds(Apply(v, e).fragments.buffers, id, PartsNext(e, id, |ps|, before, since), ps)
  {
    ShelfStep(v, e);
    if GivesPart(e, id) {
      PartNext(v.fragments, e.datagram, v.dedup.clock, id, ps, before);
    } else if Gives(e) {
      OtherNext(v.fragments, e.datagram, v.dedup.clock, id, ps, before);
    }
  }

  lemma PartNext(x: R.Shelf, m: seq<Byte>, now: nat, id: U32, ps: seq<seq<Byte>>, before: set<int>)
    requires !x.held && IsPart(m, id, ps) && 1 <= |ps| <= 65535 && R.Holds(x.buffers, id, before, ps)
    ensures var f, all := AsFragment(m, now), before + {Parse(m).seqNo as int};
            && R.AnswerTo(x, f) == R.Returns(if AllOf(all, |ps|) then R.Appended(Flatten(ps)) else R.Nil)
            && var y := R.AfterFragment(x, f);
               !y.held && R.Holds(y.buffers, id, if AllOf(all, |ps|) then {} else all, ps)
  {
    FlagsAgree(m, now);
    R.OneFragment(x.buffers, AsFragment(m, now), before, ps);
    assert AllOf(before + {Parse(m).seqNo as int}, |ps|) <==> R.Complete(before + {Parse(m).seqNo}, |ps|);
  }

  lemma OtherNext(x: R.Shelf, m: seq<Byte>, now: nat, id: U32, ps: seq<seq<Byte>>, before: set<int>)
    requires |m| >= 14 && Parse(m).contentId != id && R.Holds(x.buffers, id, before, ps)
    requires !R.AfterFragment(x, AsFragment(m, now)).held
    ensures R.Holds(R.AfterFragment(x, AsFragment(m, now)).buffers, id, before, ps)
  {
  }

  /** The call ends with nothing but its part stored. */
  ghost predicate OnlyShelved(v: Server, w: Server, m: seq<Byte>) {
    w == v.(fragments := w.fragments, working := v.working - multiset{m}, finished := v.finished + {m})
  }

  /** The call ends with the whole message checked: passed on if it is new, dropped if it is a duplicate. */
  ghost predicate Delivered(v: Server, w: Server, m: seq<Byte>, id: U32, whole: seq<Byte>) {
    && id !in w.fragments.buffers && m in w.finished
    && if id in v.dedup.seen
       then w.counters.duped == v.counters.duped + 1 && w.counters.accepted == v.counters.accepted && w.routed == v.routed
       else w.counters.accepted == v.counters.accepted + 1 && w.counters.duped == v.counters.duped
            && w.routed == v.routed + [Delivery(id, whole)] && id in w.dedup.seen
  }

  /**
    In every run, reaps included, for every message of at most 65535 parts: a fragment
    packet of it is only shelved until it completes the parts since the last completion or
    reap; that packet, and
    no other, leads to the duplicate check, and what is passed on is exactly the
    concatenation of the parts (nothing, as if still waiting, if they are all empty).
   */
  lemma FragmentsDelivered(es: seq<Event>, m: seq<Byte>, id: U32, ps: seq<seq<Byte>>)
    requires IsRun(es) && Enabled(End(es), Finish(m)) && !End(es).fragments.held
    requires 1 <= |ps| <= 65535 && Carries(es, id, ps) && IsPart(m, id, ps)
    ensures var v, w := End(es), Apply(End(es), Finish(m));
            var now := PartsSince(es, id, |ps|) + {Parse(m).seqNo as int};
            && !w.fragments.held
            && if AllOf(now, |ps|) && Flatten(ps) != [] then Delivered(v, w, m, id, Flatten(ps)) else OnlyShelved(v, w, m)
  {
    var v := End(es);
    HoldsSince(es, id, ps);
    PartNext(v.fragments, m, v.dedup.clock, id, ps, PartsSince(es, id, |ps|));
    FinishedAs(v, m, v.dedup.clock);
  }

  /** What the answer means for the call. */
  lemma FinishedAs(v: Server, m: seq<Byte>, now: nat)
    requires |m| >= 14 && Flagged(m)
    ensures var w, f, id := Finished(v, m, now), AsFragment(m, now), Parse(m).contentId;
            && w.fragments == R.AfterFragment(v.fragments, f)
            && (R.AnswerTo(v.fragments, f) == R.Returns(R.Nil) ==> OnlyShelved(v, w, m))
            && forall bytes :: R.AnswerTo(v.fragments, f) == R.Returns(R.Data(bytes)) && bytes != [] ==>
                 id !in w.fragments.buffers ==> Delivered(v, w, m, id, bytes)
  {
    FlagsAgree(m, now);
  }
}

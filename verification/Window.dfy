/**
  The inflight window of bulk sends. Each sender polls until fewer than `cap` packets
  are inflight, then sends one datagram; between its last poll and its insertion others
  may do the same.
 */
module Window {
  import opened Bytes
  import opened ClientModel

  /** Where a sender is: past the window but not yet written, or written but not yet inserted. */
  datatype Stage = Admitted | Wrote(key: U32)

  datatype Paced = Paced(client: ClientState, cap: int, senders: set<nat>, busy: map<nat, Stage>)

  datatype Move =
    | Admit(who: nat)  // the poll that lets a sender through
    | Send(who: nat, data: seq<Byte>, tier: Byte, stream: U16, ok: bool)
    | Track(who: nat)
    | Other(e: Event)  // ACKs, NACKs, ticks and the clock

  function Start(cfg: Config, cap: int, senders: set<nat>): Paced {
    Paced(Fresh(cfg), cap, senders, map[])
  }

  /** A window of zero or less is switched off. */
  predicate Open(s: Paced) {
    s.cap <= 0 || |s.client.inflight| < s.cap
  }

  ghost predicate CanMove(s: Paced, m: Move) {
    match m
    case Admit(who) => who in s.senders && who !in s.busy && Open(s)
    case Send(who, _, _, _, _) => who in s.busy && s.busy[who].Admitted?
    case Track(who) => who in s.busy && s.busy[who].Wrote? && s.busy[who].key in s.client.written
    case Other(e) => !e.Write? && !e.Insert? && Enabled(s.client, e)
  }

  ghost function Moved(s: Paced, m: Move): Paced
    requires CanMove(s, m)
  {
    match m
    case Admit(who) => s.(busy := s.busy[who := Admitted])
    case Send(who, data, tier, stream, ok) =>
      s.(client := AfterWrite(s.client, data, tier, stream, ok),
         busy := if ok && tier != BEST_EFFORT then s.busy[who := Wrote(NextKey(s.client))] else s.busy - {who})
    case Track(who) =>
      s.(client := AfterInsert(s.client, s.busy[who].key), busy := s.busy - {who})
    case Other(e) => s.(client := Apply(s.client, e))
  }

  ghost predicate IsPacedRun(s: Paced, ms: seq<Move>)
    decreases |ms|
  {
    ms == [] || (CanMove(s, ms[0]) && IsPacedRun(Moved(s, ms[0]), ms[1..]))
  }

  ghost function PacedEnd(s: Paced, ms: seq<Move>): Paced
    requires IsPacedRun(s, ms)
    decreases |ms|
  {
    if ms == [] then s else PacedEnd(Moved(s, ms[0]), ms[1..])
  }

  // ---- the bound ----

  /** Packets inflight and senders on their way together stay within the window and the other senders. */
  ghost predicate Within(s: Paced) {
    s.busy.Keys <= s.senders && |s.client.inflight| + |s.busy| <= s.cap - 1 + |s.senders|
  }

  lemma OtherShrinks(c: ClientState, e: Event)
    requires Enabled(c, e) && !e.Write? && !e.Insert?
    ensures |Apply(c, e).inflight| <= |c.inflight|
  {
    SubsetSize(Apply(c, e).inflight.Keys, c.inflight.Keys);
  }

  lemma LessBusy(busy: map<nat, Stage>, who: nat)
    requires who in busy
    ensures |busy - {who}| == |busy| - 1
  {
    assert (busy - {who}).Keys == busy.Keys - {who};
  }

  lemma AdmitWithin(s: Paced, who: nat)
    requires s.cap > 0 && Within(s) && who in s.senders && who !in s.busy && Open(s)
    ensures Within(s.(busy := s.busy[who := Admitted]))
  {
    var busy := s.busy[who := Admitted];
    assert busy.Keys == s.busy.Keys + {who};
    SubsetSize(busy.Keys, s.senders);
  }

  lemma StepWithin(s: Paced, m: Move)
    requires s.cap > 0 && Within(s) && CanMove(s, m)
    ensures Within(Moved(s, m)) && Moved(s, m).cap == s.cap && Moved(s, m).senders == s.senders
  {
    match m
    case Admit(who) => AdmitWithin(s, who);
    case Send(who, _, _, _, _) =>
      LessBusy(s.busy, who);
      assert s.busy[who := Wrote(NextKey(s.client))].Keys == s.busy.Keys;
    case Track(who) =>
      LessBusy(s.busy, who);
      assert Moved(s, m).client.inflight.Keys == s.client.inflight.Keys + {s.busy[who].key};
    case Other(e) => OtherShrinks(s.client, e);
  }

  lemma {:induction false} RunWithin(s: Paced, ms: seq<Move>)
    requires s.cap > 0 && Within(s) && IsPacedRun(s, ms)
    ensures Within(PacedEnd(s, ms)) && PacedEnd(s, ms).senders == s.senders && PacedEnd(s, ms).cap == s.cap
    decreases |ms|
  {
    if ms != [] {
      StepWithin(s, ms[0]);
      RunWithin(Moved(s, ms[0]), ms[1..]);
    }
  }

  /**
    In every run of paced senders, however their sends, ACKs, NACKs and ticks interleave,
    at most cap - 1 + n packets are inflight, n being the number of senders: one sender
    alone never exceeds the cap.
   */
  lemma WindowHolds(cfg: Config, cap: int, senders: set<nat>, ms: seq<Move>)
    requires cap > 0 && IsPacedRun(Start(cfg, cap, senders), ms)
    ensures |PacedEnd(Start(cfg, cap, senders), ms).client.inflight| <= cap - 1 + |senders|
  {
    RunWithin(Start(cfg, cap, senders), ms);
  }

  // ---- and it is reached ----

  ghost predicate Leads(s: Paced, t: Paced) {
    exists ms :: IsPacedRun(s, ms) && PacedEnd(s, ms) == t
  }

  lemma {:induction false} Snoc(s: Paced, ms: seq<Move>, m: Move)
    requires IsPacedRun(s, ms) && CanMove(PacedEnd(s, ms), m)
    ensures IsPacedRun(s, ms + [m]) && PacedEnd(s, ms + [m]) == Moved(PacedEnd(s, ms), m)
    decreases |ms|
  {
    if ms == [] {
      assert ([] + [m])[1..] == [];
    } else {
      Snoc(Moved(s, ms[0]), ms[1..], m);
      assert (ms + [m])[1..] == ms[1..] + [m];
    }
  }

  lemma Step(o: Paced, s: Paced, m: Move)
    requires Leads(o, s) && CanMove(s, m)
    ensures Leads(o, Moved(s, m))
  {
    var ms :| IsPacedRun(o, ms) && PacedEnd(o, ms) == s;
    Snoc(o, ms, m);
  }

  /** n sends so far, all inflight; the senders of `on` have passed the window. */
  ghost predicate Loaded(s: Paced, n: nat, on: set<nat>) {
    Carrying(s.client, n, n) && s.busy == AllAdmitted(on)
  }

  function AllAdmitted(on: set<nat>): map<nat, Stage> {
    map w | w in on :: Admitted
  }

  ghost predicate SameSetup(s: Paced, t: Paced) {
    t.cap == s.cap && t.senders == s.senders
  }

  lemma OneAdmit(o: Paced, s: Paced, n: nat, on: set<nat>, who: nat) returns (t: Paced)
    requires Leads(o, s) && Loaded(s, n, on) && who in s.senders && who !in on && Open(s)
    ensures Leads(o, t) && SameSetup(s, t) && Loaded(t, n, on + {who})
  {
    t := Moved(s, Admit(who));
    Step(o, s, Admit(who));
  }

  lemma OneSend(o: Paced, s: Paced, n: nat, on: set<nat>, who: nat) returns (t: Paced)
    requires Leads(o, s) && Loaded(s, n, on) && who in on && n + 1 < POW32
    ensures Leads(o, t) && SameSetup(s, t) && Loaded(t, n + 1, on - {who})
  {
    var m := Send(who, [], GUARANTEED, 0, true);
    var u := Moved(s, m);
    Step(o, s, m);
    WriteNext(s.client, n);
    assert u.busy == s.busy[who := Wrote(n + 1)];
    t := Moved(u, Track(who));
    Step(o, u, Track(who));
    TrackNext(u.client, n);
    assert t.busy == AllAdmitted(on - {who});
  }

  /** The client's side of `Loaded`. */
  ghost predicate Carrying(c: ClientState, sent: nat, n: nat) {
    c.counter == sent && |c.inflight| == n && forall k :: k in c.inflight ==> k <= n
  }

  lemma WriteNext(c: ClientState, n: nat)
    requires Carrying(c, n, n) && n + 1 < POW32
    ensures NextKey(c) == n + 1
    ensures var d := AfterWrite(c, [], GUARANTEED, 0, true); Carrying(d, n + 1, n) && n + 1 in d.written
  {
  }

  lemma TrackNext(d: ClientState, n: nat)
    requires Carrying(d, n + 1, n) && n + 1 < POW32 && n + 1 in d.written
    ensures Carrying(AfterInsert(d, n + 1), n + 1, n + 1)
  {
    var e := AfterInsert(d, n + 1);
    assert e.inflight.Keys == d.inflight.Keys + {n + 1};
  }

  /** One sender fills the window up to n packets. */
  lemma {:induction false} Fill(o: Paced, who: nat, n: nat) returns (t: Paced)
    requires Leads(o, o) && Loaded(o, 0, {}) && who in o.senders && n < o.cap && n < POW32
    ensures Leads(o, t) && SameSetup(o, t) && Loaded(t, n, {})
    decreases n
  {
    t := o;
    if n > 0 {
      t := Fill(o, who, n - 1);
      t := OneAdmit(o, t, n - 1, {}, who);
      t := OneSend(o, t, n - 1, {} + {who}, who);
      assert {} + {who} - {who} == {};
    }
  }

  /** Then all of `group` pass the window before any of them sends. */
  lemma {:induction false} AdmitAll(o: Paced, s: Paced, n: nat, group: set<nat>) returns (t: Paced)
    requires Leads(o, s) && Loaded(s, n, {}) && group <= s.senders && n < s.cap
    ensures Leads(o, t) && SameSetup(s, t) && Loaded(t, n, group)
    decreases |group|
  {
    t := s;
    if group != {} {
      var who :| who in group;
      t := AdmitAll(o, s, n, group - {who});
      t := OneAdmit(o, t, n, group - {who}, who);
      assert group - {who} + {who} == group;
    }
  }

  lemma {:induction false} SendAll(o: Paced, s: Paced, n: nat, group: set<nat>) returns (t: Paced)
    requires Leads(o, s) && Loaded(s, n, group) && n + |group| < POW32
    ensures Leads(o, t) && SameSetup(s, t) && Loaded(t, n + |group|, {})
    decreases |group|
  {
    t := s;
    if group != {} {
      var who :| who in group;
      t := OneSend(o, s, n, group, who);
      t := SendAll(o, t, n + 1, group - {who});
    }
  }

  /** The bound is exact: for every cap and every number of senders some run reaches it. */
  lemma WindowIsReached(cfg: Config, cap: int, senders: set<nat>) returns (ms: seq<Move>)
    requires cap > 0 && senders != {} && cap - 1 + |senders| < POW32
    ensures IsPacedRun(Start(cfg, cap, senders), ms)
    ensures |PacedEnd(Start(cfg, cap, senders), ms).client.inflight| == cap - 1 + |senders|
  {
    var s := Start(cfg, cap, senders);
    var who :| who in senders;
    assert s.busy == AllAdmitted({});
    assert IsPacedRun(s, []) && PacedEnd(s, []) == s;
    var t := Fill(s, who, cap - 1);
    t := AdmitAll(s, t, cap - 1, senders);
    t := SendAll(s, t, cap - 1, senders);
    ms :| IsPacedRun(s, ms) && PacedEnd(s, ms) == t;
  }
}

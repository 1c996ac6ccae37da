/** Fragment reassembly: the server's `addFragment` and the collector's `AddAndMaybeAssemble`. */
module Reassembly {
  import opened Bytes
  import opened Sequences

  /** A Go byte slice as its callers see it: nil, or some bytes. */
  datatype Slice = Nil | Data(bytes: seq<Byte>)

  datatype Fragment = Fragment(contentId: U32, seqNo: U16, last: bool, payload: seq<Byte>, at: nat)

  /** Fragments of one content ID; `created` is when the first of them arrived. */
  datatype Buffer = Buffer(parts: map<U16, seq<Byte>>, lastSeq: U16, complete: bool, created: nat)

  function BufferFor(m: map<U32, Buffer>, f: Fragment): Buffer {
    if f.contentId in m then m[f.contentId] else Buffer(map[], 0, false, f.at)
  }

  /** The buffer once the fragment is stored. */
  function Stored(m: map<U32, Buffer>, f: Fragment): Buffer {
    var b := BufferFor(m, f);
    var c := b.(parts := b.parts[f.seqNo := f.payload]);
    if f.last then c.(lastSeq := f.seqNo, complete := true) else c
  }

  predicate Contiguous(b: Buffer) {
    forall i :: 0 <= i <= b.lastSeq ==> i in b.parts
  }

  predicate Full(b: Buffer) {
    b.complete && Contiguous(b)
  }

  /** Parts 0 .. n-1 in order. */
  function Joined(parts: map<U16, seq<Byte>>, n: nat): seq<Byte>
    requires n <= POW16 && forall i :: 0 <= i < n ==> i in parts
  {
    if n == 0 then [] else Joined(parts, n - 1) + parts[n - 1]
  }

  /** What a reap at time `now` keeps: the buffers no older than `maxAge`. */
  function Reaped(m: map<U32, Buffer>, now: nat, maxAge: nat): map<U32, Buffer> {
    map id | id in m && m[id].created >= now - maxAge :: m[id]
  }

  /** The reap loop of both reassemblers: delete what is too old, one entry at a time. */
  method DropOld(m: map<U32, Buffer>, now: nat, maxAge: nat) returns (kept: map<U32, Buffer>, dropped: nat)
    ensures kept == Reaped(m, now, maxAge) && dropped == |m| - |kept|
  {
    kept, dropped := m, 0;
    var rest := m.Keys;
    while rest != {}
      invariant rest <= m.Keys && dropped + |kept| == |m| && kept == KeptSoFar(m, rest, now, maxAge)
      decreases |rest|
    {
      var id :| id in rest;
      KeptNext(m, rest, now, maxAge, id);
      if m[id].created < now - maxAge {
        kept, dropped := kept - {id}, dropped + 1;
      }
      rest := rest - {id};
    }
  }

  /** What is left while the entries of `rest` have not been looked at. */
  ghost function KeptSoFar(m: map<U32, Buffer>, rest: set<U32>, now: nat, maxAge: nat): map<U32, Buffer> {
    map id | id in m && (id in rest || m[id].created >= now - maxAge) :: m[id]
  }

  lemma KeptNext(m: map<U32, Buffer>, rest: set<U32>, now: nat, maxAge: nat, id: U32)
    requires id in rest && rest <= m.Keys
    ensures var kept, less := KeptSoFar(m, rest, now, maxAge), KeptSoFar(m, rest - {id}, now, maxAge);
            if m[id].created < now - maxAge then less == kept - {id} && |less| == |kept| - 1 else less == kept
  {
    var kept := KeptSoFar(m, rest, now, maxAge);
    assert (kept - {id}).Keys == kept.Keys - {id};
  }

  // ---- the server ----

  /** 30 s in nanoseconds. */
  const STALE := 30_000_000_000

  /** The loop counter after n turns: a uint16, so it never passes 65535. */
  function Counter(n: nat): U16 {
    if n == 0 then 0 else (Counter(n - 1) + 1) % POW16
  }

  /** Turn n does not leave the presence loop: the guard holds and the part is there. */
  predicate Turns(b: Buffer, n: nat) {
    Counter(n) <= b.lastSeq && Counter(n) in b.parts
  }

  /** A full buffer whose last number is 65535. */
  predicate Hangs(m: map<U32, Buffer>, f: Fragment) {
    Full(Stored(m, f)) && Stored(m, f).lastSeq == 0xFFFF
  }

  lemma {:induction false} CounterWraps(n: nat)
    ensures Counter(n) == n % POW16
  {
    if n > 0 {
      CounterWraps(n - 1);
    }
  }

  lemma TurnIff(b: Buffer, n: nat)
    ensures Turns(b, n) <==> n % POW16 <= b.lastSeq && n % POW16 in b.parts
  {
    CounterWraps(n);
  }

  /** On exactly these the loop is entered and no turn ever leaves it. */
  lemma HangsIff(m: map<U32, Buffer>, f: Fragment)
    ensures Hangs(m, f) <==> Stored(m, f).complete && forall n: nat :: Turns(Stored(m, f), n)
  {
    var b := Stored(m, f);
    if Hangs(m, f) {
      forall n: nat
        ensures Turns(b, n)
      {
        TurnIff(b, n);
      }
    } else if Full(b) {
      TurnIff(b, b.lastSeq + 1);
    } else if b.complete {
      var i :| 0 <= i <= b.lastSeq && i !in b.parts;
      TurnIff(b, i);
    }
  }

  function ServerBuffers(m: map<U32, Buffer>, f: Fragment): map<U32, Buffer>
    requires !Hangs(m, f)
  {
    var b := Stored(m, f);
    if Full(b) then m - {f.contentId} else m[f.contentId := b]
  }

  /** Appending nothing to a nil slice leaves it nil. */
  function Appended(bytes: seq<Byte>): Slice {
    if bytes == [] then Nil else Data(bytes)
  }

  function ServerReturns(m: map<U32, Buffer>, f: Fragment): Slice
    requires !Hangs(m, f)
  {
    var b := Stored(m, f);
    if Full(b) then Appended(Joined(b.parts, b.lastSeq + 1)) else Nil
  }

  /** The fragment buffers; `held` says that a call that never ends holds their lock. */
  datatype Shelf = Shelf(buffers: map<U32, Buffer>, held: bool)

  datatype Answer = Returns(slice: Slice) | Never

  function AfterFragment(x: Shelf, f: Fragment): Shelf {
    if x.held then x
    else if Hangs(x.buffers, f) then Shelf(x.buffers[f.contentId := Stored(x.buffers, f)], true)
    else Shelf(ServerBuffers(x.buffers, f), false)
  }

  function AnswerTo(x: Shelf, f: Fragment): Answer {
    if x.held || Hangs(x.buffers, f) then Never else Returns(ServerReturns(x.buffers, f))
  }

  /** The reaper needs the lock too. */
  function AfterReap(x: Shelf, now: nat): Shelf {
    if x.held then x else Shelf(Reaped(x.buffers, now, STALE), false)
  }

  class ServerReassembler {
    var fragments: map<U32, Buffer>
    var reassembled: nat
    var held: bool

    function Model(): Shelf
      reads this
    {
      Shelf(fragments, held)
    }

    constructor ()
      ensures Model() == Shelf(map[], false) && reassembled == 0
    {
      fragments, reassembled, held := map[], 0, false;
    }

    /**
      `turns` is how long the presence loop is followed; any number from 65536 on
      gives the same answer, and `Never` means that it is still in the loop (or waits
      for the lock that such a call holds).
     */
    method AddFragment(f: Fragment, turns: nat) returns (r: Answer)
      requires turns >= POW16
      modifies this
      ensures Model() == AfterFragment(old(Model()), f)
      ensures r == AnswerTo(old(Model()), f)
      ensures reassembled == old(reassembled) + if r.Returns? && Full(Stored(old(fragments), f)) then 1 else 0
    {
      if held {
        return Never;
      }
      var b := BufferFor(fragments, f);
      b := b.(parts := b.parts[f.seqNo := f.payload]);
      if f.last {
        b := b.(lastSeq := f.seqNo, complete := true);
      }
      assert b == Stored(fragments, f);
      fragments := fragments[f.contentId := b];
      if !b.complete {
        return Returns(Nil);
      }
      var presence := CheckParts(b, turns);
      if presence != AllThere {
        held := presence == StillLooking;
        return if held then Never else Returns(Nil);
      }
      var assembled := Assemble(b);
      fragments := fragments - {f.contentId};
      reassembled := reassembled + 1;
      r := Returns(assembled);
    }

    method ReapStaleFragments(now: nat)
      modifies this
      ensures Model() == AfterReap(old(Model()), now) && reassembled == old(reassembled)
    {
      if !held {
        var dropped;
        fragments, dropped := DropOld(fragments, now, STALE);
      }
    }
  }

  datatype Presence = AllThere | Missing | StillLooking

  /** The presence loop, followed for `turns` turns. */
  method CheckParts(b: Buffer, turns: nat) returns (r: Presence)
    requires turns >= POW16
    ensures r == StillLooking <==> Contiguous(b) && b.lastSeq == 0xFFFF
    ensures r == AllThere <==> Contiguous(b) && b.lastSeq < 0xFFFF
  {
    var i: U16, n := 0, 0;
    while i <= b.lastSeq
      invariant i == n % POW16 && n <= turns
      invariant n <= b.lastSeq + 1 || (Contiguous(b) && b.lastSeq == 0xFFFF)
      invariant forall j :: 0 <= j < n && j <= b.lastSeq ==> j in b.parts
      decreases turns - n
    {
      if n == turns {
        return StillLooking;
      }
      if i !in b.parts {
        return Missing;
      }
      i, n := (i + 1) % POW16, n + 1;
    }
    r := AllThere;
  }

  /** The second loop: append the parts to a nil slice. */
  method Assemble(b: Buffer) returns (assembled: Slice)
    requires Contiguous(b) && b.lastSeq < 0xFFFF
    ensures assembled == Appended(Joined(b.parts, b.lastSeq + 1))
  {
    assembled := Nil;
    var i: U16 := 0;
    while i <= b.lastSeq
      invariant i <= b.lastSeq + 1
      invariant assembled == Appended(Joined(b.parts, i))
      decreases b.lastSeq + 1 - i
    {
      if b.parts[i] != [] {
        assembled := Data((if assembled.Nil? then [] else assembled.bytes) + b.parts[i]);
      }
      i := (i + 1) % POW16;
    }
  }

  // ---- the collector ----

  /** The early exit compares the part count, truncated to uint16, with the last sequence number. */
  predicate TooFew(b: Buffer) {
    |b.parts| % POW16 <= b.lastSeq
  }

  predicate CollectorFull(b: Buffer) {
    b.complete && !TooFew(b) && Contiguous(b)
  }

  function CollectorBuffers(m: map<U32, Buffer>, f: Fragment): map<U32, Buffer> {
    var b := Stored(m, f);
    if CollectorFull(b) then m - {f.contentId} else m[f.contentId := b]
  }

  function CollectorReturns(m: map<U32, Buffer>, f: Fragment): Slice {
    var b := Stored(m, f);
    if CollectorFull(b) then Data(Joined(b.parts, b.lastSeq + 1)) else Nil
  }

  class CollectorReassembler {
    var parts: map<U32, Buffer>

    constructor ()
      ensures parts == map[]
    {
      parts := map[];
    }

    method AddAndMaybeAssemble(f: Fragment, fragmentFlag: bool) returns (r: Slice)
      modifies this
      ensures !fragmentFlag ==> parts == old(parts) && r == Data(f.payload)
      ensures fragmentFlag ==> parts == CollectorBuffers(old(parts), f) && r == CollectorReturns(old(parts), f)
    {
      if !fragmentFlag {
        return Data(f.payload);
      }
      var b := BufferFor(parts, f);
      b := b.(parts := b.parts[f.seqNo := f.payload]);
      if f.last {
        b := b.(lastSeq := f.seqNo, complete := true);
      }
      assert b == Stored(parts, f);
      parts := parts[f.contentId := b];
      if !b.complete {
        return Nil;
      }
      if TooFew(b) {
        return Nil;
      }
      var present, out := JoinParts(b);
      if !present {
        return Nil;
      }
      parts := parts - {f.contentId};
      r := Data(out);
    }

    method Reap(now: nat, maxAge: nat) returns (dropped: nat)
      modifies this
      ensures parts == Reaped(old(parts), now, maxAge) && dropped == |old(parts)| - |parts|
    {
      parts, dropped := DropOld(parts, now, maxAge);
    }

    /** The assembly loop, which gives up at the first gap. */
    static method JoinParts(b: Buffer) returns (present: bool, out: seq<Byte>)
      requires b.lastSeq < 0xFFFF
      ensures present <==> Contiguous(b)
      ensures present ==> out == Joined(b.parts, b.lastSeq + 1)
    {
      out := [];
      var i: U16 := 0;
      while i <= b.lastSeq
        invariant i <= b.lastSeq + 1
        invariant forall j :: 0 <= j < i ==> j in b.parts
        invariant out == Joined(b.parts, i)
        decreases b.lastSeq + 1 - i
      {
        if i !in b.parts {
          return false, out;
        }
        out := out + b.parts[i];
        i := (i + 1) % POW16;
      }
      present := true;
    }
  }

  // ---- the two agree ----

  lemma {:induction false} Interval(n: nat, s: set<U16>)
    requires n <= POW16 && forall i :: 0 <= i < n ==> i in s
    ensures |s| >= n
  {
    if n > 0 {
      Interval(n - 1, s - {n - 1});
    }
  }

  /** Pigeonhole: the early exit only fires on a contiguous buffer if its count wrapped to zero. */
  lemma EarlyExitIsSafe(b: Buffer)
    requires Contiguous(b)
    ensures TooFew(b) <==> |b.parts| == POW16
  {
    Interval(b.lastSeq + 1, b.parts.Keys);
    AtMostAll(b.parts.Keys);
    assert |b.parts| == |b.parts.Keys|;
  }

  /** The numbers 0 .. n-1. */
  function All(n: nat): (r: set<int>)
    ensures |r| == n && forall i :: i in r <==> 0 <= i < n
  {
    if n == 0 then {} else All(n - 1) + {n - 1}
  }

  lemma AtMostAll(s: set<U16>)
    ensures |s| <= POW16
  {
    var all: set<int>, some: set<int> := All(POW16), s;
    assert some <= all;
    assert all == some + (all - some);
  }

  /**
    On equal buffers, where the server loops forever the collector keeps waiting with
    nil. Otherwise the collector does what the server does, except exactly when a full
    buffer holds all 65536 parts; and it returns the same slice, except that an
    assembled empty message is nil from the server and non-nil from the collector.
   */
  lemma StepAgrees(m: map<U32, Buffer>, f: Fragment)
    ensures Hangs(m, f) ==> CollectorBuffers(m, f) == m[f.contentId := Stored(m, f)] && CollectorReturns(m, f) == Nil
    ensures !Hangs(m, f) ==>
              && (CollectorBuffers(m, f) == ServerBuffers(m, f) <==>
                  !(Full(Stored(m, f)) && |Stored(m, f).parts| == POW16))
              && (CollectorBuffers(m, f) == ServerBuffers(m, f) ==>
                    ServerReturns(m, f) == NilIfEmpty(CollectorReturns(m, f)))
  {
    var b := Stored(m, f);
    if Full(b) {
      EarlyExitIsSafe(b);
      assert f.contentId !in m - {f.contentId};
    }
    if Hangs(m, f) {
      Interval(POW16, b.parts.Keys);
      AtMostAll(b.parts.Keys);
    }
  }

  function NilIfEmpty(r: Slice): Slice {
    if r == Data([]) then Nil else r
  }

  /** State and answers after a sequence of fragments. */
  function ServerRun(fs: seq<Fragment>): (Shelf, seq<Answer>) {
    if fs == [] then (Shelf(map[], false), [])
    else
      var n := |fs| - 1;
      var (x, out) := ServerRun(fs[..n]);
      (AfterFragment(x, fs[n]), out + [AnswerTo(x, fs[n])])
  }

  function CollectorRun(fs: seq<Fragment>): (map<U32, Buffer>, seq<Slice>) {
    if fs == [] then (map[], [])
    else
      var n := |fs| - 1;
      var (m, out) := CollectorRun(fs[..n]);
      (CollectorBuffers(m, fs[n]), out + [CollectorReturns(m, fs[n])])
  }

  predicate Numbered(fs: seq<Fragment>) {
    forall i :: 0 <= i < |fs| ==> fs[i].seqNo < 0xFFFF
  }

  predicate Low(m: map<U32, Buffer>) {
    forall id :: id in m ==> LowBuffer(m[id])
  }

  predicate LowBuffer(b: Buffer) {
    0xFFFF !in b.parts && b.lastSeq < 0xFFFF
  }

  /**
    On every sequence of fragments numbered below 65535 the server never hangs, the
    two keep equal buffers, and they give equal answers, up to nil versus empty.
   */
  lemma {:induction false} ReassemblersAgree(fs: seq<Fragment>)
    requires Numbered(fs)
    ensures ServerRun(fs).0 == Shelf(CollectorRun(fs).0, false) && Low(CollectorRun(fs).0)
    ensures |ServerRun(fs).1| == |CollectorRun(fs).1| == |fs|
    ensures forall i :: 0 <= i < |fs| ==> ServerRun(fs).1[i] == Returns(NilIfEmpty(CollectorRun(fs).1[i]))
  {
    if fs != [] {
      var n := |fs| - 1;
      ReassemblersAgree(fs[..n]);
      StepAgrees(CollectorRun(fs[..n]).0, fs[n]);
      LowStep(CollectorRun(fs[..n]).0, fs[n]);
    }
  }

  lemma LowStep(m: map<U32, Buffer>, f: Fragment)
    requires LowBuffer(BufferFor(m, f)) && f.seqNo < 0xFFFF
    ensures !Hangs(m, f) && LowBuffer(Stored(m, f)) && |Stored(m, f).parts| < POW16
  {
    var b := Stored(m, f);
    assert LowBuffer(b);
    AtMostAll(b.parts.Keys + {0xFFFF});
    assert |b.parts.Keys + {0xFFFF}| == |b.parts.Keys| + 1;
  }

  // ---- any order ----

  /** Every fragment of this content ID belongs to the message; others are arbitrary. */
  predicate CarriesMessage(fs: seq<Fragment>, id: U32, ps: seq<seq<Byte>>) {
    forall i :: 0 <= i < |fs| && fs[i].contentId == id ==> PartOf(fs[i], ps)
  }

  /** Only the last part carries the flag. */
  predicate PartOf(f: Fragment, ps: seq<seq<Byte>>) {
    f.seqNo < |ps| && f.payload == ps[f.seqNo] && f.last == (f.seqNo == |ps| - 1)
  }

  predicate Complete(arrived: set<int>, n: nat) {
    forall i :: 0 <= i < n ==> i in arrived
  }

  /** Which parts have arrived since the message was last completed. */
  function Arrived(fs: seq<Fragment>, id: U32, n: nat): set<int> {
    if fs == [] then {}
    else
      var k := |fs| - 1;
      var before := Arrived(fs[..k], id, n);
      if fs[k].contentId != id then before
      else if Complete(before + {fs[k].seqNo}, n) then {}
      else before + {fs[k].seqNo}
  }

  predicate Completes(fs: seq<Fragment>, k: nat, id: U32, n: nat)
    requires k < |fs|
  {
    fs[k].contentId == id && Complete(Arrived(fs[..k], id, n) + {fs[k].seqNo}, n)
  }

  /** The buffer holds exactly the parts that arrived. */
  predicate HoldsParts(b: Buffer, arrived: set<int>, ps: seq<seq<Byte>>) {
    && (forall i: U16 :: i in b.parts <==> i in arrived)
    && (forall i :: i in arrived ==> 0 <= i < |ps|)
    && (forall i :: i in b.parts ==> i < |ps| && b.parts[i] == ps[i])
    && (b.complete <==> |ps| - 1 in arrived)
    && (b.complete ==> b.lastSeq == |ps| - 1)
  }

  predicate Holds(m: map<U32, Buffer>, id: U32, arrived: set<int>, ps: seq<seq<Byte>>) {
    && (id in m <==> arrived != {})
    && (id in m ==> HoldsParts(m[id], arrived, ps))
  }

  lemma {:induction false} JoinedIsFlatten(parts: map<U16, seq<Byte>>, ps: seq<seq<Byte>>, n: nat)
    requires n <= |ps| <= 0xFFFF && forall i :: 0 <= i < n ==> i in parts && parts[i] == ps[i]
    ensures Joined(parts, n) == Flatten(ps[..n])
  {
    if n > 0 {
      JoinedIsFlatten(parts, ps, n - 1);
      assert ps[..n][..n - 1] == ps[..n - 1];
    }
  }

  /** One more fragment of a message of at most 65535 parts. */
  lemma OneFragment(m: map<U32, Buffer>, f: Fragment, arrived: set<int>, ps: seq<seq<Byte>>)
    requires 1 <= |ps| <= 0xFFFF && Holds(m, f.contentId, arrived, ps) && PartOf(f, ps)
    ensures !Hangs(m, f)
    ensures ServerReturns(m, f) == if Complete(arrived + {f.seqNo}, |ps|) then Appended(Flatten(ps)) else Nil
    ensures Holds(ServerBuffers(m, f), f.contentId,
                  if Complete(arrived + {f.seqNo}, |ps|) then {} else arrived + {f.seqNo}, ps)
  {
    var b, now := Stored(m, f), arrived + {f.seqNo};
    StoredHolds(m, f, arrived, ps);
    FullIff(b, now, ps);
    if Full(b) {
      assert b.lastSeq + 1 == |ps| && ps[..|ps|] == ps;
      JoinedIsFlatten(b.parts, ps, |ps|);
      assert Joined(b.parts, b.lastSeq + 1) == Flatten(ps);
    }
  }

  lemma StoredHolds(m: map<U32, Buffer>, f: Fragment, arrived: set<int>, ps: seq<seq<Byte>>)
    requires Holds(m, f.contentId, arrived, ps) && PartOf(f, ps)
    ensures HoldsParts(Stored(m, f), arrived + {f.seqNo}, ps)
  {
  }

  lemma FullIff(b: Buffer, now: set<int>, ps: seq<seq<Byte>>)
    requires 1 <= |ps| <= POW16 && HoldsParts(b, now, ps)
    ensures Full(b) <==> Complete(now, |ps|)
  {
    if Full(b) {
      forall i | 0 <= i < |ps|
        ensures i in now
      {
        var j: U16 := i;
        assert j in b.parts;
      }
    }
    if Complete(now, |ps|) {
      assert |ps| - 1 in now;
    }
  }

  /**
    Reassembly in any order, of a message of at most 65535 parts: under every arrival
    order, with duplicates and with arbitrary fragments of other content IDs in between,
    the server answers nil to a fragment of the message until the parts since the last
    completion are complete, then exactly the message (nil again if all its parts are
    empty, which its caller takes for "still waiting"); and it buffers exactly those
    parts. All this as long as no other content ID has hung it; afterwards it never answers.
   */
  lemma AnyOrder(fs: seq<Fragment>, id: U32, ps: seq<seq<Byte>>)
    requires 1 <= |ps| <= 0xFFFF && CarriesMessage(fs, id, ps)
    ensures !ServerRun(fs).0.held ==> Holds(ServerRun(fs).0.buffers, id, Arrived(fs, id, |ps|), ps)
    ensures |ServerRun(fs).1| == |fs|
    ensures forall k :: 0 <= k < |fs| && fs[k].contentId == id ==>
              ServerRun(fs).1[k] ==
              if ServerRun(fs[..k]).0.held then Never
              else Returns(if Completes(fs, k, id, |ps|) then Appended(Flatten(ps)) else Nil)
  {
    HoldsArrived(fs, id, ps);
    RunLength(fs);
    forall k | 0 <= k < |fs| && fs[k].contentId == id
      ensures ServerRun(fs).1[k] ==
              if ServerRun(fs[..k]).0.held then Never
              else Returns(if Completes(fs, k, id, |ps|) then Appended(Flatten(ps)) else Nil)
    {
      AnswerAt(fs, k);
      HoldsArrived(fs[..k], id, ps);
      var x := ServerRun(fs[..k]).0;
      if !x.held {
        OneFragment(x.buffers, fs[k], Arrived(fs[..k], id, |ps|), ps);
      }
    }
  }

  /** The buffer holds the parts since the last completion. */
  lemma {:induction false} HoldsArrived(fs: seq<Fragment>, id: U32, ps: seq<seq<Byte>>)
    requires 1 <= |ps| <= 0xFFFF && CarriesMessage(fs, id, ps)
    ensures !ServerRun(fs).0.held ==> Holds(ServerRun(fs).0.buffers, id, Arrived(fs, id, |ps|), ps)
  {
    if fs != [] {
      var n := |fs| - 1;
      HoldsArrived(fs[..n], id, ps);
      var x := ServerRun(fs[..n]).0;
      if fs[n].contentId == id && !x.held {
        OneFragment(x.buffers, fs[n], Arrived(fs[..n], id, |ps|), ps);
      }
    }
  }

  lemma {:induction false} AnswerAt(fs: seq<Fragment>, k: nat)
    requires k < |fs|
    ensures |ServerRun(fs).1| == |fs| && ServerRun(fs).1[k] == AnswerTo(ServerRun(fs[..k]).0, fs[k])
  {
    var n := |fs| - 1;
    RunLength(fs[..n]);
    if k < n {
      AnswerAt(fs[..n], k);
      assert fs[..n][..k] == fs[..k];
    }
  }

  /** All sequence numbers seen so far for one content ID. */
  function Seen(fs: seq<Fragment>, id: U32): set<int> {
    set i | 0 <= i < |fs| && fs[i].contentId == id :: fs[i].seqNo
  }

  lemma {:induction false} ArrivedIsSeen(fs: seq<Fragment>, id: U32, n: nat)
    requires !Complete(Seen(fs, id), n)
    ensures Arrived(fs, id, n) == Seen(fs, id)
  {
    if fs != [] {
      var k := |fs| - 1;
      SeenSnoc(fs, id);
      ArrivedIsSeen(fs[..k], id, n);
    }
  }

  lemma SeenSnoc(fs: seq<Fragment>, id: U32)
    requires fs != []
    ensures var k := |fs| - 1;
            Seen(fs, id) == Seen(fs[..k], id) + if fs[k].contentId == id then {fs[k].seqNo} else {}
  {
    var k := |fs| - 1;
    forall q | q in Seen(fs[..k], id)
      ensures q in Seen(fs, id)
    {
      var i :| 0 <= i < k && fs[..k][i].contentId == id && fs[..k][i].seqNo == q;
      assert fs[i].seqNo == q;
    }
    forall q | q in Seen(fs, id)
      ensures q in Seen(fs[..k], id) || (fs[k].contentId == id && q == fs[k].seqNo)
    {
      var i :| 0 <= i < |fs| && fs[i].contentId == id && fs[i].seqNo == q;
      assert i < k ==> fs[..k][i] == fs[i];
    }
  }

  /**
    In particular, on the arrival that first makes the set of seen parts complete the
    server returns the message and forgets the buffer; to every earlier part it said nil.
   */
  lemma FirstCompletion(fs: seq<Fragment>, id: U32, ps: seq<seq<Byte>>)
    requires fs != [] && 1 <= |ps| <= 0xFFFF && CarriesMessage(fs, id, ps) && !ServerRun(fs).0.held
    requires !Complete(Seen(fs[..|fs| - 1], id), |ps|) && Complete(Seen(fs, id), |ps|)
    ensures |ServerRun(fs).1| == |fs|
    ensures ServerRun(fs).1[|fs| - 1] == Returns(Appended(Flatten(ps))) && id !in ServerRun(fs).0.buffers
    ensures forall k :: 0 <= k < |fs| - 1 && fs[k].contentId == id ==> ServerRun(fs).1[k] == Returns(Nil)
  {
    var n := |fs| - 1;
    AnyOrder(fs, id, ps);
    SeenSnoc(fs, id);
    ArrivedIsSeen(fs[..n], id, |ps|);
    NotHeldBefore(fs, n);
    assert Completes(fs, n, id, |ps|);
    forall k | 0 <= k < n && fs[k].contentId == id
      ensures !Completes(fs, k, id, |ps|) && !ServerRun(fs[..k]).0.held
    {
      NotHeldBefore(fs, k);
      SeenGrows(fs, id, k + 1, n);
      SeenGrows(fs, id, k, n);
      ArrivedIsSeen(fs[..k], id, |ps|);
      SeenSnoc(fs[..k + 1], id);
      assert fs[..k + 1][..k] == fs[..k];
    }
  }

  lemma SeenGrows(fs: seq<Fragment>, id: U32, j: nat, k: nat)
    requires j <= k <= |fs|
    ensures Seen(fs[..j], id) <= Seen(fs[..k], id)
  {
    forall q | q in Seen(fs[..j], id)
      ensures q in Seen(fs[..k], id)
    {
      var i :| 0 <= i < j && fs[..j][i].contentId == id && fs[..j][i].seqNo == q;
      assert fs[..k][i] == fs[..j][i];
    }
  }

  // ---- when the server hangs ----

  /** Once held, the lock is never released, and nothing is answered any more. */
  lemma {:induction false} HeldStays(fs: seq<Fragment>, k: nat)
    requires k <= |fs| && ServerRun(fs[..k]).0.held
    ensures ServerRun(fs).0 == ServerRun(fs[..k]).0
    ensures |ServerRun(fs).1| == |fs| && forall i :: k <= i < |fs| ==> ServerRun(fs).1[i] == Never
    decreases |fs|
  {
    RunLength(fs);
    if k == |fs| {
      assert fs[..k] == fs;
    } else {
      var n := |fs| - 1;
      assert fs[..n][..k] == fs[..k];
      HeldStays(fs[..n], k);
    }
  }

  lemma {:induction false} RunLength(fs: seq<Fragment>)
    ensures |ServerRun(fs).1| == |fs|
  {
    if fs != [] {
      RunLength(fs[..|fs| - 1]);
    }
  }

  lemma NotHeldBefore(fs: seq<Fragment>, k: nat)
    requires k <= |fs| && !ServerRun(fs).0.held
    ensures !ServerRun(fs[..k]).0.held
  {
    if ServerRun(fs[..k]).0.held {
      HeldStays(fs, k);
    }
  }

  /** Every part in a buffer was seen. */
  ghost predicate BuffersSeen(m: map<U32, Buffer>, fs: seq<Fragment>) {
    forall id :: id in m ==> PartsSeen(m[id], fs, id)
  }

  ghost predicate PartsSeen(b: Buffer, fs: seq<Fragment>, id: U32) {
    forall q :: q in b.parts ==> q in Seen(fs, id)
  }

  /**
    Whatever the traffic, a hang needs some content ID of which all 65536 sequence
    numbers were seen.
   */
  lemma {:induction false} HangNeedsAllNumbers(fs: seq<Fragment>)
    ensures BuffersSeen(ServerRun(fs).0.buffers, fs)
    ensures ServerRun(fs).0.held ==> exists id: U32 :: Complete(Seen(fs, id), POW16)
  {
    if fs != [] {
      var n := |fs| - 1;
      var x, f := ServerRun(fs[..n]).0, fs[n];
      HangNeedsAllNumbers(fs[..n]);
      SeenSnocAll(fs);
      StoredSeen(x.buffers, fs);
      if x.held {
        var id: U32 :| Complete(Seen(fs[..n], id), POW16);
        assert Complete(Seen(fs, id), POW16);
      } else if Hangs(x.buffers, f) {
        assert forall q: U16 :: q in Stored(x.buffers, f).parts;
        assert Complete(Seen(fs, f.contentId), POW16);
      }
    }
  }

  lemma SeenSnocAll(fs: seq<Fragment>)
    requires fs != []
    ensures forall id: U32 :: Seen(fs[..|fs| - 1], id) <= Seen(fs, id)
  {
    forall id: U32
      ensures Seen(fs[..|fs| - 1], id) <= Seen(fs, id)
    {
      SeenSnoc(fs, id);
    }
  }

  lemma StoredSeen(m: map<U32, Buffer>, fs: seq<Fragment>)
    requires fs != [] && BuffersSeen(m, fs[..|fs| - 1])
    ensures var f := fs[|fs| - 1]; PartsSeen(Stored(m, f), fs, f.contentId)
  {
    var f := fs[|fs| - 1];
    SeenSnoc(fs, f.contentId);
    assert f.contentId in m ==> PartsSeen(m[f.contentId], fs[..|fs| - 1], f.contentId);
  }

  /** Fragments of other content IDs are numbered below 65535. */
  predicate OthersNumbered(fs: seq<Fragment>, id: U32) {
    forall i :: 0 <= i < |fs| && fs[i].contentId != id ==> fs[i].seqNo < 0xFFFF
  }

  predicate OthersLow(m: map<U32, Buffer>, id: U32) {
    forall j :: j in m && j != id ==> LowBuffer(m[j])
  }

  /**
    The limit of 65535 parts is exact: a message of 65536 parts, in any order and with
    duplicates, hangs the server exactly when all its parts have arrived.
   */
  lemma {:induction false} LongMessageHangs(fs: seq<Fragment>, id: U32, ps: seq<seq<Byte>>)
    requires |ps| == POW16 && CarriesMessage(fs, id, ps) && OthersNumbered(fs, id)
    ensures ServerRun(fs).0.held <==> Complete(Seen(fs, id), POW16)
    ensures !ServerRun(fs).0.held ==>
              Holds(ServerRun(fs).0.buffers, id, Seen(fs, id), ps) && OthersLow(ServerRun(fs).0.buffers, id)
  {
    if fs == [] {
      assert 0 !in Seen(fs, id);
    } else {
      var n := |fs| - 1;
      var x, f := ServerRun(fs[..n]).0, fs[n];
      LongMessageHangs(fs[..n], id, ps);
      SeenSnoc(fs, id);
      if !x.held && f.contentId == id {
        LongStep(x.buffers, f, Seen(fs[..n], id), ps);
      } else if !x.held {
        OtherStep(x.buffers, f, id, Seen(fs[..n], id), ps);
      }
    }
  }

  lemma LongStep(m: map<U32, Buffer>, f: Fragment, seen: set<int>, ps: seq<seq<Byte>>)
    requires |ps| == POW16 && Holds(m, f.contentId, seen, ps) && PartOf(f, ps) && OthersLow(m, f.contentId)
    ensures Hangs(m, f) <==> Complete(seen + {f.seqNo}, POW16)
    ensures !Hangs(m, f) ==>
              var n := ServerBuffers(m, f); Holds(n, f.contentId, seen + {f.seqNo}, ps) && OthersLow(n, f.contentId)
  {
    StoredHolds(m, f, seen, ps);
    FullIff(Stored(m, f), seen + {f.seqNo}, ps);
  }

  lemma OtherStep(m: map<U32, Buffer>, f: Fragment, id: U32, seen: set<int>, ps: seq<seq<Byte>>)
    requires Holds(m, id, seen, ps) && OthersLow(m, id) && f.contentId != id && f.seqNo < 0xFFFF
    ensures !Hangs(m, f) && Holds(ServerBuffers(m, f), id, seen, ps) && OthersLow(ServerBuffers(m, f), id)
  {
    LowStep(m, f);
  }

  /** Such a sequence: 65536 empty fragments of one content ID. */
  function Flood(id: U32): seq<Fragment> {
    seq(POW16, i requires 0 <= i < POW16 => Fragment(id, i, i == 0xFFFF, [], 0))
  }

  /** It is short enough to send, and after it the server answers no fragment of any content ID. */
  lemma FloodHangs(id: U32, f: Fragment)
    ensures ServerRun(Flood(id)).0.held
    ensures AnswerTo(ServerRun(Flood(id)).0, f) == Never
  {
    var fs := Flood(id);
    var ps := seq(POW16, i => []);
    assert CarriesMessage(fs, id, ps);
    forall i: int | 0 <= i < POW16
      ensures i in Seen(fs, id)
    {
      assert fs[i].contentId == id && fs[i].seqNo == i;
    }
    LongMessageHangs(fs, id, ps);
  }
}

/** How a merge depends on the way a benchmark was cut into chunks and on their order, and when chunks are isolated. */
module MergeOrder {
  import opened Sequences
  import opened BenchStats
  import opened BenchMerge

  // ---- merge equals one run ----

  lemma {:induction false} SamplesConcat(a: seq<Run>, b: seq<Run>, path: Path)
    ensures SamplesOf(a + b, path) == SamplesOf(a, path) + SamplesOf(b, path)
  {
    if b == [] {
      assert a + b == a;
    } else {
      var less, last := b[..|b| - 1], b[|b| - 1];
      SamplesConcat(a, less, path);
      ConcatSnoc(a, b);
      SamplesSnoc(a + less, last, path);
      SamplesSnoc(less, last, path);
      Assoc(SamplesOf(a, path), SamplesOf(less, path), if last.path == path then last.samples else []);
    }
  }

  lemma SamplesSnoc(runs: seq<Run>, r: Run, path: Path)
    ensures SamplesOf(runs + [r], path) == SamplesOf(runs, path) + if r.path == path then r.samples else []
  {
    assert (runs + [r])[..|runs|] == runs;
  }

  lemma Assoc(x: seq<real>, y: seq<real>, z: seq<real>)
    ensures x + y + z == x + (y + z)
  {
  }

  lemma TallySnoc(runs: seq<Run>, r: Run, path: Path)
    ensures TallyOf(runs + [r], path) == if r.path == path then TallyOf(runs, path).Plus(r.tally) else TallyOf(runs, path)
  {
    assert (runs + [r])[..|runs|] == runs;
  }

  lemma PlusAssoc(a: Tally, b: Tally, c: Tally)
    ensures a.Plus(b).Plus(c) == a.Plus(b.Plus(c))
  {
  }

  lemma {:induction false} TallyConcat(a: seq<Run>, b: seq<Run>, path: Path)
    ensures TallyOf(a + b, path) == TallyOf(a, path).Plus(TallyOf(b, path))
  {
    if b == [] {
      assert a + b == a;
    } else {
      var less, last := b[..|b| - 1], b[|b| - 1];
      TallyConcat(a, less, path);
      ConcatSnoc(a, b);
      TallySnoc(a + less, last, path);
      TallySnoc(less, last, path);
      PlusAssoc(TallyOf(a, path), TallyOf(less, path), last.tally);
    }
  }

  /** What a list of chunks contributes to a path, regardless of order. */
  datatype Share = Share(samples: multiset<real>, tally: Tally) {
    function Plus(x: Share): Share {
      Share(samples + x.samples, tally.Plus(x.tally))
    }
  }

  function ShareOf(runs: seq<Run>, path: Path): Share {
    Share(multiset(SamplesOf(runs, path)), TallyOf(runs, path))
  }

  function Shares(chunks: seq<Chunk>, path: Path): Share {
    if chunks == [] then Share(multiset{}, NONE)
    else var n := |chunks| - 1; Shares(chunks[..n], path).Plus(ShareOf(chunks[n].runs, path))
  }

  lemma ShareOfConcat(a: seq<Run>, b: seq<Run>, path: Path)
    ensures ShareOf(a + b, path) == ShareOf(a, path).Plus(ShareOf(b, path))
  {
    SamplesConcat(a, b, path);
    TallyConcat(a, b, path);
  }

  lemma {:induction false} SharesOfAll(chunks: seq<Chunk>, path: Path)
    ensures ShareOf(AllRuns(chunks), path) == Shares(chunks, path)
  {
    if chunks != [] {
      var n := |chunks| - 1;
      SharesOfAll(chunks[..n], path);
      ShareOfConcat(AllRuns(chunks[..n]), chunks[n].runs, path);
    }
  }

  lemma SharesSnoc(chunks: seq<Chunk>, c: Chunk, path: Path)
    ensures Shares(chunks + [c], path) == Shares(chunks, path).Plus(ShareOf(c.runs, path))
  {
    assert (chunks + [c])[..|chunks|] == chunks;
  }

  lemma {:induction false} SharesWithout(chunks: seq<Chunk>, j: nat, path: Path)
    requires j < |chunks|
    ensures Shares(chunks, path) == Shares(chunks[..j] + chunks[j + 1..], path).Plus(ShareOf(chunks[j].runs, path))
    decreases |chunks|
  {
    var n := |chunks| - 1;
    var before, last := chunks[..n], chunks[n];
    if j == n {
      assert chunks[..j] + chunks[j + 1..] == before;
    } else {
      var less := before[..j] + before[j + 1..];
      SharesWithout(before, j, path);
      WithoutSnoc(chunks, j);
      SharesSnoc(less, last, path);
      PlusSwap(Shares(less, path), ShareOf(chunks[j].runs, path), ShareOf(last.runs, path));
    }
  }

  lemma WithoutSnoc<T>(xs: seq<T>, j: nat)
    requires j < |xs| - 1
    ensures var n := |xs| - 1; xs[..j] + xs[j + 1..] == xs[..n][..j] + xs[..n][j + 1..] + [xs[n]]
  {
  }

  lemma PlusSwap(x: Share, a: Share, b: Share)
    ensures x.Plus(a).Plus(b) == x.Plus(b).Plus(a)
  {
  }

  lemma {:induction false} ChunkOrder(a: seq<Chunk>, b: seq<Chunk>, path: Path)
    requires multiset(a) == multiset(b)
    ensures Shares(a, path) == Shares(b, path)
    decreases |a|
  {
    assert |multiset(a)| == |a| && |multiset(b)| == |b|;
    if a != [] {
      var n := |a| - 1;
      assert a[n] in multiset(a);
      var j :| 0 <= j < |b| && b[j] == a[n];
      Without(a, n);
      Without(b, j);
      assert a[..n] + a[n + 1..] == a[..n];
      ChunkOrder(a[..n], b[..j] + b[j + 1..], path);
      SharesWithout(a, n, path);
      SharesWithout(b, j, path);
    }
  }

  // ---- order ----

  ghost predicate InSome(chunks: seq<Chunk>, r: Run) {
    exists c :: c in chunks && r in c.runs
  }

  lemma {:induction false} RunsInSome(chunks: seq<Chunk>, r: Run)
    ensures r in AllRuns(chunks) <==> InSome(chunks, r)
  {
    if chunks != [] {
      var n := |chunks| - 1;
      RunsInSome(chunks[..n], r);
      assert chunks == chunks[..n] + [chunks[n]];
      if r in AllRuns(chunks[..n]) {
        var c :| c in chunks[..n] && r in c.runs;
        assert c in chunks;
      }
    }
  }

  lemma SameRuns(a: seq<Chunk>, b: seq<Chunk>, r: Run)
    requires Reorders(a, b)
    ensures r in AllRuns(a) <==> r in AllRuns(b)
  {
    RunsInSome(a, r);
    RunsInSome(b, r);
    SameChunks(a, b);
  }

  ghost predicate Reorders(a: seq<Chunk>, b: seq<Chunk>) {
    multiset(a) == multiset(b)
  }

  lemma SameChunks(a: seq<Chunk>, b: seq<Chunk>)
    requires Reorders(a, b)
    ensures forall c :: c in a <==> c in b
  {
    assert forall c :: c in a <==> c in multiset(a);
    assert forall c :: c in b <==> c in multiset(b);
  }

  lemma SpansAgreeReordered(a: seq<Chunk>, b: seq<Chunk>)
    requires Reorders(a, b) && SpansAgree(AllRuns(a))
    ensures SpansAgree(AllRuns(b))
  {
    var x, y := AllRuns(a), AllRuns(b);
    forall i, j | 0 <= i < |y| && 0 <= j < |y| && y[i].path == y[j].path
      ensures y[i].spans == y[j].spans
    {
      SameRuns(a, b, y[i]);
      SameRuns(a, b, y[j]);
      var k :| 0 <= k < |x| && x[k] == y[i];
      var l :| 0 <= l < |x| && x[l] == y[j];
      assert x[k].path == x[l].path;
    }
  }

  /** All chunks have one batch size and, where they name one, one mode; and each path one batch size. */
  ghost predicate OneWorkload(chunks: seq<Chunk>) {
    && chunks != []
    && (forall c, d :: c in chunks && d in chunks ==>
          c.spans == d.spans && (c.mode.Unset? || d.mode.Unset? || c.mode == d.mode))
    && OneSizePerPath(chunks)
  }

  ghost predicate OneSizePerPath(chunks: seq<Chunk>) {
    forall r, q :: InSome(chunks, r) && InSome(chunks, q) && r.path == q.path ==> r.spans == q.spans
  }

  lemma OneSizeIff(chunks: seq<Chunk>)
    ensures OneSizePerPath(chunks) <==> SpansAgree(AllRuns(chunks))
  {
    var all := AllRuns(chunks);
    forall r
      ensures r in all <==> InSome(chunks, r)
    {
      RunsInSome(chunks, r);
    }
    if OneSizePerPath(chunks) {
      assert forall i :: 0 <= i < |all| ==> InSome(chunks, all[i]);
    }
  }

  /** The merge accepts exactly chunks that agree with the first in batch size and stated mode, and whose paths have one batch size. */
  lemma AcceptedIff(chunks: seq<Chunk>)
    ensures Merge(chunks).Merged? <==>
            && chunks != []
            && (forall c :: c in chunks ==>
                  && c.spans == chunks[0].spans
                  && (c.mode.Unset? || chunks[0].mode.Unset? || c.mode == chunks[0].mode))
            && OneSizePerPath(chunks)
  {
    OneSizeIff(chunks);
  }

  /**
    The code compares modes only with the first chunk, so whether it accepts depends on
    the order; every order is accepted exactly when the chunks are of one workload.
   */
  lemma EveryOrderAccepted(chunks: seq<Chunk>)
    ensures (forall p :: Reorders(p, chunks) ==> Merge(p).Merged?) <==> OneWorkload(chunks)
  {
    OneSizeIff(chunks);
    if OneWorkload(chunks) {
      forall p | Reorders(p, chunks)
        ensures Compatible(p)
      {
        ReorderedCompatible(p, chunks);
      }
    } else if Compatible(chunks) {
      var c, d :| c in chunks && d in chunks && !SameSetup(d, c);
      var p := Leading(chunks, c);
      SameChunks(p, chunks);
      assert !Compatible(p) by {
        var i :| 0 <= i < |p| && p[i] == d;
        assert p[0] == c && !SameSetup(p[i], p[0]);
      }
      assert Reorders(p, chunks) && !Merge(p).Merged?;
    } else {
      assert Reorders(chunks, chunks) && !Merge(chunks).Merged?;
    }
  }

  lemma ReorderedCompatible(p: seq<Chunk>, chunks: seq<Chunk>)
    requires Reorders(p, chunks) && OneWorkload(chunks)
    ensures Compatible(p)
  {
    SameChunks(p, chunks);
    assert chunks[0] in p;
    OneSizeIff(chunks);
    SpansAgreeReordered(chunks, p);
    forall i | 0 <= i < |p|
      ensures SameSetup(p[i], p[0])
    {
      assert p[i] in chunks && p[0] in chunks;
    }
  }

  /** The same chunks with c in front. */
  lemma Leading(chunks: seq<Chunk>, c: Chunk) returns (p: seq<Chunk>)
    requires c in chunks
    ensures Reorders(p, chunks) && p != [] && p[0] == c
  {
    var i :| 0 <= i < |chunks| && chunks[i] == c;
    p := [c] + (chunks[..i] + chunks[i + 1..]);
    Without(chunks, i);
  }

  /** Chunks with no mode, mode a and mode b are merged in this order and refused in another. */
  lemma OrderMatters(a: Mode, b: Mode)
    requires a.Mode? && b.Mode? && a != b
    ensures var x, y, z := Chunk(1, Unset, []), Chunk(1, a, []), Chunk(1, b, []);
            Reorders([x, y, z], [y, x, z]) && Merge([x, y, z]).Merged? && Merge([y, x, z]) == Refused
  {
    var x, y, z := Chunk(1, Unset, []), Chunk(1, a, []), Chunk(1, b, []);
    SwapReorders(x, y, z);
    UnsetFirst(x, y, z);
    assert !SameSetup([y, x, z][2], y);
  }

  lemma SwapReorders(x: Chunk, y: Chunk, z: Chunk)
    ensures Reorders([x, y, z], [y, x, z])
  {
  }

  lemma UnsetFirst(x: Chunk, y: Chunk, z: Chunk)
    requires x.mode.Unset? && x.spans == y.spans == z.spans && x.runs == y.runs == z.runs == []
    ensures Compatible([x, y, z])
  {
    NoRuns([x, y, z]);
  }

  lemma {:induction false} NoRuns(chunks: seq<Chunk>)
    requires forall c :: c in chunks ==> c.runs == []
    ensures AllRuns(chunks) == []
  {
    if chunks != [] {
      NoRuns(chunks[..|chunks| - 1]);
    }
  }

  /** Together the chunks hold exactly this run of its path. */
  ghost predicate IsCutOf(chunks: seq<Chunk>, whole: Run) {
    var all := AllRuns(chunks);
    && HasPath(all, whole.path)
    && (forall r :: r in all && r.path == whole.path ==> r.spans == whole.spans)
    && SamplesOf(all, whole.path) == whole.samples && TallyOf(all, whole.path) == whole.tally
  }

  /**
    However a run of a path was cut into chunks, and in whatever order they come: if the
    merge accepts them, everything it reports for the path but the status is what the
    uncut run gives, which is also what merging the uncut run alone gives; and the status
    is that of the uncut run exactly when no chunk reported a failure, or that very one.
   */
  lemma MergeEqualsOneRun(cut: seq<Chunk>, merged: seq<Chunk>, whole: Run, one: Chunk)
    requires Reorders(merged, cut) && IsCutOf(cut, whole) && Merge(merged).Merged? && one.runs == [whole]
    ensures var m, worst := Measured(whole.samples, whole.tally, whole.spans), WorstOf(AllRuns(merged), whole.path);
            && whole.path in Merge(merged).results
            && Merge(merged).results[whole.path].measures == m
            && (Merge(merged).results[whole.path].status == Usual(m.stats.status) <==>
                worst in {Blank, Usual(Pass), Usual(PassWithFailures), Usual(m.stats.status)})
            && Merge([one]) == Merged(map[whole.path := PathResult(m, FinalStatus(whole.status, m.stats.status))])
  {
    var i := RunOfPath(cut, merged, whole);
    MergedPaths(merged, whole.path);
    PooledAlike(cut, merged, whole);
    UncutMerge(whole, one);
  }

  lemma RunOfPath(cut: seq<Chunk>, merged: seq<Chunk>, whole: Run) returns (i: nat)
    requires Reorders(merged, cut) && IsCutOf(cut, whole)
    ensures i < |AllRuns(merged)| && AllRuns(merged)[i].path == whole.path && AllRuns(merged)[i].spans == whole.spans
  {
    var all := AllRuns(cut);
    var k :| 0 <= k < |all| && all[k].path == whole.path;
    assert all[k] in all;
    SameRuns(merged, cut, all[k]);
    i :| 0 <= i < |AllRuns(merged)| && AllRuns(merged)[i] == all[k];
  }

  lemma PooledAlike(cut: seq<Chunk>, merged: seq<Chunk>, whole: Run)
    requires Reorders(merged, cut) && IsCutOf(cut, whole)
    ensures var all := AllRuns(merged);
            Measured(SamplesOf(all, whole.path), TallyOf(all, whole.path), whole.spans)
            == Measured(whole.samples, whole.tally, whole.spans)
  {
    SameShare(cut, merged, whole.path);
    OrderFree(SamplesOf(AllRuns(merged), whole.path), whole.samples, whole.tally.failures, whole.spans);
  }

  lemma SameShare(cut: seq<Chunk>, merged: seq<Chunk>, path: Path)
    requires Reorders(merged, cut)
    ensures ShareOf(AllRuns(merged), path) == ShareOf(AllRuns(cut), path)
  {
    ChunkOrder(merged, cut, path);
    SharesOfAll(merged, path);
    SharesOfAll(cut, path);
  }

  lemma UncutMerge(whole: Run, one: Chunk)
    requires one.runs == [whole]
    ensures Merge([one]) == Merged(map[whole.path := Summarized(OwnPool(whole))])
  {
    RunsOfOne(one);
    OnePool(whole);
    SummaryOfOne(whole.path, OwnPool(whole));
  }

  function OwnPool(r: Run): Pool {
    Pool(r.samples, r.tally, r.spans, r.status)
  }

  lemma RunsOfOne(one: Chunk)
    requires |one.runs| == 1
    ensures AllRuns([one]) == one.runs && Compatible([one])
  {
    var chunks := [one];
    assert chunks[..0] == [] && AllRuns([]) == [];
    assert AllRuns(chunks) == [] + one.runs;
    assert SameSetup(one, chunks[0]);
  }

  lemma OnePool(r: Run)
    ensures PoolsOf([r]) == map[r.path := OwnPool(r)]
  {
    assert [r][..0] == [] && [] + r.samples == r.samples;
  }

  lemma SummaryOfOne(p: Path, pool: Pool)
    ensures SummariesOf(map[p := pool]) == map[p := Summarized(pool)]
  {
  }

  // ---- the merged status ----

  /** Taking the worse of two is associative, so each chunk has its own worst status. */
  lemma {:induction false} WorstConcat(a: seq<Run>, b: seq<Run>, path: Path)
    ensures WorstOf(a + b, path) == Worse(WorstOf(a, path), WorstOf(b, path))
  {
    if b == [] {
      assert a + b == a;
    } else {
      var less, last := b[..|b| - 1], b[|b| - 1];
      WorstConcat(a, less, path);
      ConcatSnoc(a, b);
      WorstSnoc(a + less, last, path);
      WorstSnoc(less, last, path);
    }
  }

  lemma WorstSnoc(runs: seq<Run>, r: Run, path: Path)
    ensures WorstOf(runs + [r], path) == if r.path == path then Worse(WorstOf(runs, path), r.status) else WorstOf(runs, path)
  {
    assert (runs + [r])[..|runs|] == runs;
  }

  /** The worst status is at least as bad as every run's, and is one of them. */
  lemma {:induction false} WorstIsWorst(runs: seq<Run>, path: Path)
    ensures forall r :: r in runs && r.path == path ==> Rank(r.status) <= Rank(WorstOf(runs, path))
    ensures WorstOf(runs, path).Blank? || exists r :: r in runs && r.path == path && r.status == WorstOf(runs, path)
  {
    if runs != [] {
      var n := |runs| - 1;
      WorstIsWorst(runs[..n], path);
      assert runs == runs[..n] + [runs[n]];
      var w := WorstOf(runs[..n], path);
      if !w.Blank? {
        var r :| r in runs[..n] && r.path == path && r.status == w;
        assert r in runs;
      }
      assert runs[n] in runs;
    }
  }

  function ChunkWorst(c: Chunk, path: Path): Reported {
    WorstOf(c.runs, path)
  }

  /** A chunk's worst status that no other chunk's exceeds. */
  ghost predicate IsTop(chunks: seq<Chunk>, path: Path, c: Chunk) {
    && c in chunks && !ChunkWorst(c, path).Blank?
    && forall d :: d in chunks ==> Rank(ChunkWorst(d, path)) <= Rank(ChunkWorst(c, path))
  }

  ghost predicate AllBlank(chunks: seq<Chunk>, path: Path) {
    forall c :: c in chunks ==> ChunkWorst(c, path).Blank?
  }

  /** The merged worst status is that of a top chunk, if any chunk has one. */
  lemma {:induction false} WorstOfChunks(chunks: seq<Chunk>, path: Path)
    ensures var w := WorstOf(AllRuns(chunks), path);
            if w.Blank? then AllBlank(chunks, path)
            else exists c :: IsTop(chunks, path, c) && ChunkWorst(c, path) == w
  {
    if chunks != [] {
      var n := |chunks| - 1;
      var before, last := chunks[..n], chunks[n];
      WorstOfChunks(before, path);
      WorstConcat(AllRuns(before), last.runs, path);
      assert chunks == before + [last];
      WorstNext(before, last, path);
    }
  }

  lemma WorstNext(before: seq<Chunk>, last: Chunk, path: Path)
    requires var w := WorstOf(AllRuns(before), path);
             if w.Blank? then AllBlank(before, path)
             else exists c :: IsTop(before, path, c) && ChunkWorst(c, path) == w
    ensures var w := Worse(WorstOf(AllRuns(before), path), ChunkWorst(last, path));
            if w.Blank? then AllBlank(before + [last], path)
            else exists c :: IsTop(before + [last], path, c) && ChunkWorst(c, path) == w
  {
    var w, x := WorstOf(AllRuns(before), path), ChunkWorst(last, path);
    var chunks := before + [last];
    assert last in chunks && forall d :: d in chunks <==> d in before || d == last;
    if !w.Blank? && Worse(w, x) == w {
      var c :| IsTop(before, path, c) && ChunkWorst(c, path) == w;
      assert IsTop(chunks, path, c);
    } else if !Worse(w, x).Blank? {
      assert forall d :: d in before ==> Rank(ChunkWorst(d, path)) <= Rank(w);
      assert IsTop(chunks, path, last);
    }
  }

  ghost predicate TopsAgree(chunks: seq<Chunk>, path: Path) {
    forall c, d :: IsTop(chunks, path, c) && IsTop(chunks, path, d) ==> ChunkWorst(c, path) == ChunkWorst(d, path)
  }

  /**
    The worst status of a path is the same in every order of the chunks exactly when all
    chunks whose own worst has the highest rank report the same: unknown statuses of
    equal rank go to whoever comes first.
   */
  lemma StatusOrder(chunks: seq<Chunk>, path: Path)
    ensures (forall p :: Reorders(p, chunks) ==> WorstOf(AllRuns(p), path) == WorstOf(AllRuns(chunks), path))
            <==> TopsAgree(chunks, path)
  {
    if TopsAgree(chunks, path) {
      forall p | Reorders(p, chunks)
        ensures WorstOf(AllRuns(p), path) == WorstOf(AllRuns(chunks), path)
      {
        SameTops(p, chunks, path);
        WorstOfChunks(p, path);
        WorstOfChunks(chunks, path);
      }
    } else {
      var c, d :| IsTop(chunks, path, c) && IsTop(chunks, path, d) && ChunkWorst(c, path) != ChunkWorst(d, path);
      var p := Leading(chunks, c);
      var q := Leading(chunks, d);
      FirstTopWins(p, chunks, path);
      FirstTopWins(q, chunks, path);
      assert Reorders(p, chunks) && Reorders(q, chunks);
    }
  }

  lemma SameTops(p: seq<Chunk>, chunks: seq<Chunk>, path: Path)
    requires Reorders(p, chunks)
    ensures forall c :: IsTop(p, path, c) <==> IsTop(chunks, path, c)
    ensures AllBlank(p, path) <==> AllBlank(chunks, path)
    ensures AllBlank(chunks, path) ==> forall c :: !IsTop(chunks, path, c)
  {
    SameChunks(p, chunks);
  }

  lemma FirstTopWins(p: seq<Chunk>, chunks: seq<Chunk>, path: Path)
    requires Reorders(p, chunks) && p != [] && IsTop(chunks, path, p[0])
    ensures WorstOf(AllRuns(p), path) == ChunkWorst(p[0], path)
  {
    SameTops(p, chunks, path);
    PrefixWorst(p, |p|, path);
    assert p[..|p|] == p;
  }

  lemma {:induction false} PrefixWorst(p: seq<Chunk>, n: nat, path: Path)
    requires 1 <= n <= |p| && IsTop(p, path, p[0])
    ensures WorstOf(AllRuns(p[..n]), path) == ChunkWorst(p[0], path)
  {
    var q := p[..n];
    if n == 1 {
      assert q[..0] == [] && AllRuns(q) == [] + p[0].runs == p[0].runs;
    } else {
      PrefixWorst(p, n - 1, path);
      assert q[..n - 1] == p[..n - 1] && q[n - 1] == p[n - 1] && p[n - 1] in p;
      WorstConcat(AllRuns(p[..n - 1]), p[n - 1].runs, path);
    }
  }

  /**
    The status is indeed an exception: a path whose attempts first succeed and then fail,
    cut between them, is merged as FAIL_TIMEOUT, and is PASS_WITH_FAILURES if not cut.
   */
  lemma CutChangesTheStatus(path: Path, sample: real, failed: Failures, spans: nat)
    returns (c: Chunk, d: Chunk, a: Run, b: Run, whole: Run)
    requires failed.Total() > 0
    ensures c.runs == [a] && d.runs == [b] && OwnStatus(a) && OwnStatus(b) && OwnStatus(whole)
    ensures IsCutOf([c, d], whole) && whole.path == path && whole.status == Usual(PassWithFailures)
    ensures Merge([c, d]).Merged? && path in Merge([c, d]).results
            && Merge([c, d]).results[path].status == Usual(FailTimeout)
  {
    a := Run(path, spans, [sample], NONE, Usual(Pass));
    b := Run(path, spans, [], NONE.(failures := failed), Usual(FailTimeout));
    whole := Run(path, spans, a.samples + b.samples, a.tally.Plus(b.tally), Usual(PassWithFailures));
    c, d := Chunk(spans, Unset, [a]), Chunk(spans, Unset, [b]);
    assert whole.samples != [] by {
      assert whole.samples[0] == sample;
    }
    CutInTwo(c, d, a, b, whole, Usual(FailTimeout));
  }

  /** The run reports the status it earned. */
  predicate OwnStatus(r: Run) {
    r.status == Usual(EarnedStatus(r.samples != [], r.tally.failures.Total()))
  }

  lemma CutInTwo(c: Chunk, d: Chunk, a: Run, b: Run, whole: Run, status: Reported)
    requires c.runs == [a] && d.runs == [b] && SameSetup(d, c)
    requires a.path == b.path == whole.path && a.spans == b.spans == whole.spans
    requires whole.samples == a.samples + b.samples && whole.tally == a.tally.Plus(b.tally)
    requires status ==
             FinalStatus(Worse(a.status, b.status), EarnedStatus(whole.samples != [], whole.tally.failures.Total()))
    ensures IsCutOf([c, d], whole) && Merge([c, d]).Merged? && whole.path in Merge([c, d]).results
    ensures Merge([c, d]).results[whole.path].status == status
  {
    SummaryStatus(whole.samples, whole.tally.failures, whole.spans);
    TwoRuns(c, d, a, b);
    TwoOfPath(a, b);
    TwoAccepted(c, d, a, b);
    MergedPaths([c, d], whole.path);
    assert AllRuns([c, d])[0] == a;
  }

  /** What two runs of one path amount to. */
  lemma TwoOfPath(a: Run, b: Run)
    requires a.path == b.path
    ensures SamplesOf([a, b], a.path) == a.samples + b.samples
    ensures TallyOf([a, b], a.path) == a.tally.Plus(b.tally)
    ensures WorstOf([a, b], a.path) == Worse(a.status, b.status)
    ensures HasPath([a, b], a.path)
  {
    assert [a, b] == [a] + [b] && [a, b][0] == a;
    OneOfPath(a);
    OneOfPath(b);
    SamplesConcat([a], [b], a.path);
    TallyConcat([a], [b], a.path);
    WorstConcat([a], [b], a.path);
  }

  lemma OneOfPath(r: Run)
    ensures SamplesOf([r], r.path) == r.samples && TallyOf([r], r.path) == r.tally && WorstOf([r], r.path) == r.status
  {
    OnePool(r);
    PoolAt([r], r.path);
  }

  lemma TwoAccepted(c: Chunk, d: Chunk, a: Run, b: Run)
    requires AllRuns([c, d]) == [a, b] && a.spans == b.spans && SameSetup(d, c)
    ensures Compatible([c, d])
  {
  }

  lemma TwoRuns(c: Chunk, d: Chunk, a: Run, b: Run)
    requires c.runs == [a] && d.runs == [b]
    ensures AllRuns([c, d]) == [a, b]
  {
    var chunks := [c, d];
    assert chunks[..1] == [c] && [c][..0] == [];
    assert AllRuns([c]) == [] + [a];
  }

  // ---- isolation ----

  ghost predicate Apart(a: seq<Run>, b: seq<Run>) {
    forall r, q :: r in a && q in b ==> r.path != q.path
  }

  ghost predicate AllApart(chunks: seq<Chunk>) {
    forall i, j :: 0 <= i < j < |chunks| ==> Apart(chunks[i].runs, chunks[j].runs)
  }

  /** What the documentation of `isCrossPathIsolated` asks for: chunks with disjoint sets of paths. */
  ghost predicate DocumentedIsolated(chunks: seq<Chunk>) {
    |chunks| >= 2 && (forall i :: 0 <= i < |chunks| ==> chunks[i].runs != []) && AllApart(chunks)
  }

  ghost predicate NoRepeats(chunks: seq<Chunk>) {
    forall i :: 0 <= i < |chunks| ==> DistinctPaths(chunks[i].runs)
  }

  lemma DistinctConcat(a: seq<Run>, b: seq<Run>)
    ensures DistinctPaths(a + b) <==> DistinctPaths(a) && DistinctPaths(b) && Apart(a, b)
  {
    var ab := a + b;
    assert forall i :: 0 <= i < |a| ==> ab[i] == a[i];
    assert forall i :: 0 <= i < |b| ==> ab[|a| + i] == b[i];
    if DistinctPaths(ab) {
      forall i, j | 0 <= i < |a| && 0 <= j < |b|
        ensures a[i].path != b[j].path
      {
        assert ab[i].path != ab[|a| + j].path;
      }
    }
  }

  lemma ApartFromAll(chunks: seq<Chunk>, b: seq<Run>)
    ensures Apart(AllRuns(chunks), b) <==> forall i :: 0 <= i < |chunks| ==> Apart(chunks[i].runs, b)
  {
    forall r: Run
      ensures r in AllRuns(chunks) <==> exists i :: 0 <= i < |chunks| && r in chunks[i].runs
    {
      RunsInSome(chunks, r);
    }
  }

  lemma {:induction false} DistinctIff(chunks: seq<Chunk>)
    ensures DistinctPaths(AllRuns(chunks)) <==> AllApart(chunks) && NoRepeats(chunks)
  {
    if chunks != [] {
      var n := |chunks| - 1;
      var before, last := chunks[..n], chunks[n].runs;
      DistinctIff(before);
      DistinctConcat(AllRuns(before), last);
      ApartFromAll(before, last);
      ApartSnoc(chunks);
    }
  }

  lemma ApartSnoc(chunks: seq<Chunk>)
    requires chunks != []
    ensures var n := |chunks| - 1;
            AllApart(chunks) <==>
            AllApart(chunks[..n]) && forall i :: 0 <= i < n ==> Apart(chunks[..n][i].runs, chunks[n].runs)
    ensures var n := |chunks| - 1; NoRepeats(chunks) <==> NoRepeats(chunks[..n]) && DistinctPaths(chunks[n].runs)
  {
    var n := |chunks| - 1;
    assert forall i :: 0 <= i < n ==> chunks[..n][i] == chunks[i];
  }

  /** The code asks for more: it agrees with its documentation unless isolated chunks repeat a path within one of them. */
  lemma IsolationIff(chunks: seq<Chunk>)
    ensures Isolated(chunks) <==> DocumentedIsolated(chunks) && NoRepeats(chunks)
    ensures (Isolated(chunks) <==> DocumentedIsolated(chunks)) <==> !DocumentedIsolated(chunks) || NoRepeats(chunks)
  {
    DistinctIff(chunks);
  }

  /** Such chunks: a path twice in the first, and another path in the second. */
  lemma RepeatedPathRefused(c: Chunk, d: Chunk, a: Run, again: Run, b: Run)
    requires c.runs == [a, again] && a.path == again.path && d.runs == [b] && b.path != a.path
    ensures DocumentedIsolated([c, d]) && !Isolated([c, d])
  {
    IsolationIff([c, d]);
    assert c.runs[0].path == c.runs[1].path && [c, d][0] == c;
  }
}

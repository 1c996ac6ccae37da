/** The merge of the chunk files of one benchmark. */
module BenchMerge {
  import opened BenchStats

  datatype Path = Path(name: string)

  /** The statuses a chunk file may report; `Blank` is the empty string. */
  datatype Reported =
    | Blank
    | Usual(status: Status)
    | FailDial
    | FailHandshake
    | OtherFail(name: string)  // any other name that starts with FAIL
    | Other(name: string)

  function Rank(r: Reported): nat {
    match r
    case Usual(PassWithFailures) => 1
    case Usual(FailTimeout) => 2
    case FailDial => 3
    case FailHandshake => 4
    case Usual(FailNoData) => 5
    case OtherFail(_) => 6
    case _ => 0
  }

  predicate IsWorseStatus(a: Reported, b: Reported) {
    Rank(a) > Rank(b)
  }

  /** Keep x unless it is blank or y is worse. */
  function Worse(x: Reported, y: Reported): Reported {
    if x.Blank? || IsWorseStatus(y, x) then y else x
  }

  /** The protocol counters of a path. */
  datatype Udp = Udp(sent: nat, acked: nat, retransmits: nat, dropped: nat) {
    function Plus(u: Udp): Udp {
      Udp(sent + u.sent, acked + u.acked, retransmits + u.retransmits, dropped + u.dropped)
    }
  }

  /** What is added up over the runs of a path. */
  datatype Tally = Tally(failures: Failures, udp: Udp, wallClock: real) {
    function Plus(t: Tally): Tally {
      Tally(failures.Plus(t.failures), udp.Plus(t.udp), wallClock + t.wallClock)
    }
  }

  const NONE := Tally(Failures(0, 0, 0), Udp(0, 0, 0, 0), 0.0)

  datatype Run = Run(path: Path, spans: nat, samples: seq<real>, tally: Tally, status: Reported)

  /** The empty `bench_mode` of older files is no mode. */
  datatype Mode = Unset | Mode(name: string)

  datatype Chunk = Chunk(spans: nat, mode: Mode, runs: seq<Run>)

  function AllRuns(chunks: seq<Chunk>): seq<Run> {
    if chunks == [] then [] else AllRuns(chunks[..|chunks| - 1]) + chunks[|chunks| - 1].runs
  }

  /** A path's samples, in the order the runs list them. */
  function SamplesOf(runs: seq<Run>, path: Path): seq<real> {
    if runs == [] then []
    else
      var n := |runs| - 1;
      SamplesOf(runs[..n], path) + if runs[n].path == path then runs[n].samples else []
  }

  function TallyOf(runs: seq<Run>, path: Path): Tally {
    if runs == [] then NONE
    else
      var n := |runs| - 1;
      var before := TallyOf(runs[..n], path);
      if runs[n].path == path then before.Plus(runs[n].tally) else before
  }

  /** The worst status of a path, as the loop keeps it. */
  function WorstOf(runs: seq<Run>, path: Path): Reported {
    if runs == [] then Blank
    else
      var n := |runs| - 1;
      var before := WorstOf(runs[..n], path);
      if runs[n].path == path then Worse(before, runs[n].status) else before
  }

  predicate SpansAgree(runs: seq<Run>) {
    forall i, j :: 0 <= i < |runs| && 0 <= j < |runs| && runs[i].path == runs[j].path ==> runs[i].spans == runs[j].spans
  }

  predicate SameSetup(c: Chunk, first: Chunk) {
    c.spans == first.spans && (c.mode.Unset? || first.mode.Unset? || c.mode == first.mode)
  }

  /** The chunks `mergeChunks` agrees to merge. */
  predicate Compatible(chunks: seq<Chunk>) {
    && chunks != []
    && (forall i :: 0 <= i < |chunks| ==> SameSetup(chunks[i], chunks[0]))
    && SpansAgree(AllRuns(chunks))
  }

  datatype Pool = Pool(samples: seq<real>, tally: Tally, spans: nat, worst: Reported)

  /** One run joins its path's pool. */
  function Pooling(pools: map<Path, Pool>, r: Run): map<Path, Pool> {
    var before := if r.path in pools then pools[r.path] else Pool([], NONE, r.spans, Blank);
    pools[r.path := Pool(before.samples + r.samples, before.tally.Plus(r.tally), r.spans, Worse(before.worst, r.status))]
  }

  function PoolsOf(runs: seq<Run>): map<Path, Pool> {
    if runs == [] then map[] else Pooling(PoolsOf(runs[..|runs| - 1]), runs[|runs| - 1])
  }

  predicate HasPath(runs: seq<Run>, path: Path) {
    exists i :: 0 <= i < |runs| && runs[i].path == path
  }

  /** A path's pool holds exactly what its runs contribute, and the span count of one of them. */
  lemma {:induction false} PoolAt(runs: seq<Run>, path: Path)
    ensures path in PoolsOf(runs) <==> HasPath(runs, path)
    ensures path in PoolsOf(runs) ==>
              PoolsOf(runs)[path].samples == SamplesOf(runs, path)
              && PoolsOf(runs)[path].tally == TallyOf(runs, path)
              && PoolsOf(runs)[path].worst == WorstOf(runs, path)
              && exists i :: 0 <= i < |runs| && runs[i].path == path && runs[i].spans == PoolsOf(runs)[path].spans
  {
    if runs != [] {
      var n := |runs| - 1;
      PoolAt(runs[..n], path);
      if path in PoolsOf(runs[..n]) {
        var i :| 0 <= i < n && runs[..n][i].path == path && runs[..n][i].spans == PoolsOf(runs[..n])[path].spans;
        assert runs[i].path == path && runs[i].spans == PoolsOf(runs[..n])[path].spans;
      } else {
        Absent(runs[..n], path);
      }
      if runs[n].path == path {
        assert HasPath(runs, path) && runs[n].spans == PoolsOf(runs)[path].spans;
      } else if HasPath(runs, path) {
        var i :| 0 <= i < |runs| && runs[i].path == path;
        assert runs[..n][i].path == path;
      }
    }
  }

  /** The code's test against the pool notices exactly the runs that disagree with an earlier one. */
  lemma AgreeNext(runs: seq<Run>, r: Run)
    requires SpansAgree(runs)
    ensures SpansAgree(runs + [r]) <==> !(r.path in PoolsOf(runs) && PoolsOf(runs)[r.path].spans != r.spans)
  {
    var more := runs + [r];
    PoolAt(runs, r.path);
    assert forall i :: 0 <= i < |runs| ==> more[i] == runs[i];
    assert more[|runs|] == r;
    if r.path in PoolsOf(runs) {
      var i :| 0 <= i < |runs| && runs[i].path == r.path && runs[i].spans == PoolsOf(runs)[r.path].spans;
      assert more[i].path == more[|runs|].path;
    }
  }

  lemma {:induction false} Absent(runs: seq<Run>, path: Path)
    requires forall i :: 0 <= i < |runs| ==> runs[i].path != path
    ensures SamplesOf(runs, path) == [] && TallyOf(runs, path) == NONE && WorstOf(runs, path) == Blank
  {
    if runs != [] {
      Absent(runs[..|runs| - 1], path);
    }
  }

  /** Pools every path over the chunks, or refuses chunks of different workloads. */
  method PoolChunks(chunks: seq<Chunk>) returns (ok: bool, pools: map<Path, Pool>)
    ensures ok <==> Compatible(chunks)
    ensures ok ==> pools == PoolsOf(AllRuns(chunks))
  {
    pools := map[];
    if chunks == [] {
      return false, pools;
    }
    for i := 1 to |chunks|
      invariant forall k :: 0 <= k < i ==> SameSetup(chunks[k], chunks[0])
    {
      if !SameSetup(chunks[i], chunks[0]) {
        return false, pools;
      }
    }
    for i := 0 to |chunks|
      invariant pools == PoolsOf(AllRuns(chunks[..i])) && SpansAgree(AllRuns(chunks[..i]))
    {
      assert chunks[..i + 1][..i] == chunks[..i];
      ok, pools := PoolRuns(pools, chunks[i].runs, AllRuns(chunks[..i]));
      if !ok {
        RunsPrefix(chunks, i + 1);
        PrefixDisagrees(AllRuns(chunks[..i + 1]), AllRuns(chunks));
        return;
      }
    }
    assert chunks[..|chunks|] == chunks;
    ok := true;
  }

  /** The inner loop: the results of one chunk. */
  method PoolRuns(start: map<Path, Pool>, runs: seq<Run>, ghost done: seq<Run>)
    returns (ok: bool, pools: map<Path, Pool>)
    requires start == PoolsOf(done) && SpansAgree(done)
    ensures ok <==> SpansAgree(done + runs)
    ensures ok ==> pools == PoolsOf(done + runs)
  {
    pools := start;
    assert done + runs[..0] == done;
    for j := 0 to |runs|
      invariant pools == PoolsOf(done + runs[..j]) && SpansAgree(done + runs[..j])
    {
      NextPool(done, runs, j);
      if runs[j].path in pools && pools[runs[j].path].spans != runs[j].spans {
        return false, pools;
      }
      pools := Pooling(pools, runs[j]);
    }
    assert runs[..|runs|] == runs;
    ok := true;
  }

  /** One turn of the inner loop. */
  lemma NextPool(done: seq<Run>, runs: seq<Run>, j: nat)
    requires j < |runs| && SpansAgree(done + runs[..j])
    ensures var pools, r := PoolsOf(done + runs[..j]), runs[j];
            if r.path in pools && pools[r.path].spans != r.spans then !SpansAgree(done + runs)
            else SpansAgree(done + runs[..j + 1]) && PoolsOf(done + runs[..j + 1]) == Pooling(pools, r)
  {
    var sofar, more := done + runs[..j], done + runs[..j + 1];
    assert more == sofar + [runs[j]] && more[..|sofar|] == sofar;
    AgreeNext(sofar, runs[j]);
    if !SpansAgree(more) {
      PrefixDisagrees(more, done + runs);
    }
  }

  lemma PrefixDisagrees(a: seq<Run>, b: seq<Run>)
    requires a <= b && !SpansAgree(a)
    ensures !SpansAgree(b)
  {
    var i, j :| 0 <= i < |a| && 0 <= j < |a| && a[i].path == a[j].path && a[i].spans != a[j].spans;
    assert b[i] == a[i] && b[j] == a[j];
  }

  /** Everything measured about a path. */
  datatype Measures = Measures(stats: Stats, udp: Udp, wallClock: real, spansPerSecondWall: real)

  /** Throughput by the stopwatch counts every attempt. */
  function WallThroughput(attempted: nat, spans: nat, seconds: real): real {
    if seconds > 0.0 && attempted > 0 && spans > 0 then Round1(attempted as real * spans as real / seconds) else 0.0
  }

  function Measured(samples: seq<real>, tally: Tally, spans: nat): Measures {
    var stats := Summary(samples, tally.failures, spans);
    Measures(stats, tally.udp, if tally.wallClock > 0.0 then Round3(tally.wallClock) else 0.0,
             WallThroughput(stats.attempted, spans, tally.wallClock))
  }

  /** A failure reported by some run overrides the recomputed status. */
  function FinalStatus(worst: Reported, recomputed: Status): Reported {
    if worst.Blank? || worst == Usual(Pass) || worst == Usual(PassWithFailures) then Usual(recomputed) else worst
  }

  datatype PathResult = PathResult(measures: Measures, status: Reported)

  function Summarized(pool: Pool): PathResult {
    var m := Measured(pool.samples, pool.tally, pool.spans);
    PathResult(m, FinalStatus(pool.worst, m.stats.status))
  }

  function SummariesOf(pools: map<Path, Pool>): map<Path, PathResult> {
    map p | p in pools :: Summarized(pools[p])
  }

  /** The loop over the paths, in whatever order. */
  method MapValues<K, A, B>(m: map<K, A>, f: A -> B) returns (r: map<K, B>)
    ensures r == map k | k in m :: f(m[k])
  {
    r := map[];
    var rest := m.Keys;
    while rest != {}
      invariant rest <= m.Keys && r.Keys == m.Keys - rest
      invariant forall k :: k in r ==> r[k] == f(m[k])
      decreases |rest|
    {
      var k :| k in rest;
      r := r[k := f(m[k])];
      rest := rest - {k};
    }
  }

  datatype Outcome = Refused | Merged(results: map<Path, PathResult>)

  function Merge(chunks: seq<Chunk>): Outcome {
    if Compatible(chunks) then Merged(SummariesOf(PoolsOf(AllRuns(chunks)))) else Refused
  }

  /** `mergeChunks`: pool, then summarise each path with the code that summarises a live run. */
  method MergeChunks(chunks: seq<Chunk>) returns (r: Outcome)
    ensures r == Merge(chunks)
  {
    var ok, pools := PoolChunks(chunks);
    if !ok {
      return Refused;
    }
    var results := MapValues(pools, Summarized);
    r := Merged(results);
  }

  /** The result has exactly the paths that occur, each summarised from all its runs. */
  lemma MergedPaths(chunks: seq<Chunk>, p: Path)
    requires Merge(chunks).Merged?
    ensures var results, all := Merge(chunks).results, AllRuns(chunks);
            && (p in results <==> HasPath(all, p))
            && forall i :: 0 <= i < |all| && all[i].path == p ==>
                 && p in results
                 && results[p] == Summarized(Pool(SamplesOf(all, p), TallyOf(all, p), all[i].spans, WorstOf(all, p)))
  {
    PoolAt(AllRuns(chunks), p);
  }

  predicate DistinctPaths(runs: seq<Run>) {
    forall i, j :: 0 <= i < j < |runs| ==> runs[i].path != runs[j].path
  }

  /** No path occurs twice, not even within one chunk, and no chunk is empty. */
  predicate Isolated(chunks: seq<Chunk>) {
    |chunks| >= 2 && (forall i :: 0 <= i < |chunks| ==> chunks[i].runs != []) && DistinctPaths(AllRuns(chunks))
  }

  method IsCrossPathIsolated(chunks: seq<Chunk>) returns (isolated: bool)
    ensures isolated <==> Isolated(chunks)
  {
    if |chunks| < 2 {
      return false;
    }
    var seen: set<Path> := {};
    ghost var done: seq<Run> := [];
    for i := 0 to |chunks|
      invariant done == AllRuns(chunks[..i]) && DistinctPaths(done)
      invariant forall k :: 0 <= k < i ==> chunks[k].runs != []
      invariant forall p :: p in seen <==> exists k :: 0 <= k < |done| && done[k].path == p
    {
      var runs := chunks[i].runs;
      if runs == [] {
        return false;
      }
      RunsPrefix(chunks, i + 1);
      assert chunks[..i + 1][..i] == chunks[..i];
      for j := 0 to |runs|
        invariant done == AllRuns(chunks[..i]) + runs[..j] && DistinctPaths(done)
        invariant forall p :: p in seen <==> exists k :: 0 <= k < |done| && done[k].path == p
      {
        var r := runs[j];
        if r.path in seen {
          Repeated(chunks, i, j, done);
          return false;
        }
        AddedPath(done, r, seen);
        assert AllRuns(chunks[..i]) + runs[..j] + [r] == AllRuns(chunks[..i]) + runs[..j + 1];
        seen := seen + {r.path};
        done := done + [r];
      }
      assert runs[..|runs|] == runs;
    }
    assert chunks[..|chunks|] == chunks;
    isolated := true;
  }

  lemma AddedPath(done: seq<Run>, r: Run, seen: set<Path>)
    requires forall p :: p in seen <==> exists k :: 0 <= k < |done| && done[k].path == p
    requires DistinctPaths(done) && r.path !in seen
    ensures DistinctPaths(done + [r])
    ensures forall p :: p in seen + {r.path} <==> exists k :: 0 <= k < |done + [r]| && (done + [r])[k].path == p
  {
    var more := done + [r];
    assert more[|done|] == r;
    forall p
      ensures p in seen + {r.path} <==> exists k :: 0 <= k < |more| && more[k].path == p
    {
      if p in seen {
        var k :| 0 <= k < |done| && done[k].path == p;
        assert more[k].path == p;
      }
      if k :| 0 <= k < |more| && more[k].path == p {
        assert k < |done| ==> done[k].path == p;
      }
    }
  }

  lemma Repeated(chunks: seq<Chunk>, i: nat, j: nat, done: seq<Run>)
    requires i < |chunks| && j < |chunks[i].runs| && done == AllRuns(chunks[..i]) + chunks[i].runs[..j]
    requires exists k :: 0 <= k < |done| && done[k].path == chunks[i].runs[j].path
    ensures !DistinctPaths(AllRuns(chunks))
  {
    NextRun(chunks, i, j, done);
    var k :| 0 <= k < |done| && done[k].path == chunks[i].runs[j].path;
    assert AllRuns(chunks)[k].path == AllRuns(chunks)[|done|].path;
  }

  /** Where the loops stand: `done` is a prefix of all runs, and the next run follows it. */
  lemma NextRun(chunks: seq<Chunk>, i: nat, j: nat, done: seq<Run>)
    requires i < |chunks| && j < |chunks[i].runs| && done == AllRuns(chunks[..i]) + chunks[i].runs[..j]
    ensures done + [chunks[i].runs[j]] <= AllRuns(chunks)
    ensures AllRuns(chunks)[|done|] == chunks[i].runs[j]
    ensures forall k :: 0 <= k < |done| ==> AllRuns(chunks)[k] == done[k]
  {
    RunsPrefix(chunks, i + 1);
    assert chunks[..i + 1][..i] == chunks[..i];
    assert AllRuns(chunks[..i + 1]) == AllRuns(chunks[..i]) + chunks[i].runs;
  }

  lemma {:induction false} RunsPrefix(chunks: seq<Chunk>, i: nat)
    requires i <= |chunks|
    ensures AllRuns(chunks[..i]) <= AllRuns(chunks)
    decreases |chunks|
  {
    if i == |chunks| {
      assert chunks[..i] == chunks;
    } else {
      var n := |chunks| - 1;
      RunsPrefix(chunks[..n], i);
      assert chunks[..n][..i] == chunks[..i];
    }
  }
}

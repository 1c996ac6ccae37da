/** The counters of a merged path are the sums of its runs' counters. */
module MergeSums {
  import opened BenchStats
  import opened BenchMerge

  datatype Field = Timeouts | NonOK | OtherErrors | UdpSent | UdpAcked | UdpRetransmits | UdpDropped

  function Read(t: Tally, f: Field): nat {
    match f
    case Timeouts => t.failures.timeouts
    case NonOK => t.failures.nonOK
    case OtherErrors => t.failures.other
    case UdpSent => t.udp.sent
    case UdpAcked => t.udp.acked
    case UdpRetransmits => t.udp.retransmits
    case UdpDropped => t.udp.dropped
  }

  /** A field added up over the runs of a path. */
  function FieldSum(runs: seq<Run>, path: Path, f: Field): nat {
    if runs == [] then 0
    else
      var n := |runs| - 1;
      FieldSum(runs[..n], path, f) + if runs[n].path == path then Read(runs[n].tally, f) else 0
  }

  function WallSum(runs: seq<Run>, path: Path): real {
    if runs == [] then 0.0
    else
      var n := |runs| - 1;
      WallSum(runs[..n], path) + if runs[n].path == path then runs[n].tally.wallClock else 0.0
  }

  function SampleCount(runs: seq<Run>, path: Path): nat {
    if runs == [] then 0
    else
      var n := |runs| - 1;
      SampleCount(runs[..n], path) + if runs[n].path == path then |runs[n].samples| else 0
  }

  lemma {:induction false} FieldIsSum(runs: seq<Run>, path: Path, f: Field)
    ensures Read(TallyOf(runs, path), f) == FieldSum(runs, path, f)
  {
    if runs != [] {
      FieldIsSum(runs[..|runs| - 1], path, f);
    }
  }

  lemma {:induction false} WallIsSum(runs: seq<Run>, path: Path)
    ensures TallyOf(runs, path).wallClock == WallSum(runs, path)
  {
    if runs != [] {
      WallIsSum(runs[..|runs| - 1], path);
    }
  }

  lemma {:induction false} SamplesCounted(runs: seq<Run>, path: Path)
    ensures |SamplesOf(runs, path)| == SampleCount(runs, path)
  {
    if runs != [] {
      SamplesCounted(runs[..|runs| - 1], path);
    }
  }

  /** Every counter is the sum over the path's runs, and the attempts are the samples and the failures together. */
  lemma MergedCounts(chunks: seq<Chunk>, p: Path)
    requires Merge(chunks).Merged? && p in Merge(chunks).results
    ensures var m, all := Merge(chunks).results[p].measures, AllRuns(chunks);
            && m.stats.n == SampleCount(all, p)
            && m.stats.failures == Failures(FieldSum(all, p, Timeouts), FieldSum(all, p, NonOK), FieldSum(all, p, OtherErrors))
            && m.stats.attempted == SampleCount(all, p) + FieldSum(all, p, Timeouts) + FieldSum(all, p, NonOK)
                                    + FieldSum(all, p, OtherErrors)
            && m.udp == Udp(FieldSum(all, p, UdpSent), FieldSum(all, p, UdpAcked),
                            FieldSum(all, p, UdpRetransmits), FieldSum(all, p, UdpDropped))
  {
    var all := AllRuns(chunks);
    var i := PathRun(chunks, p);
    var t := TallyOf(all, p);
    CountsMeaning(SamplesOf(all, p), t.failures, all[i].spans);
    SamplesCounted(all, p);
    TallyIs(all, p);
  }

  lemma TallyIs(runs: seq<Run>, path: Path)
    ensures var t := TallyOf(runs, path);
            && t.failures == Failures(FieldSum(runs, path, Timeouts), FieldSum(runs, path, NonOK), FieldSum(runs, path, OtherErrors))
            && t.udp == Udp(FieldSum(runs, path, UdpSent), FieldSum(runs, path, UdpAcked),
                            FieldSum(runs, path, UdpRetransmits), FieldSum(runs, path, UdpDropped))
  {
    FieldIsSum(runs, path, Timeouts);
    FieldIsSum(runs, path, NonOK);
    FieldIsSum(runs, path, OtherErrors);
    FieldIsSum(runs, path, UdpSent);
    FieldIsSum(runs, path, UdpAcked);
    FieldIsSum(runs, path, UdpRetransmits);
    FieldIsSum(runs, path, UdpDropped);
  }

  /** Some run of the path, and what the merge makes of it. */
  lemma PathRun(chunks: seq<Chunk>, p: Path) returns (i: nat)
    requires Merge(chunks).Merged? && p in Merge(chunks).results
    ensures var all := AllRuns(chunks);
            && i < |all| && all[i].path == p
            && Merge(chunks).results[p].measures == Measured(SamplesOf(all, p), TallyOf(all, p), all[i].spans)
  {
    MergedPaths(chunks, p);
    i :| 0 <= i < |AllRuns(chunks)| && AllRuns(chunks)[i].path == p;
  }

  ghost predicate IsWall(wall: real, perSecond: real, sum: real, attempted: nat, spans: nat) {
    if sum <= 0.0 then wall == 0.0 && perSecond == 0.0
    else
      && RoundedTo(wall, sum, 1000)
      && if attempted == 0 || spans == 0 then perSecond == 0.0
         else RoundedTo(perSecond, attempted as real * spans as real / sum, 10)
  }

  /** The wall clock is the sum, to the nearest thousandth, and the throughput by it counts every attempted span. */
  lemma MergedWall(chunks: seq<Chunk>, p: Path)
    requires Merge(chunks).Merged? && p in Merge(chunks).results
    ensures var m, all := Merge(chunks).results[p].measures, AllRuns(chunks);
            forall i :: 0 <= i < |all| && all[i].path == p ==>
              IsWall(m.wallClock, m.spansPerSecondWall, WallSum(all, p), m.stats.attempted, all[i].spans)
  {
    var all := AllRuns(chunks);
    WallIsSum(all, p);
    MergedPaths(chunks, p);
    forall i | 0 <= i < |all| && all[i].path == p
      ensures var m := Merge(chunks).results[p].measures;
              IsWall(m.wallClock, m.spansPerSecondWall, WallSum(all, p), m.stats.attempted, all[i].spans)
    {
      WallMeaning(SamplesOf(all, p), TallyOf(all, p), all[i].spans);
    }
  }

  lemma WallMeaning(samples: seq<real>, t: Tally, spans: nat)
    ensures var m := Measured(samples, t, spans);
            IsWall(m.wallClock, m.spansPerSecondWall, t.wallClock, m.stats.attempted, spans)
  {
    WallRounds(t.wallClock, Summary(samples, t.failures, spans).attempted, spans);
  }

  lemma WallRounds(sum: real, attempted: nat, spans: nat)
    ensures IsWall(if sum > 0.0 then Round3(sum) else 0.0, WallThroughput(attempted, spans, sum), sum, attempted, spans)
  {
    if sum > 0.0 {
      Thousandths(sum);
      if attempted > 0 && spans > 0 {
        Tenths(attempted as real * spans as real / sum);
      }
    }
  }

  /** The documented order of badness. */
  lemma StatusRanks(name: string)
    ensures IsWorseStatus(Usual(PassWithFailures), Usual(Pass)) && IsWorseStatus(Usual(FailTimeout), Usual(PassWithFailures))
    ensures IsWorseStatus(FailDial, Usual(FailTimeout)) && IsWorseStatus(FailHandshake, FailDial)
    ensures IsWorseStatus(Usual(FailNoData), FailHandshake) && IsWorseStatus(OtherFail(name), Usual(FailNoData))
    ensures Rank(Blank) == Rank(Usual(Pass)) == Rank(Other(name)) == 0
  {
  }
}

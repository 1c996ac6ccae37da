/**
  `sendChunkedSignal`: send a list as one datagram; if it is too long, in chunks of
  halving size; at last one record at a time. Records are abstract; `size` is the
  length of the marshalled envelope of a list. Attempts are numbered from 0, and `faults`
  says which of them meet a stalled window or a failing write; the first, whole attempt
  does not wait for the window.
 */
module Chunker {
  import opened Sequences
  import Packet

  datatype Fault = Fine | Stall | WriteError

  datatype Result = Ok | Oversize | Failed

  predicate Fits<T>(size: seq<T> -> nat, xs: seq<T>) {
    Packet.HEADER_V2 + size(xs) <= Packet.MAX_DATAGRAM
  }

  /** `sendSignal`: the size pre-check comes before the write. */
  method SendSignal<T>(size: seq<T> -> nat, faults: nat -> Fault, n: nat, xs: seq<T>) returns (r: Result)
    ensures r == Oversize <==> 14 + size(xs) > 65000
    ensures r == Failed <==> 14 + size(xs) <= 65000 && faults(n) == WriteError
  {
    r := if !Fits(size, xs) then Oversize else if faults(n) == WriteError then Failed else Ok;
  }

  // ---- one round ----

  /** Datagrams sent as consecutive full pieces of the list that each fit; only the end of the list is shorter. */
  ghost predicate Pieces<T>(size: seq<T> -> nat, sent: seq<seq<T>>, arr: seq<T>, limit: int) {
    && Flatten(sent) <= arr
    && AllFit(size, sent)
    && forall i :: 0 <= i < |sent| ==>
         0 < |sent[i]| <= limit && (|sent[i]| < limit ==> i == |sent| - 1 && Flatten(sent) == arr)
  }

  ghost predicate AllFit<T>(size: seq<T> -> nat, sent: seq<seq<T>>) {
    forall i :: 0 <= i < |sent| ==> Fits(size, sent[i])
  }

  /** The piece that comes after those sent. */
  function NextPiece<T>(sent: seq<seq<T>>, arr: seq<T>, limit: nat): seq<T>
    requires |Flatten(sent)| <= |arr|
  {
    var off := |Flatten(sent)|;
    arr[off..if off + limit > |arr| then |arr| else off + limit]
  }

  /** Every datagram of the round was written, its attempts being numbered from `start`. */
  ghost predicate Written(faults: nat -> Fault, start: nat, n: nat) {
    forall k: nat :: start <= k < start + n ==> faults(k) == Fine
  }

  /**
    How a round ends that started with attempt `start`: with the whole list written, or at
    the first attempt that does not succeed, because its piece is too long (it is then not
    written, so that only a stall could have stopped it earlier), because the window is
    stalled, or because the write fails.
   */
  ghost predicate RoundEnds<T>(
    r: Result, sent: seq<seq<T>>, arr: seq<T>, limit: nat, size: seq<T> -> nat, faults: nat -> Fault, start: nat)
    requires |Flatten(sent)| <= |arr|
  {
    var fault, piece := faults(start + |sent|), NextPiece(sent, arr, limit);
    match r
    case Ok => Flatten(sent) == arr
    case Oversize => |Flatten(sent)| < |arr| && fault != Stall && !Fits(size, piece)
    case Failed => |Flatten(sent)| < |arr| && (fault == Stall || (fault == WriteError && Fits(size, piece)))
  }

  /** One round with a fixed chunk size; it stops at the first chunk that is not written. */
  method SendRound<T>(arr: seq<T>, chunk: int, size: seq<T> -> nat, faults: nat -> Fault, start: nat)
    returns (r: Result, sent: seq<seq<T>>)
    requires chunk > 0
    ensures Pieces(size, sent, arr, chunk) && Written(faults, start, |sent|)
    ensures RoundEnds(r, sent, arr, chunk, size, faults, start)
  {
    sent := [];
    var off := 0;
    while off < |arr|
      invariant 0 <= off && Progress(size, sent, arr, chunk, off) && Written(faults, start, |sent|)
    {
      var end := off + chunk;
      if end > |arr| {
        end := |arr|;
      }
      PieceIs(size, sent, arr, chunk, off, end);
      if faults(start + |sent|) == Stall {
        return Failed, sent;
      }
      r := SendSignal(size, faults, start + |sent|, arr[off..end]);
      if r != Ok {
        return;
      }
      OnePiece(size, sent, arr, chunk, off, end);
      WrittenNext(faults, start, |sent|);
      sent := sent + [arr[off..end]];
      off := off + chunk;
    }
    r := Ok;
  }

  /** The records before `off` are out. */
  ghost predicate Progress<T>(size: seq<T> -> nat, sent: seq<seq<T>>, arr: seq<T>, limit: int, off: nat) {
    Pieces(size, sent, arr, limit) && Flatten(sent) == if off <= |arr| then arr[..off] else arr
  }

  lemma PieceIs<T>(size: seq<T> -> nat, sent: seq<seq<T>>, arr: seq<T>, limit: nat, off: nat, end: nat)
    requires off < end <= |arr| && (end == off + limit || end == |arr| < off + limit)
    requires Progress(size, sent, arr, limit, off)
    ensures |Flatten(sent)| == off && NextPiece(sent, arr, limit) == arr[off..end]
  {
  }

  lemma WrittenNext(faults: nat -> Fault, start: nat, n: nat)
    requires Written(faults, start, n) && faults(start + n) == Fine
    ensures Written(faults, start, n + 1)
  {
  }

  lemma OnePiece<T>(size: seq<T> -> nat, sent: seq<seq<T>>, arr: seq<T>, limit: int, off: nat, end: nat)
    requires off < end <= |arr| && (end == off + limit || end == |arr| < off + limit)
    requires Progress(size, sent, arr, limit, off) && Fits(size, arr[off..end])
    ensures Progress(size, sent + [arr[off..end]], arr, limit, off + limit)
  {
    FlattenSnoc(sent, arr[off..end]);
    assert arr[..off] + arr[off..end] == arr[..end];
    assert arr[..|arr|] == arr;
  }

  // ---- all rounds ----

  /** One attempt at the list, with chunks of at most `limit` records, from attempt `start` on. */
  datatype Round<T> = Round(limit: nat, start: nat, sent: seq<seq<T>>)

  function Halvings(chunk: int): nat {
    if chunk <= 0 then 0 else 1 + Halvings(chunk / 2)
  }

  /** Chunks of the given size first, then of half of it each time, and when that is nothing, of one record. */
  function NextLimit(limit: nat): nat {
    if limit / 2 == 0 then 1 else limit / 2
  }

  /** The round wrote what it lists and then met a piece that is too long. */
  ghost predicate Abandoned<T>(rd: Round<T>, arr: seq<T>, size: seq<T> -> nat, faults: nat -> Fault) {
    && Pieces(size, rd.sent, arr, rd.limit) && Written(faults, rd.start, |rd.sent|)
    && RoundEnds(Oversize, rd.sent, arr, rd.limit, size, faults, rd.start)
  }

  /** The rounds after the first attempt number their attempts without gaps; each but the last was abandoned. */
  ghost predicate Chain<T>(rounds: seq<Round<T>>, arr: seq<T>, chunkSize: int, size: seq<T> -> nat, faults: nat -> Fault) {
    && (rounds != [] ==> rounds[0].start == 1 && rounds[0].limit == if chunkSize > 0 then chunkSize else 1)
    && (forall j :: 0 <= j < |rounds| - 1 ==>
          && Abandoned(rounds[j], arr, size, faults)
          && rounds[j + 1].start == rounds[j].start + |rounds[j].sent| + 1
          && rounds[j + 1].limit == NextLimit(rounds[j].limit))
  }

  /** How the last round, and with it the whole call, ended. */
  ghost predicate LastEnds<T>(r: Result, rd: Round<T>, arr: seq<T>, size: seq<T> -> nat, faults: nat -> Fault) {
    && Pieces(size, rd.sent, arr, rd.limit) && Written(faults, rd.start, |rd.sent|)
    && RoundEnds(r, rd.sent, arr, rd.limit, size, faults, rd.start)
  }

  // ---- completeness ----

  ghost predicate SomeFault(faults: nat -> Fault) {
    exists n: nat :: faults(n) != Fine
  }

  /** Envelopes grow with their records. */
  ghost predicate Growing<T(!new)>(size: seq<T> -> nat) {
    forall xs: seq<T>, i: nat, j: nat :: i <= j <= |xs| ==> size(xs[i..j]) <= size(xs)
  }

  ghost predicate SinglesFit<T>(size: seq<T> -> nat, arr: seq<T>) {
    forall i :: 0 <= i < |arr| ==> Fits(size, [arr[i]])
  }

  /** If pieces that fit make up the list, each record alone fits. */
  lemma {:induction false} PiecesCoverSingles<T(!new)>(size: seq<T> -> nat, sent: seq<seq<T>>)
    requires Growing(size) && AllFit(size, sent)
    ensures SinglesFit(size, Flatten(sent))
  {
    if sent != [] {
      var n := |sent| - 1;
      PiecesCoverSingles(size, sent[..n]);
      var a, b := Flatten(sent[..n]), sent[n];
      forall i | 0 <= i < |a + b|
        ensures Fits(size, [(a + b)[i]])
      {
        if i >= |a| {
          assert b[i - |a|..i - |a| + 1] == [(a + b)[i]];
        }
      }
    }
  }

  /** A round of single records stops only at a record that does not fit alone. */
  lemma SingleStops<T>(size: seq<T> -> nat, sent: seq<seq<T>>, arr: seq<T>)
    requires |Flatten(sent)| < |arr| && !Fits(size, NextPiece(sent, arr, 1))
    ensures !SinglesFit(size, arr)
  {
    var off := |Flatten(sent)|;
    assert NextPiece(sent, arr, 1) == [arr[off]];
  }

  /** With failures only from size, success is decided by the single records. */
  lemma Completeness<T(!new)>(r: Result, rd: Round<T>, arr: seq<T>, size: seq<T> -> nat, faults: nat -> Fault)
    requires LastEnds(r, rd, arr, size, faults) && (r == Oversize ==> rd.limit == 1)
    requires Growing(size) && !SomeFault(faults)
    ensures r == Ok <==> SinglesFit(size, arr)
  {
    if r == Ok {
      PiecesCoverSingles(size, rd.sent);
    } else {
      assert faults(rd.start + |rd.sent|) == Fine;
      SingleStops(size, rd.sent, arr);
    }
  }

  /**
    The first attempt is the whole list; `rounds` are the further ones. If the first is not
    enough: the rounds before the last were abandoned at a piece too long, having written
    full prefixes of the list; the last ends as the call does. Success means that the whole
    list was written in order, by attempts that met no fault; failure names the attempt that
    met a stall or a failing write. There are at most one more rounds than halvings. With
    failures only from size, sending succeeds exactly when every single record fits.
   */
  method SendChunkedSignal<T(!new)>(arr: seq<T>, chunkSize: int, size: seq<T> -> nat, faults: nat -> Fault)
    returns (r: Result, rounds: seq<Round<T>>)
    ensures rounds == [] ==>
              && (r == Ok ==> Fits(size, arr) && faults(0) != WriteError)
              && (r == Oversize ==> arr == [] && !Fits(size, arr))
              && (r == Failed ==> Fits(size, arr) && faults(0) == WriteError)
    ensures rounds != [] ==> arr != [] && !Fits(size, arr) && LastEnds(r, rounds[|rounds| - 1], arr, size, faults)
    ensures Chain(rounds, arr, chunkSize, size, faults) && |rounds| <= 1 + Halvings(chunkSize)
    ensures rounds != [] && r == Oversize ==> rounds[|rounds| - 1].limit == 1
    ensures Growing(size) && !SomeFault(faults) && arr != [] ==> (r == Ok <==> SinglesFit(size, arr))
  {
    rounds := [];
    r := SendSignal(size, faults, 0, arr);
    if r != Oversize || arr == [] {
      if r == Ok && Growing(size) {
        assert [arr][..0] == [] && Flatten([arr]) == arr;
        PiecesCoverSingles(size, [arr]);
      }
      return;
    }
    r, rounds := SendRounds(arr, chunkSize, size, faults);
    if Growing(size) && !SomeFault(faults) {
      Completeness(r, rounds[|rounds| - 1], arr, size, faults);
    }
  }

  /** The loop over the chunk sizes. */
  method SendRounds<T>(arr: seq<T>, chunkSize: int, size: seq<T> -> nat, faults: nat -> Fault)
    returns (r: Result, rounds: seq<Round<T>>)
    ensures rounds != [] && LastEnds(r, rounds[|rounds| - 1], arr, size, faults)
    ensures Chain(rounds, arr, chunkSize, size, faults) && |rounds| <= 1 + Halvings(chunkSize)
    ensures r == Oversize ==> rounds[|rounds| - 1].limit == 1
  {
    rounds := [];
    var chunk, n: nat := chunkSize, 1;
    while chunk > 0
      invariant Sofar(rounds, arr, chunkSize, size, faults, chunk, n)
    {
      var sent;
      r, sent := SendRound(arr, chunk, size, faults, n);
      var rd := Round(chunk, n, sent);
      ChainNext(rounds, rd, arr, chunkSize, size, faults);
      if r != Oversize {
        rounds := rounds + [rd];
        return;
      }
      SofarNext(rounds, rd, arr, chunkSize, size, faults);
      rounds := rounds + [rd];
      n := n + |sent| + 1;
      chunk := chunk / 2;
    }
    // last resort: one record at a time, and an oversize record is final
    var sent;
    r, sent := SendRound(arr, 1, size, faults, n);
    var rd := Round(1, n, sent);
    ChainNext(rounds, rd, arr, chunkSize, size, faults);
    rounds := rounds + [rd];
  }

  /** Between two rounds: all so far were abandoned; the next has this chunk size, or single records, from attempt n on. */
  ghost predicate Sofar<T>(
    rounds: seq<Round<T>>, arr: seq<T>, chunkSize: int, size: seq<T> -> nat, faults: nat -> Fault, chunk: int, n: nat)
  {
    && Chain(rounds, arr, chunkSize, size, faults) && |rounds| + Halvings(chunk) <= Halvings(chunkSize)
    && AllAbandoned(rounds, arr, size, faults) && Upcoming(rounds, chunkSize, if chunk > 0 then chunk else 1, n)
  }

  lemma SofarNext<T>(rounds: seq<Round<T>>, rd: Round<T>, arr: seq<T>, chunkSize: int, size: seq<T> -> nat, faults: nat -> Fault)
    requires rd.limit > 0 && Sofar(rounds, arr, chunkSize, size, faults, rd.limit, rd.start)
    requires Abandoned(rd, arr, size, faults)
    ensures Sofar(rounds + [rd], arr, chunkSize, size, faults, rd.limit / 2, rd.start + |rd.sent| + 1)
  {
    ChainNext(rounds, rd, arr, chunkSize, size, faults);
  }

  ghost predicate AllAbandoned<T>(rounds: seq<Round<T>>, arr: seq<T>, size: seq<T> -> nat, faults: nat -> Fault) {
    forall j :: 0 <= j < |rounds| ==> Abandoned(rounds[j], arr, size, faults)
  }

  /** What the next round has to start with. */
  ghost predicate Upcoming<T>(rounds: seq<Round<T>>, chunkSize: int, limit: nat, start: nat) {
    if rounds == [] then start == 1 && limit == if chunkSize > 0 then chunkSize else 1
    else
      var last := rounds[|rounds| - 1];
      start == last.start + |last.sent| + 1 && limit == NextLimit(last.limit)
  }

  lemma ChainNext<T>(rounds: seq<Round<T>>, rd: Round<T>, arr: seq<T>, chunkSize: int, size: seq<T> -> nat, faults: nat -> Fault)
    requires Chain(rounds, arr, chunkSize, size, faults) && AllAbandoned(rounds, arr, size, faults)
    requires Upcoming(rounds, chunkSize, rd.limit, rd.start)
    ensures Chain(rounds + [rd], arr, chunkSize, size, faults)
  {
    var more := rounds + [rd];
    forall j | 0 <= j < |more| - 1
      ensures Abandoned(more[j], arr, size, faults)
      ensures more[j + 1].start == more[j].start + |more[j].sent| + 1 && more[j + 1].limit == NextLimit(more[j].limit)
    {
      assert more[j] == rounds[j];
      assert j + 1 < |rounds| ==> more[j + 1] == rounds[j + 1];
    }
  }
}

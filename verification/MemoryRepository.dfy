/** The whole board repository over in-memory arrays, with simulated outages. */
module MemoryRepository {
  import opened Options
  import opened Sequences
  import opened Sorting
  import opened Storage

  datatype Outcome<+T> = Done(value: T) | Outage

  datatype LoadedBoard<S, U> =
    LoadedBoard(present: bool, deleted: bool, snapshot: Option<Snapshot<S>>, updates: seq<Row<U>>, maxSeq: nat)

  datatype CompactionResult = CompactionResult(seqUpto: nat, compacted: nat)

  datatype SeqRange = SeqRange(firstSeq: nat, lastSeq: nat)

  // ----- rows picked by seq -----

  function Above<U>(n: int): Row<U> -> bool { (r: Row<U>) => r.seqNo > n }

  function UpTo<U>(n: int): Row<U> -> bool { (r: Row<U>) => r.seqNo <= n }

  /** The rows are numbered base + 1, base + 2, … */
  ghost predicate Contiguous<U>(rows: seq<Row<U>>, base: nat)
  {
    forall i | 0 <= i < |rows| :: rows[i].seqNo == base + i + 1
  }

  function Cut(n: int, base: nat, len: nat): nat
  {
    if n <= base then 0 else if n >= base + len then len else n - base
  }

  lemma {:induction false} FiltersCut<U(!new)>(rows: seq<Row<U>>, base: nat, n: int)
    requires Contiguous(rows, base)
    ensures Filter(Above(n), rows) == rows[Cut(n, base, |rows|)..]
    ensures Filter(UpTo(n), rows) == rows[..Cut(n, base, |rows|)]
  {
    if rows != [] {
      FiltersCut(rows[1..], base + 1, n);
    }
  }

  // ----- sorting by seq -----

  function SeqAtMost<U>(): (Row<U>, Row<U>) -> bool
  {
    (x: Row<U>, y: Row<U>) => x.seqNo <= y.seqNo
  }

  function SortRows<U>(s: seq<Row<U>>): seq<Row<U>>
  {
    Sort(SeqAtMost(), s)
  }

  ghost predicate Ascending<U>(s: seq<Row<U>>)
  {
    forall i, j | 0 <= i < j < |s| :: s[i].seqNo < s[j].seqNo
  }

  /** The compacted board, and what was done: nothing without live rows. */
  method CompactBoard<S(!new), U(!new)>(b: Board<S, U>, build: (Option<S>, seq<U>) -> S)
    returns (board: Board<S, U>, result: Option<CompactionResult>)
    requires WellFormed(b)
    ensures board == CompactTo(b, build)
    ensures result == if b.updates == [] then None else Some(CompactionResult(b.lastSeq, |b.updates|))
  {
    AllLive(b);
    hide WellFormed, Filter;
    board, result := b, None;
    var updates := Filter(Above(LatestUpto(b)), b.updates);
    if updates == [] { return; }
    var last := updates[|updates| - 1];
    var snapshot := Snapshot(last.seqNo, build(LatestState(b), Map(Payload(), updates)));
    board := b.(snapshots := b.snapshots + [snapshot], archive := b.archive + Filter(UpTo(last.seqNo), b.updates),
                updates := Filter(Above(last.seqNo), b.updates));
    result := Some(CompactionResult(last.seqNo, |updates|));
  }

  /** The board with an admissible snapshot, and how many live rows that archived. */
  method InstallOnBoard<S(!new), U(!new)>(b: Board<S, U>, seqUpto: nat, state: S) returns (board: Board<S, U>, archived: nat)
    requires WellFormed(b) && LatestUpto(b) < seqUpto <= b.lastSeq
    ensures board == InstallTo(b, seqUpto, state) && archived == seqUpto - LatestUpto(b)
    ensures board.snapshots == b.snapshots + [Snapshot(seqUpto, state)]
    ensures board.archive + board.updates == b.archive + b.updates && |board.archive| == seqUpto
  {
    LiveRows(b, seqUpto);
    RowsAreNumbered(b);
    hide WellFormed, Filter;
    var moved := Filter(UpTo(seqUpto), b.updates);
    board := b.(snapshots := b.snapshots + [Snapshot(seqUpto, state)], archive := b.archive + moved,
                updates := Filter(Above(seqUpto), b.updates));
    archived := |moved|;
  }

  class MemoryBoardRepository<S(!new), U(!new)> {
    var boards: map<string, Board<S, U>>
    /** How many of the next calls fail. */
    var failNext: nat
    var appendCalls: nat

    ghost predicate Valid()
      reads this
    {
      forall id | id in boards :: WellFormed(boards[id])
    }

    constructor ()
      ensures Valid() && boards == map[] && failNext == 0 && appendCalls == 0
    {
      boards, failNext, appendCalls := map[], 0, 0;
    }

    method MaybeFail() returns (failed: bool)
      modifies this`failNext
      ensures failed == (old(failNext) > 0)
      ensures failNext == if failed then old(failNext) - 1 else old(failNext)
    {
      failed := failNext > 0;
      if failed { failNext := failNext - 1; }
    }

    /** The board's latest snapshot and the live rows after it; the highest seq reported is the last one stored. */
    method Load(boardId: string) returns (r: Outcome<LoadedBoard<S, U>>)
      requires Valid()
      modifies this`failNext
      ensures r.Outage? <==> old(failNext) > 0
      ensures failNext == if r.Outage? then old(failNext) - 1 else old(failNext)
      ensures r.Done? && boardId !in boards ==> r.value == LoadedBoard(false, false, None, [], 0)
      ensures r.Done? && boardId in boards ==> var b := boards[boardId];
        r.value == LoadedBoard(true, b.deleted, Latest(b), b.updates, b.lastSeq)
      ensures r.Done? && boardId in boards ==> ShowsBoard(boards[boardId], r.value.snapshot, r.value.updates, r.value.maxSeq)
    {
      var failed := MaybeFail();
      if failed { return Outage; }
      if boardId !in boards { return Done(LoadedBoard(false, false, None, [], 0)); }
      var board := boards[boardId];
      RowsAreNumbered(board);
      LatestShowsBoard(board);
      hide WellFormed, Filter, Rows, ShowsBoard;
      var after := LatestUpto(board);
      var updates := Filter(Above(after), board.updates);
      LiveRows(board, after);
      var last := if updates == [] then 0 else updates[|updates| - 1].seqNo;
      return Done(LoadedBoard(true, board.deleted, Latest(board), updates, if after > last then after else last));
    }

    /** Appends the updates in order, numbering them on from the last seq. */
    method Append(boardId: string, updates: seq<NewUpdate<U>>) returns (r: Outcome<SeqRange>)
      requires Valid()
      modifies this
      ensures Valid() && appendCalls == old(appendCalls) + 1
      ensures r.Outage? <==> old(failNext) > 0
      ensures failNext == if r.Outage? then old(failNext) - 1 else old(failNext)
      ensures r.Outage? || updates == [] ==> boards == old(boards)
      ensures r.Done? && updates == [] ==> r.value == SeqRange(0, 0)
      ensures r.Done? && updates != [] ==>
        var b := if boardId in old(boards) then old(boards)[boardId] else Fresh();
        && boards == old(boards)[boardId := AppendTo(b, updates)]
        && r.value == SeqRange(b.lastSeq + 1, b.lastSeq + |updates|)
    {
      appendCalls := appendCalls + 1;
      var failed := MaybeFail();
      if failed { return Outage; }
      if updates == [] { return Done(SeqRange(0, 0)); }
      FreshIsWellFormed<S, U>();
      hide WellFormed, Numbered, Fresh;
      var board := if boardId in boards then boards[boardId] else Fresh();
      AppendKeepsWellFormed(board, updates);
      var firstSeq := board.lastSeq + 1;
      board := board.(updates := board.updates + Numbered(updates, firstSeq), lastSeq := board.lastSeq + |updates|);
      boards := boards[boardId := board];
      return Done(SeqRange(firstSeq, board.lastSeq));
    }

    /** Folds all live rows into a new snapshot and archives them; nothing to do without live rows. */
    method Compact(boardId: string, build: (Option<S>, seq<U>) -> S) returns (r: Outcome<Option<CompactionResult>>)
      requires Valid()
      modifies this`boards, this`failNext
      ensures Valid()
      ensures r.Outage? <==> old(failNext) > 0
      ensures failNext == if r.Outage? then old(failNext) - 1 else old(failNext)
      ensures r.Outage? || boardId !in old(boards) ==> boards == old(boards)
      ensures r.Done? && boardId !in old(boards) ==> r.value == None
      ensures r.Done? && boardId in old(boards) ==>
        var b := old(boards)[boardId];
        && boards == old(boards)[boardId := CompactTo(b, build)]
        && r.value == if b.updates == [] then None else Some(CompactionResult(b.lastSeq, |b.updates|))
      ensures r.Done? && boardId in old(boards) ==> var b, c := old(boards)[boardId], boards[boardId];
        && c.updates == [] && c.archive == b.archive + b.updates
        && (b.updates == [] ==> c.snapshots == b.snapshots)
        && (b.updates != [] ==> c.snapshots == b.snapshots + [Snapshot(b.lastSeq, build(LatestState(b), Map(Payload(), b.updates)))])
    {
      var failed := MaybeFail();
      if failed { return Outage; }
      if boardId !in boards { return Done(None); }
      var board := boards[boardId];
      CompactKeepsWellFormed(board, build);
      hide WellFormed, CompactTo;
      var compacted, result := CompactBoard(board, build);
      boards := boards[boardId := compacted];
      return Done(result);
    }

    /** Takes over a snapshot built outside; refused unless newer than the latest and not beyond the last row. */
    method InstallSnapshot(boardId: string, seqUpto: nat, state: S) returns (r: Outcome<Option<nat>>)
      requires Valid()
      modifies this`boards, this`failNext
      ensures Valid()
      ensures r.Outage? <==> old(failNext) > 0
      ensures failNext == if r.Outage? then old(failNext) - 1 else old(failNext)
      ensures r.Outage? || boardId !in old(boards) ==> boards == old(boards)
      ensures r.Done? && boardId !in old(boards) ==> r.value == None
      ensures r.Done? && boardId in old(boards) ==>
        var b := old(boards)[boardId];
        && boards == old(boards)[boardId := InstallTo(b, seqUpto, state)]
        && r.value == if Accepts(b, seqUpto) then Some(seqUpto - LatestUpto(b)) else None
      ensures r.Done? && boardId in old(boards) ==> var b := old(boards)[boardId];
        (r.value.Some? <==> 0 < seqUpto <= |Rows(b)| && forall s | s in b.snapshots :: s.seqUpto < seqUpto)
      ensures r.Done? && boardId in old(boards) && r.value.Some? ==> var b, c := old(boards)[boardId], boards[boardId];
        && c.snapshots == b.snapshots + [Snapshot(seqUpto, state)] && c.archive + c.updates == b.archive + b.updates
        && |c.archive| == seqUpto
    {
      var failed := MaybeFail();
      if failed { return Outage; }
      if boardId in boards { AcceptsNewer(boards[boardId], seqUpto); }
      var latest := if boardId in boards then LatestUpto(boards[boardId]) else 0;
      if boardId !in boards || seqUpto <= latest || seqUpto > boards[boardId].lastSeq {
        assert boardId in boards ==> boards == boards[boardId := boards[boardId]];
        return Done(None);
      }
      var board := boards[boardId];
      InstallKeepsWellFormed(board, seqUpto, state);
      hide WellFormed, InstallTo, Rows, LatestUpto;
      var installed, archived := InstallOnBoard(board, seqUpto, state);
      boards := boards[boardId := installed];
      return Done(Some(archived));
    }

    /** The log from just after `afterSeq`, wherever its rows are. */
    method UpdatesSince(boardId: string, afterSeq: int) returns (r: Outcome<seq<Row<U>>>)
      requires Valid()
      modifies this`failNext
      ensures r.Outage? <==> old(failNext) > 0
      ensures failNext == if r.Outage? then old(failNext) - 1 else old(failNext)
      ensures r.Done? && boardId !in boards ==> r.value == []
      ensures r.Done? && boardId in boards ==> r.value == Rows(boards[boardId])[Cut(afterSeq, 0, |Rows(boards[boardId])|)..]
    {
      var failed := MaybeFail();
      if failed { return Outage; }
      if boardId !in boards { return Done([]); }
      var board := boards[boardId];
      FiltersCut(Rows(board), 0, afterSeq);
      SortKeepsOrdered(SeqAtMost(), Filter(Above(afterSeq), Rows(board)));
      return Done(SortRows(Filter(Above(afterSeq), board.archive + board.updates)));
    }
  }

  // ----- what the filters keep of a well-formed board -----

  lemma CutRows<S, U(!new)>(b: Board<S, U>, n: nat)
    requires |b.archive| <= n <= |Rows(b)|
    ensures Rows(b)[..n] == b.archive + b.updates[..n - |b.archive|] && Rows(b)[n..] == b.updates[n - |b.archive|..]
  {
  }

  lemma LiveRows<S, U(!new)>(b: Board<S, U>, n: nat)
    requires WellFormed(b) && LatestUpto(b) <= n <= b.lastSeq
    ensures |b.updates| == b.lastSeq - LatestUpto(b)
    ensures Contiguous(b.updates, LatestUpto(b))
    ensures Filter(Above(n), b.updates) == b.updates[n - LatestUpto(b)..]
    ensures Filter(UpTo(n), b.updates) == b.updates[..n - LatestUpto(b)]
    ensures Rows(b)[..n] == b.archive + b.updates[..n - LatestUpto(b)]
    ensures Rows(b)[n..] == b.updates[n - LatestUpto(b)..]
    ensures b.updates[0..] == b.updates && b.updates[..|b.updates|] == b.updates
  {
    RowsAreNumbered(b);
    hide WellFormed, LatestUpto;
    FiltersCut(b.updates, LatestUpto(b), n);
    hide Filter, Contiguous;
    CutRows(b, n);
  }

  /** All live rows follow the latest snapshot, and the last of them is the last row stored. */
  lemma AllLive<S, U(!new)>(b: Board<S, U>)
    requires WellFormed(b)
    ensures Filter(Above(LatestUpto(b)), b.updates) == b.updates
    ensures b.updates != [] ==> b.updates[|b.updates| - 1].seqNo == b.lastSeq
    ensures Filter(UpTo(b.lastSeq), b.updates) == b.updates && Filter(Above(b.lastSeq), b.updates) == []
  {
    LiveRows(b, LatestUpto(b));
    LiveRows(b, b.lastSeq);
  }

  lemma FreshIsWellFormed<S, U>()
    ensures WellFormed(Fresh<S, U>())
  {
  }

  lemma AppendKeepsWellFormed<S, U>(b: Board<S, U>, us: seq<NewUpdate<U>>)
    requires WellFormed(b)
    ensures WellFormed(AppendTo(b, us))
  {
    assert Rows(AppendTo(b, us)) == Rows(b) + Numbered(us, b.lastSeq + 1);
  }

  lemma CompactKeepsWellFormed<S(!new), U(!new)>(b: Board<S, U>, build: (Option<S>, seq<U>) -> S)
    requires WellFormed(b)
    ensures WellFormed(CompactTo(b, build))
  {
    assert b.updates != [] ==> Rows(CompactTo(b, build)) == Rows(b);
  }

  lemma InstallKeepsWellFormed<S, U>(b: Board<S, U>, seqUpto: nat, state: S)
    requires WellFormed(b)
    ensures WellFormed(InstallTo(b, seqUpto, state))
  {
    assert Accepts(b, seqUpto) ==> Rows(InstallTo(b, seqUpto, state)) == Rows(b);
  }
}

/** The Postgres repository's unlocked two-step read, interleaved with committed transactions of other instances. */
module PgRepository {
  import opened Options
  import opened Sequences
  import opened Sorting
  import opened Storage
  import opened MemoryRepository

  /** Compaction is for the server's own boards, client-made snapshots for private ones; anything else is refused. */
  function Permitted<S(!new), U(!new)>(isPrivate: bool): Op<S, U> -> bool
  {
    (op: Op<S, U>) => match op
                      case Append(_) => true
                      case Compact => !isPrivate
                      case Install(_, _) => isPrivate
  }

  /** The board after the transactions `ops` committed one after the other, as its row lock makes them. */
  ghost function AfterTransactions<S(!new), U(!new)>(b: Board<S, U>, isPrivate: bool, ops: seq<Op<S, U>>,
                                                     build: (Option<S>, seq<U>) -> S): (r: Board<S, U>)
    requires WellFormed(b)
    ensures WellFormed(r)
  {
    Run(b, Filter(Permitted(isPrivate), ops), build)
  }

  /** The rows of a table after `afterSeq`, in whatever order the database returns them. */
  ghost predicate Selects<U(!new)>(result: seq<Row<U>>, table: seq<Row<U>>, afterSeq: int)
  {
    forall r :: r in result <==> r in table && r.seqNo > afterSeq
  }

  /** Setting a key of an insertion-ordered map: a known key keeps its place. */
  function Put<U>(values: seq<Row<U>>, row: Row<U>): seq<Row<U>>
  {
    if values == [] then [row]
    else if values[0].seqNo == row.seqNo then [row] + values[1..]
    else [values[0]] + Put(values[1..], row)
  }

  /** No seq appears twice. */
  ghost predicate OneRowPerSeq<U>(values: seq<Row<U>>)
  {
    forall i, j | 0 <= i < j < |values| :: values[i].seqNo != values[j].seqNo
  }

  lemma {:induction false} PutAdds<U(!new)>(values: seq<Row<U>>, row: Row<U>)
    requires OneRowPerSeq(values) && forall v | v in values && v.seqNo == row.seqNo :: v == row
    ensures OneRowPerSeq(Put(values, row))
    ensures forall x :: x in Put(values, row) <==> x in values || x == row
  {
    if values != [] {
      PutAdds(values[1..], row);
      var rest := Put(values[1..], row);
      assert forall i | 0 <= i < |rest| :: rest[i] in rest;
    }
  }

  lemma {:induction false} InsertAscends<U(!new)>(x: Row<U>, s: seq<Row<U>>)
    requires Ascending(s) && forall y | y in s :: y.seqNo != x.seqNo
    ensures Ascending(InsertInto(SeqAtMost(), x, s))
    ensures forall y :: y in InsertInto(SeqAtMost(), x, s) <==> y in s || y == x
  {
    if s != [] && x.seqNo > s[0].seqNo {
      InsertAscends(x, s[1..]);
      var rest := InsertInto(SeqAtMost(), x, s[1..]);
      assert forall i | 0 <= i < |rest| :: rest[i] in rest;
    }
  }

  lemma {:induction false} SortAscends<U(!new)>(s: seq<Row<U>>)
    requires OneRowPerSeq(s)
    ensures Ascending(SortRows(s))
    ensures forall y :: y in SortRows(s) <==> y in s
  {
    if s != [] {
      SortAscends(s[1..]);
      InsertAscends(s[0], SortRows(s[1..]));
    }
  }

  /** Ascending sequences with the same members are equal. */
  lemma {:induction false} AscendingIsUnique<U(!new)>(a: seq<Row<U>>, b: seq<Row<U>>)
    requires Ascending(a) && Ascending(b) && forall x :: x in a <==> x in b
    ensures a == b
  {
    if a != [] {
      assert a[0] in b;
    }
    if b != [] {
      assert b[0] in a;
    }
    if a != [] && b != [] {
      assert a[0] == b[0];
      forall x
        ensures x in a[1..] <==> x in b[1..]
      {
        assert x in a <==> x == a[0] || x in a[1..];
        assert x in b <==> x == b[0] || x in b[1..];
        assert x in a[1..] || x in b[1..] ==> x != a[0];
      }
      AscendingIsUnique(a[1..], b[1..]);
    }
  }

  /** Everything stored stays stored at the same seq, and live rows only move from the live end to the archive. */
  ghost predicate OnlyMoved<S, U>(b: Board<S, U>, later: Board<S, U>)
  {
    && b.lastSeq <= later.lastSeq && LatestUpto(b) <= LatestUpto(later) <= later.lastSeq
    && |Rows(later)| == later.lastSeq && |later.archive| == LatestUpto(later) && |b.updates| == b.lastSeq - LatestUpto(b)
    && (forall i | 0 <= i < |Rows(later)| :: Rows(later)[i].seqNo == i + 1)
    && (forall i | 0 <= i < |later.archive| :: Rows(later)[i] == later.archive[i])
    && (forall i | 0 <= i < |b.updates| :: Rows(later)[LatestUpto(b) + i] == b.updates[i])
  }

  lemma RowsOnlyMove<S(!new), U(!new)>(b: Board<S, U>, isPrivate: bool, between: seq<Op<S, U>>, build: (Option<S>, seq<U>) -> S)
    requires WellFormed(b)
    ensures OnlyMoved(b, AfterTransactions(b, isPrivate, between, build))
  {
    var later := AfterTransactions(b, isPrivate, between, build);
    RunExtendsRows(b, Filter(Permitted(isPrivate), between), build);
    RowsOf(b);
    RowsOf(later);
    hide AfterTransactions, WellFormed, Rows, Numbered;
    assert forall i | 0 <= i < |Rows(b)| :: Rows(later)[i] == Rows(b)[i];
  }

  /** The snapshot was there before, was made by a compaction, or was handed in. */
  ghost predicate HasSource<S(!new), U(!new)>(b: Board<S, U>, ops: seq<Op<S, U>>, s: Snapshot<S>)
  {
    s in b.snapshots || Compact in ops || Install(s.seqUpto, s.state) in ops
  }

  lemma SourceOfOne<S(!new), U(!new)>(b: Board<S, U>, op: Op<S, U>, ops: seq<Op<S, U>>, build: (Option<S>, seq<U>) -> S, s: Snapshot<S>)
    requires WellFormed(b) && HasSource(Apply(b, op, build), ops, s)
    ensures HasSource(b, [op] + ops, s)
  {
    hide WellFormed, Numbered, Map;
    assert op in [op] + ops && forall o | o in ops :: o in [op] + ops;
  }

  lemma {:induction false} SnapshotsHaveSources<S(!new), U(!new)>(b: Board<S, U>, ops: seq<Op<S, U>>, build: (Option<S>, seq<U>) -> S)
    requires WellFormed(b)
    ensures forall s | s in Run(b, ops, build).snapshots :: HasSource(b, ops, s)
    decreases |ops|
  {
    if ops != [] {
      var t := Apply(b, ops[0], build);
      hide Apply, WellFormed, HasSource;
      SnapshotsHaveSources(t, ops[1..], build);
      assert ops == [ops[0]] + ops[1..];
      forall s | HasSource(t, ops[1..], s)
        ensures HasSource(b, ops, s)
      {
        SourceOfOne(b, ops[0], ops[1..], build, s);
      }
    }
  }

  /**
   * Every append takes effect; a private board gets only snapshots handed in, any other board only compacted ones.
   */
  lemma SnapshotsArePermitted<S(!new), U(!new)>(b: Board<S, U>, isPrivate: bool, ops: seq<Op<S, U>>, build: (Option<S>, seq<U>) -> S)
    requires WellFormed(b)
    ensures AfterTransactions(b, isPrivate, ops, build).lastSeq == b.lastSeq + |Appended(ops)|
    ensures forall s | s in AfterTransactions(b, isPrivate, ops, build).snapshots ::
      s in b.snapshots || if isPrivate then Install(s.seqUpto, s.state) in ops else Compact in ops
  {
    var kept := Filter(Permitted(isPrivate), ops);
    SnapshotsHaveSources(b, kept, build);
    RunExtendsRows(b, kept, build);
    AppendsArePermitted(isPrivate, ops);
    forall op
      ensures op in kept <==> op in ops && (op.Append? || (if isPrivate then op.Install? else op.Compact?))
    {
      FilterMember(Permitted(isPrivate), ops, op);
    }
    hide Filter, Run, WellFormed, CompactTo, InstallTo;
  }

  lemma AloneTakesEffect<S(!new), U(!new)>(b: Board<S, U>, isPrivate: bool, op: Op<S, U>, build: (Option<S>, seq<U>) -> S)
    requires WellFormed(b) && Permitted(isPrivate)(op)
    ensures AfterTransactions(b, isPrivate, [op], build) == Apply(b, op, build)
  {
    hide WellFormed, Apply;
    assert [op][1..] == [];
    assert Filter(Permitted(isPrivate), [op]) == [op];
    assert Run(Apply(b, op, build), [], build) == Apply(b, op, build);
  }

  /** Where they are allowed, compactions and snapshots handed in do what they are for. */
  lemma PermittedTakesEffect<S(!new), U(!new)>(b: Board<S, U>, n: nat, s: S, build: (Option<S>, seq<U>) -> S)
    requires WellFormed(b)
    ensures AfterTransactions(b, true, [Install(n, s)], build) == InstallTo(b, n, s)
    ensures AfterTransactions(b, false, [Compact], build) == CompactTo(b, build)
  {
    AloneTakesEffect(b, true, Install(n, s), build);
    AloneTakesEffect(b, false, Compact, build);
    assert Apply(b, Install(n, s), build) == InstallTo(b, n, s);
    hide AfterTransactions, WellFormed;
  }

  lemma {:induction false} AppendsArePermitted<S(!new), U(!new)>(isPrivate: bool, ops: seq<Op<S, U>>)
    ensures Appended(Filter(Permitted(isPrivate), ops)) == Appended(ops)
  {
    if ops != [] {
      AppendsArePermitted(isPrivate, ops[1..]);
      assert ops[0].Append? ==> Permitted(isPrivate)(ops[0]);
      var rest := Filter(Permitted(isPrivate), ops[1..]);
      assert ([ops[0]] + rest)[1..] == rest && [] + rest == rest;
      assert Filter(Permitted(isPrivate), ops) == if Permitted(isPrivate)(ops[0]) then [ops[0]] + rest else rest;
      hide Filter;
    }
  }

  lemma RowsOf<S, U(!new)>(b: Board<S, U>)
    requires WellFormed(b)
    ensures LatestUpto(b) <= b.lastSeq == |Rows(b)| && |b.archive| == LatestUpto(b) && |b.updates| == b.lastSeq - LatestUpto(b)
    ensures forall i | 0 <= i < |Rows(b)| :: Rows(b)[i].seqNo == i + 1
    ensures forall i | 0 <= i < |b.archive| :: Rows(b)[i] == b.archive[i]
    ensures forall i | 0 <= i < |b.updates| :: Rows(b)[LatestUpto(b) + i] == b.updates[i]
  {
  }

  lemma PlaceInLog<U(!new)>(log: seq<Row<U>>, part: seq<Row<U>>, offset: nat, x: Row<U>)
    requires x in part && offset + |part| <= |log| && forall i | 0 <= i < |part| :: log[offset + i] == part[i]
    requires forall i | 0 <= i < |log| :: log[i].seqNo == i + 1
    ensures offset < x.seqNo <= offset + |part| && log[x.seqNo - 1] == x
  {
    var i :| 0 <= i < |part| && part[i] == x;
    assert log[offset + i] == x;
  }

  lemma LiveRowInPlace<S, U(!new)>(b: Board<S, U>, later: Board<S, U>, x: Row<U>)
    requires OnlyMoved(b, later) && x in b.updates
    ensures 1 <= x.seqNo <= b.lastSeq <= |Rows(later)| && Rows(later)[x.seqNo - 1] == x
  {
    hide Rows, LatestUpto;
    PlaceInLog(Rows(later), b.updates, LatestUpto(b), x);
  }

  lemma ArchivedRowInPlace<S, U(!new)>(b: Board<S, U>, later: Board<S, U>, x: Row<U>)
    requires OnlyMoved(b, later) && x in later.archive
    ensures 1 <= x.seqNo <= LatestUpto(later) <= |Rows(later)| && Rows(later)[x.seqNo - 1] == x
  {
    hide Rows, LatestUpto;
    PlaceInLog(Rows(later), later.archive, 0, x);
  }

  /** A row read either way sits in the log at the place its seq names. */
  lemma RowInPlace<S, U(!new)>(b: Board<S, U>, later: Board<S, U>, x: Row<U>)
    requires OnlyMoved(b, later) && (x in b.updates || x in later.archive)
    ensures 1 <= x.seqNo <= |Rows(later)| && Rows(later)[x.seqNo - 1] == x && x.seqNo <= Seen(b, later)
  {
    hide Rows, OnlyMoved, LatestUpto;
    if x in b.updates {
      LiveRowInPlace(b, later, x);
    } else {
      ArchivedRowInPlace(b, later, x);
    }
  }

  /** The last seq the two reads see: the last one stored at the first read, or archived at the second. */
  ghost function Seen<S, U>(b: Board<S, U>, later: Board<S, U>): nat
  {
    if b.lastSeq > LatestUpto(later) then b.lastSeq else LatestUpto(later)
  }

  lemma SelectedIsInRange<S, U(!new)>(b: Board<S, U>, later: Board<S, U>, afterSeq: int, x: Row<U>)
    requires OnlyMoved(b, later) && (x in b.updates || x in later.archive) && x.seqNo > afterSeq
    ensures Seen(b, later) <= |Rows(later)| && x in Rows(later)[Cut(afterSeq, 0, Seen(b, later))..Seen(b, later)]
  {
    var lo, upTo := Cut(afterSeq, 0, Seen(b, later)), Seen(b, later);
    RowInPlace(b, later, x);
    hide Rows;
    assert Rows(later)[lo..upTo][x.seqNo - 1 - lo] == x;
  }

  lemma InRangeIsSelected<S, U(!new)>(b: Board<S, U>, later: Board<S, U>, afterSeq: int, i: nat)
    requires OnlyMoved(b, later) && Cut(afterSeq, 0, Seen(b, later)) <= i < Seen(b, later)
    ensures i < |Rows(later)| && var x := Rows(later)[i]; x.seqNo > afterSeq && (x in b.updates || x in later.archive)
  {
    if i < LatestUpto(later) {
      assert later.archive[i] == Rows(later)[i];
    } else {
      assert b.updates[i - LatestUpto(b)] == Rows(later)[i];
    }
  }

  lemma SelectedIffInRange<S, U(!new)>(b: Board<S, U>, later: Board<S, U>, afterSeq: int, live: seq<Row<U>>,
                                       archived: seq<Row<U>>, x: Row<U>)
    requires OnlyMoved(b, later) && Selects(live, b.updates, afterSeq) && Selects(archived, later.archive, afterSeq)
    ensures var lo, upTo := Cut(afterSeq, 0, Seen(b, later)), Seen(b, later);
      upTo <= |Rows(later)| && (x in archived + live <==> x in Rows(later)[lo..upTo])
  {
    hide Rows;
    var lo, upTo := Cut(afterSeq, 0, Seen(b, later)), Seen(b, later);
    if x in archived + live {
      SelectedIsInRange(b, later, afterSeq, x);
    }
    if x in Rows(later)[lo..upTo] {
      var k :| 0 <= k < upTo - lo && Rows(later)[lo..upTo][k] == x;
      InRangeIsSelected(b, later, afterSeq, lo + k);
    }
  }

  /** The two selections together are exactly the contiguous range. */
  lemma SelectionsMeet<S, U(!new)>(b: Board<S, U>, later: Board<S, U>, afterSeq: int, live: seq<Row<U>>, archived: seq<Row<U>>)
    requires OnlyMoved(b, later) && Selects(live, b.updates, afterSeq) && Selects(archived, later.archive, afterSeq)
    ensures var lo, upTo := Cut(afterSeq, 0, Seen(b, later)), Seen(b, later);
      && b.lastSeq <= upTo <= later.lastSeq == |Rows(later)|
      && Ascending(Rows(later)[lo..upTo]) && forall x :: x in archived + live <==> x in Rows(later)[lo..upTo]
  {
    var lo, upTo := Cut(afterSeq, 0, Seen(b, later)), Seen(b, later);
    forall x
      ensures upTo <= |Rows(later)| && (x in archived + live <==> x in Rows(later)[lo..upTo])
    {
      SelectedIffInRange(b, later, afterSeq, live, archived, x);
    }
    hide Selects, Rows;
  }

  /** Rows with one seq are the same row. */
  ghost predicate SeqsAgree<U(!new)>(rows: seq<Row<U>>)
  {
    forall x, y | x in rows && y in rows && x.seqNo == y.seqNo :: x == y
  }

  lemma SelectionsAgree<S, U(!new)>(b: Board<S, U>, later: Board<S, U>, afterSeq: int, live: seq<Row<U>>, archived: seq<Row<U>>)
    requires OnlyMoved(b, later) && Selects(live, b.updates, afterSeq) && Selects(archived, later.archive, afterSeq)
    ensures SeqsAgree(archived + live)
  {
    hide OnlyMoved, Rows;
    forall x, y | x in archived + live && y in archived + live && x.seqNo == y.seqNo
      ensures x == y
    {
      RowInPlace(b, later, x);
      RowInPlace(b, later, y);
    }
  }

  /** Setting one key after the other. */
  function BySeq<U>(rows: seq<Row<U>>): seq<Row<U>>
  {
    if rows == [] then [] else Put(BySeq(rows[..|rows| - 1]), rows[|rows| - 1])
  }

  /** The map keeps one row for each seq. */
  lemma {:induction false} BySeqCollects<U(!new)>(rows: seq<Row<U>>)
    requires SeqsAgree(rows)
    ensures OneRowPerSeq(BySeq(rows)) && forall x :: x in BySeq(rows) <==> x in rows
  {
    if rows != [] {
      var front, last := rows[..|rows| - 1], rows[|rows| - 1];
      assert rows == front + [last];
      BySeqCollects(front);
      PutAdds(BySeq(front), last);
      hide OneRowPerSeq, Put;
    }
  }

  /** The rows are the log from just after `afterSeq` up to `upTo`, which is at least `known`. */
  ghost predicate IsRange<S, U>(b: Board<S, U>, afterSeq: int, rows: seq<Row<U>>, known: nat, upTo: nat)
  {
    known <= upTo <= b.lastSeq && upTo <= |Rows(b)| && rows == Rows(b)[Cut(afterSeq, 0, upTo)..upTo]
  }

  /** What the two reads return, put together: archived rows first, each seq once, in order. */
  method UpdatesSince<U>(live: seq<Row<U>>, archived: seq<Row<U>>) returns (rows: seq<Row<U>>)
    ensures rows == SortRows(BySeq(archived + live))
  {
    var all := archived + live;
    var bySeq: seq<Row<U>> := [];
    for i := 0 to |all|
      invariant bySeq == BySeq(all[..i])
    {
      assert all[..i + 1][..i] == all[..i];
      bySeq := Put(bySeq, all[i]);
    }
    assert all[..|all|] == all;
    rows := SortRows(bySeq);
  }

  lemma MovedReadsAreContiguous<S, U(!new)>(b: Board<S, U>, later: Board<S, U>, afterSeq: int,
                                           live: seq<Row<U>>, archived: seq<Row<U>>)
    requires OnlyMoved(b, later) && Selects(live, b.updates, afterSeq) && Selects(archived, later.archive, afterSeq)
    ensures IsRange(later, afterSeq, SortRows(BySeq(archived + live)), b.lastSeq, Seen(b, later))
  {
    hide Selects, OnlyMoved, SeqsAgree, BySeq, SortRows, Rows, Ascending, OneRowPerSeq, LatestUpto;
    SelectionsAgree(b, later, afterSeq, live, archived);
    BySeqCollects(archived + live);
    SortAscends(BySeq(archived + live));
    SelectionsMeet(b, later, afterSeq, live, archived);
    AscendingIsUnique(SortRows(BySeq(archived + live)), Rows(later)[Cut(afterSeq, 0, Seen(b, later))..Seen(b, later)]);
  }

  /**
   * Live rows read first, archived rows read after any number of transactions committed in between: every row comes
   * back once, in order, as the contiguous range after `afterSeq`, missing nothing committed when the call began.
   */
  lemma ReadsAreContiguous<S(!new), U(!new)>(b: Board<S, U>, isPrivate: bool, between: seq<Op<S, U>>,
      build: (Option<S>, seq<U>) -> S, afterSeq: int, live: seq<Row<U>>, archived: seq<Row<U>>)
    requires WellFormed(b) && Selects(live, b.updates, afterSeq)
    requires Selects(archived, AfterTransactions(b, isPrivate, between, build).archive, afterSeq)
    ensures var later := AfterTransactions(b, isPrivate, between, build);
      exists upTo: nat :: IsRange(later, afterSeq, SortRows(BySeq(archived + live)), b.lastSeq, upTo)
  {
    RowsOnlyMove(b, isPrivate, between, build);
    hide *;
    MovedReadsAreContiguous(b, AfterTransactions(b, isPrivate, between, build), afterSeq, live, archived);
  }
}

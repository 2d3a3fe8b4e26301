/** What a stored board is: a numbered log split into archived and live rows, with snapshots folded out of it. */
module Storage {
  import opened Options
  import opened Sequences

  /** An update to store, with its attribution; the repository assigns its seq. */
  datatype NewUpdate<+U> = NewUpdate(update: U, clientId: Option<int>, userId: Option<string>)

  datatype Row<+U> = Row(seqNo: nat, content: NewUpdate<U>)

  datatype Snapshot<+S> = Snapshot(seqUpto: nat, state: S)

  datatype Board<S, U> = Board(deleted: bool, lastSeq: nat, snapshots: seq<Snapshot<S>>, updates: seq<Row<U>>, archive: seq<Row<U>>)

  function Fresh<S, U>(): Board<S, U> { Board(false, 0, [], [], []) }

  function Latest<S, U>(b: Board<S, U>): Option<Snapshot<S>>
  {
    if b.snapshots == [] then None else Some(b.snapshots[|b.snapshots| - 1])
  }

  function LatestUpto<S, U>(b: Board<S, U>): nat
  {
    if b.snapshots == [] then 0 else b.snapshots[|b.snapshots| - 1].seqUpto
  }

  function LatestState<S, U>(b: Board<S, U>): Option<S>
  {
    if b.snapshots == [] then None else Some(b.snapshots[|b.snapshots| - 1].state)
  }

  /** Every row ever stored, archived ones first. */
  function Rows<S, U>(b: Board<S, U>): seq<Row<U>> { b.archive + b.updates }

  function Content<U>(): Row<U> -> NewUpdate<U> { (r: Row<U>) => r.content }

  function Payload<U>(): Row<U> -> U { (r: Row<U>) => r.content.update }

  /** Every update ever appended, in order. */
  ghost function Log<S(!new), U(!new)>(b: Board<S, U>): seq<NewUpdate<U>> { Map(Content(), Rows(b)) }

  ghost predicate SnapshotsIncrease<S, U>(b: Board<S, U>)
  {
    forall i, j | 0 <= i < j < |b.snapshots| :: b.snapshots[i].seqUpto < b.snapshots[j].seqUpto
  }

  /** Rows are numbered 1, 2, 3, … and the archive stops exactly where the latest snapshot does. */
  ghost predicate WellFormed<S, U>(b: Board<S, U>)
  {
    && |Rows(b)| == b.lastSeq
    && (forall i | 0 <= i < |Rows(b)| :: Rows(b)[i].seqNo == i + 1)
    && |b.archive| == LatestUpto(b)
    && SnapshotsIncrease(b)
    && (forall i | 0 <= i < |b.snapshots| :: 1 <= b.snapshots[i].seqUpto <= b.lastSeq)
  }

  function Numbered<U>(us: seq<NewUpdate<U>>, first: nat): seq<Row<U>>
  {
    seq(|us|, i requires 0 <= i < |us| => Row(first + i, us[i]))
  }

  // ----- the operations, as what they mean for the log -----

  function AppendTo<S, U>(b: Board<S, U>, us: seq<NewUpdate<U>>): Board<S, U>
  {
    b.(updates := b.updates + Numbered(us, b.lastSeq + 1), lastSeq := b.lastSeq + |us|)
  }

  /** Folds all live rows into a new snapshot. */
  function CompactTo<S(!new), U(!new)>(b: Board<S, U>, build: (Option<S>, seq<U>) -> S): Board<S, U>
  {
    if b.updates == [] then b
    else b.(snapshots := b.snapshots + [Snapshot(b.lastSeq, build(LatestState(b), Map(Payload(), b.updates)))],
            archive := Rows(b), updates := [])
  }

  predicate Accepts<S, U>(b: Board<S, U>, seqUpto: nat)
  {
    LatestUpto(b) < seqUpto <= b.lastSeq
  }

  /** Stores a snapshot made elsewhere that covers every row up to `seqUpto`. */
  ghost function InstallTo<S, U>(b: Board<S, U>, seqUpto: nat, state: S): Board<S, U>
    requires |Rows(b)| == b.lastSeq
  {
    if !Accepts(b, seqUpto) then b
    else b.(snapshots := b.snapshots + [Snapshot(seqUpto, state)],
            archive := Rows(b)[..seqUpto], updates := Rows(b)[seqUpto..])
  }

  // ----- every run -----

  datatype Op<S, U> = Append(us: seq<NewUpdate<U>>) | Compact | Install(seqUpto: nat, state: S)

  ghost function Apply<S(!new), U(!new)>(b: Board<S, U>, op: Op<S, U>, build: (Option<S>, seq<U>) -> S): (r: Board<S, U>)
    requires WellFormed(b)
    ensures WellFormed(r)
  {
    match op
    case Append(us) => AppendTo(b, us)
    case Compact => CompactTo(b, build)
    case Install(n, s) => InstallTo(b, n, s)
  }

  ghost function Run<S(!new), U(!new)>(b: Board<S, U>, ops: seq<Op<S, U>>, build: (Option<S>, seq<U>) -> S): (r: Board<S, U>)
    requires WellFormed(b)
    ensures WellFormed(r)
    decreases |ops|
  {
    if ops == [] then b else Run(Apply(b, ops[0], build), ops[1..], build)
  }

  ghost function Appended<S, U>(ops: seq<Op<S, U>>): seq<NewUpdate<U>>
  {
    if ops == [] then [] else (if ops[0].Append? then ops[0].us else []) + Appended(ops[1..])
  }

  /** One operation never loses, reorders or renumbers a row, and the archive only grows. */
  lemma ApplyExtendsRows<S(!new), U(!new)>(b: Board<S, U>, op: Op<S, U>, build: (Option<S>, seq<U>) -> S)
    requires WellFormed(b)
    ensures var r := Apply(b, op, build);
      && Rows(r) == Rows(b) + (if op.Append? then Numbered(op.us, b.lastSeq + 1) else [])
      && LatestUpto(b) <= LatestUpto(r) && r.lastSeq == b.lastSeq + if op.Append? then |op.us| else 0
  {
    match op
    case Append(us) =>
      assert Rows(AppendTo(b, us)) == Rows(b) + Numbered(us, b.lastSeq + 1);
    case Compact =>
    case Install(n, s) =>
  }

  /** Over every run the rows are those there were followed by those appended, and the archive only grows. */
  lemma {:induction false} RunExtendsRows<S(!new), U(!new)>(b: Board<S, U>, ops: seq<Op<S, U>>, build: (Option<S>, seq<U>) -> S)
    requires WellFormed(b)
    ensures var r := Run(b, ops, build);
      && Rows(r) == Rows(b) + Numbered(Appended(ops), b.lastSeq + 1)
      && b.lastSeq <= r.lastSeq && LatestUpto(b) <= LatestUpto(r)
    decreases |ops|
  {
    hide Apply, WellFormed;
    if ops == [] {
      assert Numbered<U>([], b.lastSeq + 1) == [];
    } else {
      var next := Apply(b, ops[0], build);
      ApplyExtendsRows(b, ops[0], build);
      RunExtendsRows(next, ops[1..], build);
      var us := if ops[0].Append? then ops[0].us else [];
      assert next.lastSeq == b.lastSeq + |us| && Rows(next) == Rows(b) + Numbered(us, b.lastSeq + 1);
      assert Appended(ops) == us + Appended(ops[1..]) && Run(b, ops, build) == Run(next, ops[1..], build);
      hide Rows, Run, Appended, Numbered, LatestUpto;
      NumberedAppend(us, Appended(ops[1..]), b.lastSeq + 1);
      RowsJoin(Rows(b), Numbered(us, b.lastSeq + 1), Numbered(Appended(ops[1..]), next.lastSeq + 1));
    }
  }

  lemma NumberedAppend<U(!new)>(a: seq<NewUpdate<U>>, b: seq<NewUpdate<U>>, first: nat)
    ensures Numbered(a + b, first) == Numbered(a, first) + Numbered(b, first + |a|)
  {
  }

  lemma RowsJoin<T>(a: seq<T>, b: seq<T>, c: seq<T>)
    ensures a + b + c == a + (b + c)
  {
  }

  lemma NumberedContents<U(!new)>(us: seq<NewUpdate<U>>, first: nat)
    ensures Map(Content(), Numbered(us, first)) == us
  {
    assert forall i | 0 <= i < |us| :: Map(Content(), Numbered(us, first))[i] == us[i];
  }

  /** The log of a run from an empty board is exactly what was appended. */
  lemma LogFromFresh<S(!new), U(!new)>(ops: seq<Op<S, U>>, build: (Option<S>, seq<U>) -> S)
    ensures var b := Run(Fresh<S, U>(), ops, build); Log(b) == Appended(ops) && b.lastSeq == |Appended(ops)|
  {
    var b := Run(Fresh<S, U>(), ops, build);
    RunExtendsRows(Fresh<S, U>(), ops, build);
    assert Rows(Fresh<S, U>()) == [];
    hide Run, Appended, Map, Rows;
    assert Rows(b) == Numbered(Appended(ops), 1);
    NumberedContents(Appended(ops), 1);
  }

  /** A well-formed board is numbered through: the archive from 1, the live rows from where the archive ends. */
  lemma RowsAreNumbered<S, U(!new)>(b: Board<S, U>)
    requires WellFormed(b)
    ensures |b.archive| == LatestUpto(b) <= b.lastSeq == |Rows(b)| && |b.updates| == b.lastSeq - LatestUpto(b)
    ensures forall i | 0 <= i < |b.archive| :: b.archive[i].seqNo == i + 1
    ensures forall i | 0 <= i < |b.updates| :: b.updates[i].seqNo == LatestUpto(b) + i + 1
  {
    assert forall i | 0 <= i < |b.archive| :: b.archive[i] == Rows(b)[i];
    assert forall i | 0 <= i < |b.updates| :: b.updates[i] == Rows(b)[|b.archive| + i];
    hide LatestUpto;
  }

  /** The storage invariant from an empty board. */
  lemma RunFromFresh<S(!new), U(!new)>(ops: seq<Op<S, U>>, build: (Option<S>, seq<U>) -> S)
    ensures var b := Run(Fresh<S, U>(), ops, build);
      && Log(b) == Appended(ops) && b.lastSeq == |Appended(ops)|
      && (forall i | 0 <= i < |b.archive| :: b.archive[i].seqNo == i + 1)
      && |b.archive| == LatestUpto(b)
      && SnapshotsIncrease(b)
      && (forall i | 0 <= i < |b.updates| :: b.updates[i].seqNo == LatestUpto(b) + i + 1)
  {
    var b := Run(Fresh<S, U>(), ops, build);
    assert SnapshotsIncrease(b);
    hide *;
    LogFromFresh(ops, build);
    RowsAreNumbered(b);
  }

  // ----- what a board means -----

  /** Building a snapshot agrees with replaying the updates it was built from. */
  ghost predicate Agrees<S(!new), U(!new), D>(build: (Option<S>, seq<U>) -> S, replay: (Option<S>, seq<U>) -> D)
  {
    forall s: Option<S>, us: seq<U>, more: seq<U> :: replay(Some(build(s, us)), more) == replay(s, us + more)
  }

  /** What a client sees after loading the board. */
  ghost function Meaning<S(!new), U(!new), D>(b: Board<S, U>, replay: (Option<S>, seq<U>) -> D): D
  {
    replay(LatestState(b), Map(Payload(), b.updates))
  }

  lemma CompactKeepsMeaning<S(!new), U(!new), D>(b: Board<S, U>, build: (Option<S>, seq<U>) -> S, replay: (Option<S>, seq<U>) -> D)
    requires Agrees(build, replay)
    ensures Meaning(CompactTo(b, build), replay) == Meaning(b, replay)
  {
    var us := Map(Payload(), b.updates);
    assert us + [] == us;
    assert replay(Some(build(LatestState(b), us)), []) == replay(LatestState(b), us + []);
  }

  /** Whatever is appended later, replaying from the latest snapshot gives what replaying the whole log gives. */
  ghost predicate ReplaysLog<S(!new), U(!new), D>(b: Board<S, U>, replay: (Option<S>, seq<U>) -> D)
  {
    forall more: seq<U> :: replay(LatestState(b), Map(Payload(), b.updates) + more) == replay(None, Map(Payload(), Rows(b)) + more)
  }

  lemma AppendKeepsReplay<S(!new), U(!new), D>(b: Board<S, U>, us: seq<NewUpdate<U>>, replay: (Option<S>, seq<U>) -> D)
    requires ReplaysLog(b, replay)
    ensures ReplaysLog(AppendTo(b, us), replay)
  {
    var next := AppendTo(b, us);
    AppendPayloads(b, us);
    ReplayShift(replay, LatestState(b), Map(Payload(), b.updates), Map(Payload(), Rows(b)),
                Map(Payload(), Numbered(us, b.lastSeq + 1)));
    assert LatestState(next) == LatestState(b);
    hide AppendTo, Map, Numbered, Rows, LatestState, Payload;
  }

  lemma AppendPayloads<S(!new), U(!new)>(b: Board<S, U>, us: seq<NewUpdate<U>>)
    ensures var next, added := AppendTo(b, us), Map(Payload(), Numbered(us, b.lastSeq + 1));
      && Map(Payload(), next.updates) == Map(Payload(), b.updates) + added
      && Map(Payload(), Rows(next)) == Map(Payload(), Rows(b)) + added
  {
    hide Map, Numbered, Payload;
    var next, rows := AppendTo(b, us), Numbered(us, b.lastSeq + 1);
    assert next.updates == b.updates + rows && Rows(next) == Rows(b) + rows;
    hide AppendTo, Rows;
    MapAppend(Payload(), b.updates, rows);
    MapAppend(Payload(), Rows(b), rows);
  }

  lemma ReplayShift<S, U(!new), D>(replay: (Option<S>, seq<U>) -> D, s: Option<S>, live: seq<U>, all: seq<U>, added: seq<U>)
    requires forall more: seq<U> :: replay(s, live + more) == replay(None, all + more)
    ensures forall more: seq<U> :: replay(s, live + added + more) == replay(None, all + added + more)
  {
    forall more: seq<U>
      ensures replay(s, live + added + more) == replay(None, all + added + more)
    {
      assert live + added + more == live + (added + more);
      assert all + added + more == all + (added + more);
    }
  }

  lemma CompactKeepsReplay<S(!new), U(!new), D>(b: Board<S, U>, build: (Option<S>, seq<U>) -> S, replay: (Option<S>, seq<U>) -> D)
    requires ReplaysLog(b, replay) && Agrees(build, replay)
    ensures ReplaysLog(CompactTo(b, build), replay)
  {
    var next, us := CompactTo(b, build), Map(Payload(), b.updates);
    if b.updates != [] {
      assert Rows(next) == Rows(b);
      forall more: seq<U>
        ensures replay(LatestState(next), Map(Payload(), next.updates) + more) == replay(None, Map(Payload(), Rows(next)) + more)
      {
        assert Map(Payload(), next.updates) + more == more;
        assert replay(Some(build(LatestState(b), us)), more) == replay(LatestState(b), us + more);
      }
    }
  }

  /** However often it was compacted, a board means its whole log replayed from nothing. */
  lemma {:induction false} BoardMeansItsLog<S(!new), U(!new), D>(b: Board<S, U>, ops: seq<Op<S, U>>,
      build: (Option<S>, seq<U>) -> S, replay: (Option<S>, seq<U>) -> D)
    requires WellFormed(b) && ReplaysLog(b, replay) && Agrees(build, replay) && forall op | op in ops :: !op.Install?
    ensures Meaning(Run(b, ops, build), replay) == replay(None, Map(Payload(), Rows(Run(b, ops, build))))
    decreases |ops|
  {
    hide WellFormed, ReplaysLog, Agrees;
    if ops == [] {
      assert ReplaysLog(b, replay) ==> Meaning(b, replay) == replay(None, Map(Payload(), Rows(b))) by {
        ReplayNothingMore(b, replay);
      }
    } else {
      assert ops[0] in ops;
      if ops[0].Append? {
        AppendKeepsReplay(b, ops[0].us, replay);
      } else {
        CompactKeepsReplay(b, build, replay);
      }
      BoardMeansItsLog(Apply(b, ops[0], build), ops[1..], build, replay);
    }
  }

  lemma ReplayNothingMore<S(!new), U(!new), D>(b: Board<S, U>, replay: (Option<S>, seq<U>) -> D)
    ensures ReplaysLog(b, replay) ==> Meaning(b, replay) == replay(None, Map(Payload(), Rows(b)))
  {
    assert Map(Payload(), b.updates) + [] == Map(Payload(), b.updates);
    assert Map(Payload(), Rows(b)) + [] == Map(Payload(), Rows(b));
  }

  /** From an empty board: what a client loads is everything ever appended, replayed in order. */
  lemma LoadedBoardIsReplayedHistory<S(!new), U(!new), D>(ops: seq<Op<S, U>>,
      build: (Option<S>, seq<U>) -> S, replay: (Option<S>, seq<U>) -> D)
    requires Agrees(build, replay) && forall op | op in ops :: !op.Install?
    ensures Meaning(Run(Fresh<S, U>(), ops, build), replay) == replay(None, Map((u: NewUpdate<U>) => u.update, Appended(ops)))
  {
    var b := Run(Fresh<S, U>(), ops, build);
    BoardMeansItsLog(Fresh<S, U>(), ops, build, replay);
    RunExtendsRows(Fresh<S, U>(), ops, build);
    assert Map(Payload(), Rows(b)) == Map((u: NewUpdate<U>) => u.update, Appended(ops));
  }

  // ----- what a caller is given of a board -----

  /**
   * A snapshot than which no stored one is newer, if there is any, every row that follows it, and the number of rows;
   * without a snapshot, every row.
   */
  ghost predicate ShowsBoard<S(!new), U(!new)>(b: Board<S, U>, snapshot: Option<Snapshot<S>>, updates: seq<Row<U>>, maxSeq: nat)
  {
    && (if snapshot.None? then b.snapshots == [] && updates == Rows(b)
        else && snapshot.value in b.snapshots && (forall s | s in b.snapshots :: s.seqUpto <= snapshot.value.seqUpto)
             && snapshot.value.seqUpto <= |Rows(b)| && updates == Rows(b)[snapshot.value.seqUpto..])
    && maxSeq == |Rows(b)|
  }

  lemma LatestShowsBoard<S(!new), U(!new)>(b: Board<S, U>)
    requires WellFormed(b)
    ensures ShowsBoard(b, Latest(b), b.updates, b.lastSeq)
  {
    if b.snapshots != [] {
      assert b.snapshots[|b.snapshots| - 1] in b.snapshots;
    }
    assert Rows(b)[|b.archive|..] == b.updates;
  }

  lemma ShownIsLatest<S(!new), U(!new)>(b: Board<S, U>, snapshot: Option<Snapshot<S>>, updates: seq<Row<U>>, maxSeq: nat)
    requires WellFormed(b) && ShowsBoard(b, snapshot, updates, maxSeq)
    ensures snapshot == Latest(b) && updates == b.updates && maxSeq == b.lastSeq
    ensures LatestState(b) == if snapshot.None? then None else Some(snapshot.value.state)
  {
    if snapshot.Some? {
      var last := b.snapshots[|b.snapshots| - 1];
      assert last in b.snapshots;
      var i :| 0 <= i < |b.snapshots| && b.snapshots[i] == snapshot.value;
      assert last.seqUpto <= b.snapshots[i].seqUpto;
      assert i == |b.snapshots| - 1;
    }
    assert Rows(b)[|b.archive|..] == b.updates;
  }

  /**
   * Whatever was appended and however often it was compacted: the snapshot and the updates a caller is given, replayed,
   * are everything ever appended, replayed from nothing.
   */
  lemma ShownIsReplayedHistory<S(!new), U(!new), D>(ops: seq<Op<S, U>>, build: (Option<S>, seq<U>) -> S,
      replay: (Option<S>, seq<U>) -> D, snapshot: Option<Snapshot<S>>, updates: seq<Row<U>>, maxSeq: nat)
    requires Agrees(build, replay) && forall op | op in ops :: !op.Install?
    requires ShowsBoard(Run(Fresh<S, U>(), ops, build), snapshot, updates, maxSeq)
    ensures replay(if snapshot.None? then None else Some(snapshot.value.state), Map(Payload(), updates))
         == replay(None, Map((u: NewUpdate<U>) => u.update, Appended(ops)))
  {
    LoadedBoardIsReplayedHistory(ops, build, replay);
    ShownIsLatest(Run(Fresh<S, U>(), ops, build), snapshot, updates, maxSeq);
    hide Agrees, ShowsBoard, WellFormed, Run, Appended, LatestState;
  }

  /** A snapshot made elsewhere is taken exactly when it is newer than all there are and covers only rows there are. */
  lemma AcceptsNewer<S(!new), U(!new)>(b: Board<S, U>, n: nat)
    requires WellFormed(b)
    ensures Accepts(b, n) <==> 0 < n <= |Rows(b)| && forall s | s in b.snapshots :: s.seqUpto < n
  {
    if b.snapshots != [] {
      assert b.snapshots[|b.snapshots| - 1] in b.snapshots;
    }
  }
}

/** What changed between two reviews of a board: which findings persist, are new, or are resolved. */
module ReviewDiff {
  import opened Options
  import opened Overlaps
  import opened Sequences
  import opened Sorting

  datatype Finding = Finding(id: string, dimension: string, ruleId: Option<string>, shapeIds: seq<string>)

  datatype Change = IsNew | Persisting

  // ----- candidates -----

  datatype Pair = Pair(cur: nat, prev: nat, score: real)

  predicate SameTopic(c: Finding, p: Finding)
  {
    c.dimension == p.dimension || (c.ruleId.Some? && c.ruleId == p.ruleId)
  }

  predicate IsCandidate(previous: seq<Finding>, current: seq<Finding>, p: Pair)
  {
    && p.cur < |current| && p.prev < |previous|
    && SameTopic(current[p.cur], previous[p.prev])
    && p.score == Overlap(current[p.cur].shapeIds, previous[p.prev].shapeIds)
    && p.score >= 0.5
  }

  /** Better overlap first, then the order of the newer review, then that of the older. */
  predicate Precedes(a: Pair, b: Pair)
  {
    a.score > b.score || (a.score == b.score && (a.cur < b.cur || (a.cur == b.cur && a.prev <= b.prev)))
  }

  function InOrder(): (Pair, Pair) -> bool { (a: Pair, b: Pair) => Precedes(a, b) }

  predicate Conflict(a: Pair, b: Pair)
  {
    a.cur == b.cur || a.prev == b.prev
  }

  method Candidates(previous: seq<Finding>, current: seq<Finding>) returns (candidates: seq<Pair>)
    ensures forall p :: p in candidates <==> IsCandidate(previous, current, p)
    ensures forall p :: p in candidates <==>
      && p.cur < |current| && p.prev < |previous|
      && var c, o := current[p.cur], previous[p.prev];
         && (c.dimension == o.dimension || (c.ruleId != None && c.ruleId == o.ruleId))
         && p.score == Overlap(c.shapeIds, o.shapeIds) && 2.0 * p.score >= 1.0
  {
    candidates := [];
    for ci := 0 to |current|
      invariant forall p :: p in candidates <==> IsCandidate(previous, current, p) && p.cur < ci
    {
      for pi := 0 to |previous|
        invariant forall p :: p in candidates <==> IsCandidate(previous, current, p) && (p.cur < ci || (p.cur == ci && p.prev < pi))
      {
        var c, p := current[ci], previous[pi];
        var score := Overlap(c.shapeIds, p.shapeIds);
        if SameTopic(c, p) && score >= 0.5 {
          candidates := candidates + [Pair(ci, pi, score)];
        }
        hide Overlap, SameTopic;
      }
    }
  }

  // ----- the matching -----

  ghost predicate OneToOne(matched: set<Pair>)
  {
    forall a, b | a in matched && b in matched && Conflict(a, b) :: a == b
  }

  predicate Blocks(m: Pair, c: Pair)
  {
    Conflict(m, c) && Precedes(m, c)
  }

  ghost predicate IsBlocked(matched: set<Pair>, c: Pair)
  {
    exists m | m in matched :: Blocks(m, c)
  }

  /**
   * A matching of candidates, each finding used once, in which every candidate left out lost one of its findings to a
   * pair that sorts no later; so none could be added.
   */
  ghost predicate IsGreedy(previous: seq<Finding>, current: seq<Finding>, matched: set<Pair>)
  {
    && (forall m | m in matched :: IsCandidate(previous, current, m))
    && OneToOne(matched)
    && forall c | IsCandidate(previous, current, c) && c !in matched :: IsBlocked(matched, c)
  }

  lemma PrecedesIsOrder(a: Pair, b: Pair, c: Pair)
    ensures Precedes(a, b) || Precedes(b, a)
    ensures Precedes(a, b) && Precedes(b, a) ==> a == b
    ensures Precedes(a, b) && Precedes(b, c) ==> Precedes(a, c)
  {
  }

  /** The pairs of a matching that come before `c`. */
  ghost function Earlier(matched: set<Pair>, c: Pair): set<Pair>
  {
    set m | m in matched && m != c && Precedes(m, c)
  }

  lemma {:induction false} SameDecision(previous: seq<Finding>, current: seq<Finding>, m1: set<Pair>, m2: set<Pair>,
                                        all: set<Pair>, c: Pair)
    requires IsGreedy(previous, current, m1) && IsGreedy(previous, current, m2) && m2 <= all && m1 <= all && c in m1
    ensures c in m2
    decreases |Earlier(all, c)|
  {
    hide IsCandidate, Precedes, Conflict, Earlier;
    if c !in m2 {
      assert IsBlocked(m2, c);
      var m :| m in m2 && Blocks(m, c);
      EarlierShrinks(all, m, c);
      SameDecision(previous, current, m2, m1, all, m);
    }
  }

  lemma EarlierShrinks(all: set<Pair>, m: Pair, c: Pair)
    requires m in all && m != c && Precedes(m, c)
    ensures |Earlier(all, m)| < |Earlier(all, c)|
  {
    forall x | x in Earlier(all, m)
      ensures x in Earlier(all, c)
    {
      PrecedesIsOrder(x, m, c);
      PrecedesIsOrder(m, x, c);
    }
    assert m in Earlier(all, c) && m !in Earlier(all, m);
    SmallerSet(Earlier(all, m), Earlier(all, c));
  }

  lemma SmallerSet(a: set<Pair>, b: set<Pair>)
    requires a < b
    ensures |a| < |b|
  {
    assert b == a + (b - a);
  }

  /** Every candidate left out shares a finding with a matched pair that scores no less, and on a tie stands first. */
  ghost predicate LosesTo(c: Pair, m: Pair)
  {
    && (m.cur == c.cur || m.prev == c.prev) && m.score >= c.score
    && (m.score == c.score ==> m.cur <= c.cur && (m.cur == c.cur ==> m.prev <= c.prev))
  }

  ghost predicate LeavesOutLosers(previous: seq<Finding>, current: seq<Finding>, matched: set<Pair>)
  {
    forall c | IsCandidate(previous, current, c) && c !in matched :: exists m :: m in matched && LosesTo(c, m)
  }

  lemma GreedyLeavesOutLosers(previous: seq<Finding>, current: seq<Finding>, matched: set<Pair>)
    requires IsGreedy(previous, current, matched)
    ensures LeavesOutLosers(previous, current, matched)
  {
    forall c | IsCandidate(previous, current, c) && c !in matched
      ensures exists m :: m in matched && LosesTo(c, m)
    {
      var m :| m in matched && Blocks(m, c);
      assert LosesTo(c, m);
    }
  }

  /** There is only one such matching. */
  lemma GreedyIsUnique(previous: seq<Finding>, current: seq<Finding>, m1: set<Pair>, m2: set<Pair>)
    requires IsGreedy(previous, current, m1) && IsGreedy(previous, current, m2)
    ensures m1 == m2
  {
    forall c | c in m1
      ensures c in m2
    {
      SameDecision(previous, current, m1, m2, m1 + m2, c);
    }
    forall c | c in m2
      ensures c in m1
    {
      SameDecision(previous, current, m2, m1, m1 + m2, c);
    }
  }

  ghost function Curs(matched: set<Pair>): set<nat>
  {
    set m | m in matched :: m.cur
  }

  ghost function Prevs(matched: set<Pair>): set<nat>
  {
    set m | m in matched :: m.prev
  }

  lemma FreeJoins(matched: set<Pair>, c: Pair)
    requires OneToOne(matched) && c.cur !in Curs(matched) && c.prev !in Prevs(matched)
    ensures OneToOne(matched + {c})
    ensures Curs(matched + {c}) == Curs(matched) + {c.cur} && Prevs(matched + {c}) == Prevs(matched) + {c.prev}
  {
    forall m | m in matched
      ensures !Conflict(m, c)
    {
      assert m.cur in Curs(matched) && m.prev in Prevs(matched);
    }
  }

  lemma OtherwiseFree(matched: set<Pair>, m: Pair)
    requires OneToOne(matched) && m in matched
    ensures m.cur !in Curs(matched - {m}) && m.prev !in Prevs(matched - {m})
  {
    forall x | x in matched - {m}
      ensures !Conflict(x, m)
    {
    }
  }

  lemma {:induction false} EachMatchedOnce(matched: set<Pair>)
    requires OneToOne(matched)
    ensures |Curs(matched)| == |Prevs(matched)| == |matched|
    decreases matched
  {
    if matched == {} {
      assert Curs(matched) == {} && Prevs(matched) == {};
    } else {
      var m :| m in matched;
      var rest := matched - {m};
      EachMatchedOnce(rest);
      OtherwiseFree(matched, m);
      assert OneToOne(rest);
      hide OneToOne, Curs, Prevs;
      FreeJoins(rest, m);
      assert matched == rest + {m};
    }
  }

  /** The matching takes candidates one to one, using these findings, and whatever it skips is blocked. */
  ghost predicate IsMatch(candidates: seq<Pair>, matched: set<Pair>, matchedCur: set<nat>, matchedPrev: set<nat>)
  {
    && matchedCur == Curs(matched) && matchedPrev == Prevs(matched)
    && (forall m | m in matched :: m in candidates) && OneToOne(matched)
    && forall c | c in candidates && c !in matched :: IsBlocked(matched, c)
  }

  /** Best first, taking every pair whose findings are both still free. */
  method Match(candidates: seq<Pair>) returns (matchedCur: set<nat>, matchedPrev: set<nat>)
    requires Ordered(InOrder(), candidates)
    ensures exists matched :: IsMatch(candidates, matched, matchedCur, matchedPrev)
  {
    matchedCur, matchedPrev := {}, {};
    ghost var matched: set<Pair> := {};
    for i := 0 to |candidates|
      invariant IsMatch(candidates[..i], matched, matchedCur, matchedPrev)
    {
      var c := candidates[i];
      if c.cur in matchedCur || c.prev in matchedPrev {
        SkipKeepsMatch(candidates, i, matched, matchedCur, matchedPrev);
        continue;
      }
      TakeKeepsMatch(candidates, i, matched, matchedCur, matchedPrev);
      matchedCur, matchedPrev, matched := matchedCur + {c.cur}, matchedPrev + {c.prev}, matched + {c};
    }
    assert candidates[..|candidates|] == candidates;
  }

  lemma SkipKeepsMatch(candidates: seq<Pair>, i: nat, matched: set<Pair>, curs: set<nat>, prevs: set<nat>)
    requires i < |candidates| && Ordered(InOrder(), candidates) && IsMatch(candidates[..i], matched, curs, prevs)
    requires candidates[i].cur in curs || candidates[i].prev in prevs
    ensures IsMatch(candidates[..i + 1], matched, curs, prevs)
  {
    TakenBlocks(candidates, i, matched);
    hide OneToOne, IsBlocked, Curs, Prevs, Ordered;
    assert candidates[..i + 1] == candidates[..i] + [candidates[i]];
  }

  lemma TakeKeepsMatch(candidates: seq<Pair>, i: nat, matched: set<Pair>, curs: set<nat>, prevs: set<nat>)
    requires i < |candidates| && IsMatch(candidates[..i], matched, curs, prevs)
    requires candidates[i].cur !in curs && candidates[i].prev !in prevs
    ensures var c := candidates[i]; IsMatch(candidates[..i + 1], matched + {c}, curs + {c.cur}, prevs + {c.prev})
  {
    var c := candidates[i];
    FreeJoins(matched, c);
    assert candidates[..i + 1] == candidates[..i] + [c];
    forall d | d in candidates[..i] && d !in matched
      ensures IsBlocked(matched + {c}, d)
    {
      var m :| m in matched && Blocks(m, d);
      assert m in matched + {c};
    }
    hide OneToOne, IsBlocked, Curs, Prevs;
  }

  lemma TakenBlocks(candidates: seq<Pair>, i: nat, matched: set<Pair>)
    requires Ordered(InOrder(), candidates) && i < |candidates|
    requires forall m | m in matched :: m in candidates[..i]
    requires candidates[i].cur in Curs(matched) || candidates[i].prev in Prevs(matched)
    ensures IsBlocked(matched, candidates[i])
  {
    var c := candidates[i];
    var m :| m in matched && Conflict(m, c);
    var k :| 0 <= k < i && candidates[k] == m;
    assert InOrder()(candidates[k], candidates[i]);
    assert Blocks(m, c);
  }

  // ----- the report -----

  /** The findings at positions below `n` that are not in `drop`. */
  function Without(s: seq<Finding>, drop: set<nat>, n: nat): seq<Finding>
    requires n <= |s|
  {
    if n == 0 then [] else Without(s, drop, n - 1) + if n - 1 in drop then [] else [s[n - 1]]
  }

  lemma {:induction false} WithoutCounts(s: seq<Finding>, drop: set<nat>, n: nat)
    requires n <= |s|
    ensures |Without(s, drop, n)| + |set i | i in drop && i < n| == n
  {
    if n == 0 {
      assert (set i | i in drop && i < 0) == {};
    } else {
      WithoutCounts(s, drop, n - 1);
      assert (set i | i in drop && i < n) == (set i | i in drop && i < n - 1) + if n - 1 in drop then {n - 1} else {};
    }
  }

  /** The findings of `s` below `n` that are not in `drop`, in order: those at `positions`. */
  ghost predicate AreTheOthers(s: seq<Finding>, drop: set<nat>, n: nat, r: seq<Finding>, positions: seq<nat>)
  {
    && |positions| == |r| && (forall k, l | 0 <= k < l < |positions| :: positions[k] < positions[l])
    && (forall k | 0 <= k < |positions| :: positions[k] < |s| && s[positions[k]] == r[k])
    && (forall i: nat :: i in positions <==> i < n && i !in drop)
  }

  lemma OneMorePosition(s: seq<Finding>, drop: set<nat>, n: nat, r: seq<Finding>, positions: seq<nat>)
    requires n < |s| && n !in drop && AreTheOthers(s, drop, n, r, positions)
    ensures AreTheOthers(s, drop, n + 1, r + [s[n]], positions + [n])
  {
    assert forall k | 0 <= k < |positions| :: positions[k] in positions;
    forall i: nat
      ensures i in positions + [n] <==> i < n + 1 && i !in drop
    {
      assert i in positions + [n] <==> i in positions || i == n;
    }
  }

  lemma OneMoreDropped(s: seq<Finding>, drop: set<nat>, n: nat, r: seq<Finding>, positions: seq<nat>)
    requires n < |s| && n in drop && AreTheOthers(s, drop, n, r, positions)
    ensures AreTheOthers(s, drop, n + 1, r, positions)
  {
  }

  lemma {:induction false} WithoutIsTheOthers(s: seq<Finding>, drop: set<nat>, n: nat) returns (positions: seq<nat>)
    requires n <= |s|
    ensures AreTheOthers(s, drop, n, Without(s, drop, n), positions)
    decreases n
  {
    if n == 0 {
      return [];
    }
    var front := WithoutIsTheOthers(s, drop, n - 1);
    var r := Without(s, drop, n - 1);
    assert Without(s, drop, n) == r + if n - 1 in drop then [] else [s[n - 1]];
    hide AreTheOthers, Without;
    if n - 1 in drop {
      OneMoreDropped(s, drop, n - 1, r, front);
      assert r + [] == r;
      positions := front;
    } else {
      OneMorePosition(s, drop, n - 1, r, front);
      positions := front + [n - 1];
    }
  }

  /** No finding below `n` after this one has its id. */
  ghost predicate IsLast(current: seq<Finding>, i: nat, n: nat)
    requires i < n <= |current|
  {
    forall j | i < j < n :: current[j].id != current[i].id
  }

  ghost predicate Named(current: seq<Finding>, id: string, n: nat)
    requires n <= |current|
  {
    exists i | 0 <= i < n :: current[i].id == id
  }

  /** Every finding has an entry; the last with an id decides it, should several share it. */
  ghost predicate ShowsChanges(current: seq<Finding>, matchedCur: set<nat>, changes: map<string, Change>, n: nat)
    requires n <= |current|
  {
    && (forall id :: id in changes <==> Named(current, id, n))
    && (forall i | 0 <= i < n && IsLast(current, i, n) :: HasChange(current[i], changes, i in matchedCur))
  }

  predicate HasChange(f: Finding, changes: map<string, Change>, persists: bool)
  {
    f.id in changes && (changes[f.id] == Persisting <==> persists) && (changes[f.id] == IsNew <==> !persists)
  }

  /** The report of a matching: what it matched persists, other newer findings are new, other older ones resolved. */
  ghost predicate Reports(previous: seq<Finding>, current: seq<Finding>, matched: set<Pair>, changes: map<string, Change>,
                          resolved: seq<Finding>)
  {
    && IsGreedy(previous, current, matched)
    && ShowsChanges(current, Curs(matched), changes, |current|)
    && (forall i | 0 <= i < |current| && IsLast(current, i, |current|) ::
          current[i].id in changes && (changes[current[i].id] == Persisting <==> IsMatched(matched, i)))
    && LeavesOutLosers(previous, current, matched)
    && (exists positions :: AreTheOthers(previous, Prevs(matched), |previous|, resolved, positions))
    && |Curs(matched)| == |previous| - |resolved|
  }

  ghost predicate IsMatched(matched: set<Pair>, i: nat)
  {
    exists m :: m in matched && m.cur == i
  }

  lemma MatchedArePositions(previous: seq<Finding>, current: seq<Finding>, matched: set<Pair>)
    requires forall m | m in matched :: IsCandidate(previous, current, m)
    ensures (set i | i in Prevs(matched) && i < |previous|) == Prevs(matched)
  {
  }

  lemma OneMoreName(current: seq<Finding>, id: string, i: nat)
    requires i < |current|
    ensures Named(current, id, i + 1) <==> Named(current, id, i) || current[i].id == id
  {
  }

  lemma EarlierChangeStays(current: seq<Finding>, k: nat, i: nat, changes: map<string, Change>, had: bool, change: Change)
    requires k < i < |current| && IsLast(current, k, i + 1)
    requires IsLast(current, k, i) ==> HasChange(current[k], changes, had)
    ensures HasChange(current[k], changes[current[i].id := change], had)
  {
    assert current[i].id != current[k].id;
  }

  lemma OneMoreChange(current: seq<Finding>, matchedCur: set<nat>, changes: map<string, Change>, i: nat, change: Change)
    requires i < |current| && ShowsChanges(current, matchedCur, changes, i)
    requires change == Persisting <==> i in matchedCur
    ensures ShowsChanges(current, matchedCur, changes[current[i].id := change], i + 1)
  {
    hide IsLast, Named;
    assert HasChange(current[i], changes[current[i].id := change], i in matchedCur);
    hide HasChange;
    forall k | 0 <= k < i && IsLast(current, k, i + 1)
      ensures HasChange(current[k], changes[current[i].id := change], k in matchedCur)
    {
      EarlierChangeStays(current, k, i, changes, k in matchedCur, change);
    }
    var t := changes[current[i].id := change];
    forall id {:trigger id in t}
      ensures id in t <==> Named(current, id, i + 1)
    {
      OneMoreName(current, id, i);
    }
  }

  method ListChanges(current: seq<Finding>, matchedCur: set<nat>) returns (changes: map<string, Change>)
    ensures ShowsChanges(current, matchedCur, changes, |current|)
  {
    changes := map[];
    for i := 0 to |current|
      invariant ShowsChanges(current, matchedCur, changes, i)
    {
      var change := if i in matchedCur then Persisting else IsNew;
      OneMoreChange(current, matchedCur, changes, i, change);
      changes := changes[current[i].id := change];
    }
  }

  lemma GreedyMatch(previous: seq<Finding>, current: seq<Finding>, candidates: seq<Pair>, matched: set<Pair>,
                    curs: set<nat>, prevs: set<nat>)
    requires forall p :: p in candidates <==> IsCandidate(previous, current, p)
    requires IsMatch(candidates, matched, curs, prevs)
    ensures IsGreedy(previous, current, matched)
    ensures |curs| == |previous| - |Without(previous, prevs, |previous|)|
  {
    hide IsBlocked, Curs, Prevs, Without;
    MatchedArePositions(previous, current, matched);
    WithoutCounts(previous, prevs, |previous|);
    EachMatchedOnce(matched);
    hide IsCandidate, OneToOne;
  }

  lemma MatchUses(candidates: seq<Pair>, matched: set<Pair>, curs: set<nat>, prevs: set<nat>)
    requires IsMatch(candidates, matched, curs, prevs)
    ensures curs == Curs(matched) && prevs == Prevs(matched)
  {
  }

  lemma CursAreMatched(matched: set<Pair>)
    ensures forall i: nat :: i in Curs(matched) <==> IsMatched(matched, i)
  {
  }

  lemma ChangesShowMatched(current: seq<Finding>, matched: set<Pair>, changes: map<string, Change>)
    requires ShowsChanges(current, Curs(matched), changes, |current|)
    ensures forall i | 0 <= i < |current| && IsLast(current, i, |current|) ::
      current[i].id in changes && (changes[current[i].id] == Persisting <==> IsMatched(matched, i))
  {
    CursAreMatched(matched);
    hide Curs, IsMatched, IsLast, Named;
  }

  lemma InOrderCompares()
    ensures Compares(InOrder())
  {
    forall a, b, c
      ensures (Precedes(a, b) || Precedes(b, a)) && (Precedes(a, b) && Precedes(b, c) ==> Precedes(a, c))
    {
      PrecedesIsOrder(a, b, c);
    }
  }

  /**
   * The report of the one greedy matching. As many of the older findings as were not matched are resolved.
   */
  method DiffReviews(previous: seq<Finding>, current: seq<Finding>) returns (changes: map<string, Change>, resolved: seq<Finding>)
    ensures exists matched :: Reports(previous, current, matched, changes, resolved)
  {
    var candidates := Candidates(previous, current);
    InOrderCompares();
    SortSorts(InOrder(), candidates);
    var sorted := Sort(InOrder(), candidates);
    hide Sort, Compares, IsCandidate, IsMatch, IsGreedy, ShowsChanges, Without;
    var matchedCur, matchedPrev := Match(sorted);
    ghost var matched :| IsMatch(sorted, matched, matchedCur, matchedPrev);
    GreedyMatch(previous, current, sorted, matched, matchedCur, matchedPrev);
    changes := ListChanges(current, matchedCur);
    resolved := Without(previous, matchedPrev, |previous|);
    assert matchedCur == Curs(matched) && matchedPrev == Prevs(matched) by { MatchUses(sorted, matched, matchedCur, matchedPrev); }
    ghost var positions := WithoutIsTheOthers(previous, matchedPrev, |previous|);
    GreedyLeavesOutLosers(previous, current, matched);
    CursAreMatched(matched);
    hide AreTheOthers, LeavesOutLosers, Curs, Prevs, IsMatched, IsLast;
    ChangesShowMatched(current, matched, changes);
    assert Reports(previous, current, matched, changes, resolved);
  }
}

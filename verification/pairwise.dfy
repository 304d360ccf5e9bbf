/**
 * The pairwise-comparison widget: every pair of objects is shown once, in a
 * fixed order; the expert picks the more important object of each pair,
 * stepping through the pairs with a cursor; the ballot records how many
 * comparisons each object won.
 */
module PairwiseBallot {
  import opened Wrappers
  import opened Domain
  import Records

  /** Two objects shown side by side, and the id of the one picked, if any. */
  datatype Comparison = Comparison(first: VotingObject, second: VotingObject, winner: Option<ObjectId>)

  /** Index pairs `(i, j)` for one value of the outer loop: `j` from `i + 1` to the last index. */
  function Row(n: nat, i: nat): (r: seq<(nat, nat)>)
    requires i < n
    ensures |r| == n - 1 - i
    ensures forall k :: 0 <= k < |r| ==> r[k] == (i, i + 1 + k)
  {
    seq(n - 1 - i, k requires 0 <= k < n - 1 - i => (i, i + 1 + k))
  }

  /**
   * The index pairs the nested loops of `generateComparisons` visit while the
   * outer index runs over `0..i-1`: every pair has `first < second < n`.
   */
  function Rows(n: nat, i: nat): (r: seq<(nat, nat)>)
    requires i <= n
    ensures 2 * |r| == i * (2 * n - i - 1)
    ensures forall k :: 0 <= k < |r| ==> r[k].0 < r[k].1 < n && r[k].0 < i
  {
    if i == 0 then []
    else
      var r := Rows(n, i - 1) + Row(n, i - 1);
      assert 2 * |r| == (i - 1) * (2 * n - i) + 2 * (n - i);
      assert (i - 1) * (2 * n - i) + 2 * (n - i) == i * (2 * n - i - 1);
      r
  }

  /** All index pairs for `n` objects, in the order the source visits them. */
  function AllPairs(n: nat): seq<(nat, nat)>
  {
    Rows(n, n)
  }

  /** `(a, b)` comes strictly before `(c, d)` in lexicographic order. */
  predicate LexLess(p: (nat, nat), q: (nat, nat))
  {
    p.0 < q.0 || (p.0 == q.0 && p.1 < q.1)
  }

  lemma {:induction false} RowsOrdered(n: nat, i: nat)
    requires i <= n
    ensures forall a, b :: 0 <= a < b < |Rows(n, i)| ==> LexLess(Rows(n, i)[a], Rows(n, i)[b])
  {
    if i > 0 {
      RowsOrdered(n, i - 1);
      var prev := Rows(n, i - 1);
      var row := Row(n, i - 1);
      var r := Rows(n, i);
      assert r == prev + row;
      forall a, b | 0 <= a < b < |r| ensures LexLess(r[a], r[b]) {
        if b < |prev| {
          assert r[a] == prev[a] && r[b] == prev[b];
        } else if a < |prev| {
          assert r[a] == prev[a] && r[b] == row[b - |prev|];
        } else {
          assert r[a] == row[a - |prev|] && r[b] == row[b - |prev|];
        }
      }
    }
  }

  lemma {:induction false} RowsComplete(n: nat, i: nat)
    requires i <= n
    ensures forall a: nat, b: nat :: a < b < n && a < i ==> (a, b) in Rows(n, i)
  {
    if i > 0 {
      RowsComplete(n, i - 1);
      var prev := Rows(n, i - 1);
      var row := Row(n, i - 1);
      assert Rows(n, i) == prev + row;
      forall a: nat, b: nat | a < b < n && a < i ensures (a, b) in Rows(n, i) {
        if a == i - 1 {
          assert row[b - i] == (a, b);
        } else {
          assert (a, b) in prev;
        }
      }
    }
  }

  /**
   * For `n` objects there are exactly n·(n−1)/2 index pairs; each has its
   * first index below its second; every such pair occurs; and the sequence
   * is strictly increasing in lexicographic order, so no pair occurs twice.
   */
  lemma AllPairsAreEachPairOnce(n: nat)
    ensures |AllPairs(n)| == n * (n - 1) / 2
    ensures forall k :: 0 <= k < |AllPairs(n)| ==> AllPairs(n)[k].0 < AllPairs(n)[k].1 < n
    ensures forall a: nat, b: nat :: a < b < n ==> (a, b) in AllPairs(n)
    ensures forall k, l :: 0 <= k < l < |AllPairs(n)| ==> LexLess(AllPairs(n)[k], AllPairs(n)[l])
    ensures forall k, l :: 0 <= k < l < |AllPairs(n)| ==> AllPairs(n)[k] != AllPairs(n)[l]
  {
    RowsOrdered(n, n);
    RowsComplete(n, n);
  }

  /** The comparison of the objects at an index pair, not yet answered. */
  function ComparisonAt(objects: seq<VotingObject>, p: (nat, nat)): Comparison
    requires p.0 < |objects| && p.1 < |objects|
  {
    Comparison(objects[p.0], objects[p.1], None)
  }

  /** The reference list of comparisons: one per index pair of `AllPairs`. */
  function ComparisonsFor(objects: seq<VotingObject>): (cs: seq<Comparison>)
    ensures |cs| == |AllPairs(|objects|)|
  {
    var pairs := AllPairs(|objects|);
    seq(|pairs|, k requires 0 <= k < |pairs| => ComparisonAt(objects, pairs[k]))
  }

  /**
   * `generateComparisons`: for every `i` and every `j > i`, the comparison of
   * `objects[i]` with `objects[j]`, unanswered.  The result is a function of
   * the object order alone.
   */
  method GenerateComparisons(objects: seq<VotingObject>) returns (pairs: seq<Comparison>)
    ensures pairs == ComparisonsFor(objects)
    ensures |pairs| == |objects| * (|objects| - 1) / 2
    ensures forall k :: 0 <= k < |pairs| ==> pairs[k].winner == None
  {
    var n := |objects|;
    pairs := [];
    var i := 0;
    while i < n
      invariant 0 <= i <= n
      invariant |pairs| == |Rows(n, i)|
      invariant forall k :: 0 <= k < |pairs| ==> pairs[k] == ComparisonAt(objects, Rows(n, i)[k])
    {
      var j := i + 1;
      ghost var done := Rows(n, i);
      ghost var row := Row(n, i);
      while j < n
        invariant i + 1 <= j <= n
        invariant |pairs| == |done| + (j - i - 1)
        invariant forall k :: 0 <= k < |pairs| ==> pairs[k] == ComparisonAt(objects, (done + row)[k])
      {
        pairs := pairs + [Comparison(objects[i], objects[j], None)];
        j := j + 1;
      }
      assert Rows(n, i + 1) == done + row;
      i := i + 1;
    }
    AllPairsAreEachPairOnce(n);
  }

  /** The object the expert picked: the one shown first or the one shown second. */
  datatype Side = FirstObject | SecondObject

  /** The widget's state: the comparisons and the cursor `currentIndex`. */
  datatype PairwiseState = PairwiseState(comparisons: seq<Comparison>, current: nat)

  /** The cursor points at a comparison (or is 0 when there is none). */
  predicate ValidCursor(st: PairwiseState)
  {
    if st.comparisons == [] then st.current == 0 else st.current < |st.comparisons|
  }

  /** Every answered comparison's winner is one of its two objects. */
  predicate WinnersFromPairs(cs: seq<Comparison>)
  {
    forall k :: 0 <= k < |cs| ==> cs[k].winner == None || cs[k].winner == Some(cs[k].first.id) || cs[k].winner == Some(cs[k].second.id)
  }

  /** `a` and `b` show the same pairs in the same order, whatever their answers. */
  predicate SamePairs(a: seq<Comparison>, b: seq<Comparison>)
  {
    |a| == |b| && forall k :: 0 <= k < |a| ==> a[k].first == b[k].first && a[k].second == b[k].second
  }

  /** No comparison is left unanswered. */
  predicate Answered(cs: seq<Comparison>)
  {
    forall k :: 0 <= k < |cs| ==> cs[k].winner.Some?
  }

  /** The widget once its comparisons are generated: the cursor on the first pair, nothing answered. */
  method StartPairwise(objects: seq<VotingObject>) returns (st: PairwiseState)
    ensures ValidCursor(st) && WinnersFromPairs(st.comparisons)
    ensures st.comparisons == ComparisonsFor(objects) && st.current == 0
    ensures forall k :: 0 <= k < |st.comparisons| ==> st.comparisons[k].winner == None
  {
    var comparisons := GenerateComparisons(objects);
    st := PairwiseState(comparisons, 0);
  }

  /**
   * `handleChoice`: the current comparison gets the picked object as its
   * winner, no other comparison changes, and the cursor moves on unless it
   * is on the last comparison.
   */
  function Choose(st: PairwiseState, side: Side): (st': PairwiseState)
    requires ValidCursor(st) && st.comparisons != []
    ensures ValidCursor(st')
    ensures SamePairs(st'.comparisons, st.comparisons)
    ensures var c := st.comparisons[st.current];
            st'.comparisons[st.current].winner == Some(if side == FirstObject then c.first.id else c.second.id)
    ensures forall k :: 0 <= k < |st.comparisons| && k != st.current ==> st'.comparisons[k] == st.comparisons[k]
    ensures st'.current == if st.current < |st.comparisons| - 1 then st.current + 1 else st.current
    ensures WinnersFromPairs(st.comparisons) ==> WinnersFromPairs(st'.comparisons)
  {
    var c := st.comparisons[st.current];
    var picked := if side == FirstObject then c.first.id else c.second.id;
    var comparisons := st.comparisons[st.current := c.(winner := Some(picked))];
    var next := if st.current < |st.comparisons| - 1 then st.current + 1 else st.current;
    PairwiseState(comparisons, next)
  }

  /** `handlePrevious`: the cursor steps back unless it is on the first comparison; answers are kept. */
  function Previous(st: PairwiseState): (st': PairwiseState)
    requires ValidCursor(st)
    ensures ValidCursor(st')
    ensures st'.comparisons == st.comparisons
    ensures st'.current == if st.current > 0 then st.current - 1 else 0
  {
    if st.current > 0 then st.(current := st.current - 1) else st
  }

  /** Answering comparison after comparison with the given picks. */
  function ChooseAll(st: PairwiseState, sides: seq<Side>): (st': PairwiseState)
    requires ValidCursor(st) && st.comparisons != []
    ensures ValidCursor(st') && st'.comparisons != []
    ensures SamePairs(st'.comparisons, st.comparisons)
    ensures WinnersFromPairs(st.comparisons) ==> WinnersFromPairs(st'.comparisons)
    decreases |sides|
  {
    if sides == [] then st else ChooseAll(Choose(st, sides[0]), sides[1..])
  }

  /**
   * Starting on the first comparison, one pick per comparison answers all of
   * them, so the ballot can then be submitted.
   */
  lemma {:induction false} PickingEveryPairAnswersAll(st: PairwiseState, sides: seq<Side>)
    requires ValidCursor(st) && st.comparisons != []
    requires forall k :: 0 <= k < st.current ==> st.comparisons[k].winner.Some?
    requires st.current + |sides| >= |st.comparisons|
    ensures Answered(ChooseAll(st, sides).comparisons)
    decreases |sides|
  {
    if sides != [] {
      var next := Choose(st, sides[0]);
      if st.current == |st.comparisons| - 1 {
        assert Answered(next.comparisons);
        AnsweredStaysAnswered(next, sides[1..]);
      } else {
        PickingEveryPairAnswersAll(next, sides[1..]);
      }
    }
  }

  lemma {:induction false} AnsweredStaysAnswered(st: PairwiseState, sides: seq<Side>)
    requires ValidCursor(st) && st.comparisons != []
    requires Answered(st.comparisons)
    ensures Answered(ChooseAll(st, sides).comparisons)
    decreases |sides|
  {
    if sides != [] {
      AnsweredStaysAnswered(Choose(st, sides[0]), sides[1..]);
    }
  }

  /**
   * `wins[id] || 0` after the tally loop: the number of comparisons `id`
   * won.  A falsy (empty) winner id is skipped by the loop, so it never
   * collects a win.
   */
  function Wins(cs: seq<Comparison>, id: ObjectId): nat
  {
    if cs == [] then 0
    else (if id != "" && cs[0].winner == Some(id) then 1 else 0) + Wins(cs[1..], id)
  }

  function WinsOf(row: VoteRow): real
  {
    Field(row.value, "wins")
  }

  function TotalOf(row: VoteRow): real
  {
    Field(row.value, "total_comparisons")
  }

  function WinRows(session: SessionId, expert: ExpertId, objects: seq<VotingObject>, cs: seq<Comparison>): (rows: seq<VoteRow>)
    ensures |rows| == |objects|
    ensures AllBelongTo(rows, session, expert)
    ensures forall i :: 0 <= i < |rows| ==> rows[i].objectId == objects[i].id
    ensures forall i :: 0 <= i < |rows| ==> WinsOf(rows[i]) == Wins(cs, objects[i].id) as real
    ensures forall i :: 0 <= i < |rows| ==> TotalOf(rows[i]) == |cs| as real
  {
    seq(|objects|, i requires 0 <= i < |objects| =>
      VoteRow(session, expert, objects[i].id, map["wins" := Wins(cs, objects[i].id) as real, "total_comparisons" := |cs| as real]))
  }

  /**
   * `handleSubmit`'s validation and ballot: refused while any comparison is
   * unanswered; otherwise one row per object with its wins and the number of
   * comparisons.
   */
  function CapturePairwise(session: SessionId, expert: ExpertId, objects: seq<VotingObject>, cs: seq<Comparison>): (r: Result<seq<VoteRow>, SubmitError>)
    ensures r.Err? <==> exists k :: 0 <= k < |cs| && cs[k].winner == None
    ensures r.Err? ==> r.error == UnansweredComparison
    ensures r.Ok? ==> r.value == WinRows(session, expert, objects, cs)
  {
    if exists k :: 0 <= k < |cs| && cs[k].winner == None then Err(UnansweredComparison)
    else Ok(WinRows(session, expert, objects, cs))
  }

  /** `Σ_i wins[ids[i]]`. */
  function WinsOver(cs: seq<Comparison>, ids: seq<ObjectId>): nat
  {
    if ids == [] then 0 else Wins(cs, ids[0]) + WinsOver(cs, ids[1..])
  }

  /** How many of `ids` the winner of `c` is (0 or 1 when `ids` are distinct). */
  function Hits(c: Comparison, ids: seq<ObjectId>): nat
  {
    if ids == [] then 0 else (if ids[0] != "" && c.winner == Some(ids[0]) then 1 else 0) + Hits(c, ids[1..])
  }

  lemma {:induction false} WinsOverSplit(cs: seq<Comparison>, ids: seq<ObjectId>)
    requires cs != []
    ensures WinsOver(cs, ids) == Hits(cs[0], ids) + WinsOver(cs[1..], ids)
  {
    if ids != [] {
      WinsOverSplit(cs, ids[1..]);
    }
  }

  lemma {:induction false} WinsOverEmpty(ids: seq<ObjectId>)
    ensures WinsOver([], ids) == 0
  {
    if ids != [] {
      WinsOverEmpty(ids[1..]);
    }
  }

  lemma {:induction false} HitsOnce(c: Comparison, ids: seq<ObjectId>)
    requires Records.DistinctStrings(ids)
    requires c.winner.Some? && c.winner.value != "" && c.winner.value in ids
    ensures Hits(c, ids) == 1
  {
    var tail := ids[1..];
    assert Records.DistinctStrings(tail) by {
      forall i, j | 0 <= i < j < |tail| ensures tail[i] != tail[j] {
        assert tail[i] == ids[i + 1] && tail[j] == ids[j + 1];
      }
    }
    if ids[0] == c.winner.value {
      HitsNone(c, tail);
    } else {
      HitsOnce(c, tail);
    }
  }

  lemma {:induction false} HitsNone(c: Comparison, ids: seq<ObjectId>)
    requires c.winner.Some? ==> c.winner.value !in ids
    ensures Hits(c, ids) == 0
  {
    if ids != [] {
      HitsNone(c, ids[1..]);
    }
  }

  /** When every comparison was won by one of the listed ids, the wins add up to the number of comparisons. */
  lemma {:induction false} WinsAddUp(cs: seq<Comparison>, ids: seq<ObjectId>)
    requires Records.DistinctStrings(ids)
    requires forall k :: 0 <= k < |cs| ==> cs[k].winner.Some? && cs[k].winner.value != "" && cs[k].winner.value in ids
    ensures WinsOver(cs, ids) == |cs|
  {
    if cs != [] {
      WinsOverSplit(cs, ids);
      HitsOnce(cs[0], ids);
      WinsAddUp(cs[1..], ids);
      assert WinsOver(cs[1..], ids) == |cs| - 1;
      assert Hits(cs[0], ids) == 1;
    } else {
      WinsOverEmpty(ids);
    }
  }

  lemma {:induction false} RowWinsAreWinsOver(session: SessionId, expert: ExpertId, objects: seq<VotingObject>, cs: seq<Comparison>)
    ensures SumField(WinRows(session, expert, objects, cs), "wins") == WinsOver(cs, Ids(objects)) as real
  {
    if objects != [] {
      assert WinRows(session, expert, objects, cs)[1..] == WinRows(session, expert, objects[1..], cs);
      assert Ids(objects)[1..] == Ids(objects[1..]);
      RowWinsAreWinsOver(session, expert, objects[1..], cs);
    }
  }

  /**
   * An accepted pairwise ballot over the session's objects (distinct,
   * non-empty ids; comparisons answered through the widget) distributes
   * exactly one win per comparison: the `wins` of its rows sum to
   * `total_comparisons`.
   */
  lemma AcceptedWinsSumToComparisons(session: SessionId, expert: ExpertId, objects: seq<VotingObject>, cs: seq<Comparison>)
    requires DistinctIds(objects)
    requires forall i :: 0 <= i < |objects| ==> objects[i].id != ""
    requires SamePairs(cs, ComparisonsFor(objects)) && WinnersFromPairs(cs)
    requires CapturePairwise(session, expert, objects, cs).Ok?
    ensures SumField(CapturePairwise(session, expert, objects, cs).value, "wins") == |cs| as real
  {
    var ids := Ids(objects);
    var pairs := AllPairs(|objects|);
    AllPairsAreEachPairOnce(|objects|);
    forall k | 0 <= k < |cs| ensures cs[k].winner.Some? && cs[k].winner.value != "" && cs[k].winner.value in ids {
      assert cs[k].first == objects[pairs[k].0] && cs[k].second == objects[pairs[k].1];
      assert ids[pairs[k].0] == cs[k].first.id && ids[pairs[k].1] == cs[k].second.id;
    }
    WinsAddUp(cs, ids);
    RowWinsAreWinsOver(session, expert, objects, cs);
  }

  /** How many index pairs of `ps` contain the index `x`. */
  function Involving(ps: seq<(nat, nat)>, x: nat): nat
  {
    if ps == [] then 0 else (if ps[0].0 == x || ps[0].1 == x then 1 else 0) + Involving(ps[1..], x)
  }

  lemma {:induction false} InvolvingAppend(a: seq<(nat, nat)>, b: seq<(nat, nat)>, x: nat)
    ensures Involving(a + b, x) == Involving(a, x) + Involving(b, x)
  {
    if a != [] {
      assert (a + b)[1..] == a[1..] + b;
      InvolvingAppend(a[1..], b, x);
    } else {
      assert a + b == b;
    }
  }

  lemma {:induction false} InvolvingAll(ps: seq<(nat, nat)>, x: nat)
    requires forall k :: 0 <= k < |ps| ==> ps[k].0 == x
    ensures Involving(ps, x) == |ps|
  {
    if ps != [] {
      InvolvingAll(ps[1..], x);
    }
  }

  lemma {:induction false} InvolvingNone(ps: seq<(nat, nat)>, x: nat)
    requires forall k :: 0 <= k < |ps| ==> ps[k].0 != x && ps[k].1 != x
    ensures Involving(ps, x) == 0
  {
    if ps != [] {
      InvolvingNone(ps[1..], x);
    }
  }

  /** Row `r` meets index `x` once if `r < x`, at every pair if `r == x`, and never if `r > x`. */
  lemma RowInvolving(n: nat, r: nat, x: nat)
    requires r < n && x < n
    ensures Involving(Row(n, r), x) == if r < x then 1 else if r == x then n - 1 - x else 0
  {
    var row := Row(n, r);
    if r == x {
      InvolvingAll(row, x);
    } else if r > x {
      InvolvingNone(row, x);
    } else {
      var m := x - r - 1;
      assert row == row[..m] + [row[m]] + row[m + 1..];
      InvolvingNone(row[..m], x);
      InvolvingNone(row[m + 1..], x);
      InvolvingAppend(row[..m] + [row[m]], row[m + 1..], x);
      InvolvingAppend(row[..m], [row[m]], x);
    }
  }

  lemma {:induction false} RowsInvolving(n: nat, i: nat, x: nat)
    requires i <= n && x < n
    ensures Involving(Rows(n, i), x) == if i <= x then i else n - 1
  {
    if i > 0 {
      RowsInvolving(n, i - 1, x);
      InvolvingAppend(Rows(n, i - 1), Row(n, i - 1), x);
      RowInvolving(n, i - 1, x);
    }
  }

  /** An object can only win the comparisons it takes part in. */
  lemma {:induction false} WinsWithinInvolving(objects: seq<VotingObject>, cs: seq<Comparison>, ps: seq<(nat, nat)>, x: nat)
    requires DistinctIds(objects) && x < |objects|
    requires |cs| == |ps| && WinnersFromPairs(cs)
    requires forall k :: 0 <= k < |ps| ==> ps[k].0 < |objects| && ps[k].1 < |objects|
    requires forall k :: 0 <= k < |cs| ==> cs[k].first == objects[ps[k].0] && cs[k].second == objects[ps[k].1]
    ensures Wins(cs, objects[x].id) <= Involving(ps, x)
  {
    if cs != [] {
      WinsWithinInvolving(objects, cs[1..], ps[1..], x);
    }
  }

  /**
   * In a ballot over the session's objects (distinct ids), no object wins
   * more than N−1 comparisons: it takes part in exactly N−1 of them.
   */
  lemma WinsAtMostOthers(objects: seq<VotingObject>, cs: seq<Comparison>, x: nat)
    requires DistinctIds(objects) && x < |objects|
    requires SamePairs(cs, ComparisonsFor(objects)) && WinnersFromPairs(cs)
    ensures Wins(cs, objects[x].id) <= |objects| - 1
  {
    var n := |objects|;
    var ps := AllPairs(n);
    RowsInvolving(n, n, x);
    WinsWithinInvolving(objects, cs, ps, x);
  }
}

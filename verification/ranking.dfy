/**
 * The ranking widget: the expert drags objects into order of importance,
 * and the submitted ballot gives each object its position as `rank`.
 */
module RankingBallot {
  import opened Wrappers
  import opened Domain

  /** `s` with the element at `i` taken out: `splice(i, 1)`. */
  function RemoveAt<T>(s: seq<T>, i: nat): (r: seq<T>)
    requires i < |s|
    ensures |r| == |s| - 1
    ensures forall k :: 0 <= k < |r| ==> r[k] == if k < i then s[k] else s[k + 1]
    ensures multiset(r) + multiset{s[i]} == multiset(s)
  {
    assert s == s[..i] + [s[i]] + s[i + 1..];
    s[..i] + s[i + 1..]
  }

  /** `s` with `x` placed at position `i`: `splice(i, 0, x)`. */
  function InsertAt<T>(s: seq<T>, i: nat, x: T): (r: seq<T>)
    requires i <= |s|
    ensures |r| == |s| + 1
    ensures r[i] == x
    ensures RemoveAt(r, i) == s
    ensures multiset(r) == multiset(s) + multiset{x}
  {
    var r := s[..i] + [x] + s[i..];
    assert RemoveAt(r, i) == s;
    r
  }

  /**
   * `handleDragOver`'s reordering: the element at `from` moves to `to`; the
   * result is a permutation of `s` in which every other element keeps its
   * relative order.
   */
  function Move<T>(s: seq<T>, from: nat, to: nat): (r: seq<T>)
    requires from < |s| && to < |s|
    ensures |r| == |s|
    ensures r[to] == s[from]
    ensures RemoveAt(r, to) == RemoveAt(s, from)
    ensures multiset(r) == multiset(s)
  {
    InsertAt(RemoveAt(s, from), to, s[from])
  }

  /** A sequence is determined by one of its items and what is left when that item is removed. */
  lemma SameRemoval<T>(a: seq<T>, b: seq<T>, i: nat)
    requires i < |a| == |b| && a[i] == b[i] && RemoveAt(a, i) == RemoveAt(b, i)
    ensures a == b
  {
    forall k | 0 <= k < |a| ensures a[k] == b[k] {
      if k < i {
        assert a[k] == RemoveAt(a, i)[k] && b[k] == RemoveAt(b, i)[k];
      } else if k > i {
        assert a[k] == RemoveAt(a, i)[k - 1] && b[k] == RemoveAt(b, i)[k - 1];
      }
    }
  }

  /** Taking an element out and putting it back where it was restores the list. */
  lemma InsertRemovedBack<T>(s: seq<T>, i: nat)
    requires i < |s|
    ensures InsertAt(RemoveAt(s, i), i, s[i]) == s
  {
    SameRemoval(InsertAt(RemoveAt(s, i), i, s[i]), s, i);
  }

  /** Dragging the item back to where it came from undoes a move. */
  lemma {:induction false} MoveBackRestores<T>(s: seq<T>, from: nat, to: nat)
    requires from < |s| && to < |s|
    ensures Move(Move(s, from, to), to, from) == s
  {
    var r := Move(s, from, to);
    InsertRemovedBack(s, from);
  }

  /** The widget's state: the current order and the index being dragged, if any. */
  datatype DragState = DragState(ranked: seq<VotingObject>, dragged: Option<nat>)

  predicate ValidDrag(st: DragState)
  {
    st.dragged.Some? ==> st.dragged.value < |st.ranked|
  }

  /** `setRankedObjects([...objects])`: the ranking starts as the object list in its given order. */
  function StartRanking(objects: seq<VotingObject>): (st: DragState)
    ensures st.ranked == objects && st.dragged == None
    ensures ValidDrag(st)
  {
    DragState(objects, None)
  }

  /** `handleDragStart`: remember which item is being dragged. */
  function DragStart(st: DragState, index: nat): (st': DragState)
    requires index < |st.ranked|
    ensures st'.ranked == st.ranked && st'.dragged == Some(index)
    ensures ValidDrag(st')
  {
    st.(dragged := Some(index))
  }

  /**
   * `handleDragOver`: nothing happens without a dragged item or over the
   * item itself; otherwise the dragged item moves to `index` and stays the
   * dragged one.
   */
  function DragOver(st: DragState, index: nat): (st': DragState)
    requires ValidDrag(st) && index < |st.ranked|
    ensures ValidDrag(st')
    ensures multiset(st'.ranked) == multiset(st.ranked)
    ensures st.dragged == None || st.dragged == Some(index) ==> st' == st
    ensures st.dragged.Some? && st.dragged.value != index ==>
              && st'.dragged == Some(index)
              && st'.ranked[index] == st.ranked[st.dragged.value]
              && RemoveAt(st'.ranked, index) == RemoveAt(st.ranked, st.dragged.value)
  {
    match st.dragged
    case None => st
    case Some(from) =>
      if from == index then st
      else DragState(Move(st.ranked, from, index), Some(index))
  }

  /** A run of drag-over events, one per target index. */
  function DragOverAll(st: DragState, targets: seq<nat>): DragState
    requires ValidDrag(st)
    decreases |targets|
  {
    if targets == [] || targets[0] >= |st.ranked| then st
    else DragOverAll(DragOver(st, targets[0]), targets[1..])
  }

  /**
   * However many drag-overs follow a drag start, the dragged index still
   * points at the item that was picked up.
   */
  lemma {:induction false} DragTracksItem(st: DragState, targets: seq<nat>)
    requires ValidDrag(st) && st.dragged.Some?
    ensures ValidDrag(DragOverAll(st, targets)) && DragOverAll(st, targets).dragged.Some?
    ensures DragOverAll(st, targets).ranked[DragOverAll(st, targets).dragged.value] == st.ranked[st.dragged.value]
    decreases |targets|
  {
    if targets != [] && targets[0] < |st.ranked| {
      var next := DragOver(st, targets[0]);
      assert next.ranked[next.dragged.value] == st.ranked[st.dragged.value];
      DragTracksItem(next, targets[1..]);
      assert DragOverAll(st, targets) == DragOverAll(next, targets[1..]);
    }
  }

  /** Dragging only ever reorders: the ranking stays a permutation of what it was. */
  lemma {:induction false} DragKeepsPermutation(st: DragState, targets: seq<nat>)
    requires ValidDrag(st)
    ensures multiset(DragOverAll(st, targets).ranked) == multiset(st.ranked)
    decreases |targets|
  {
    if targets != [] && targets[0] < |st.ranked| {
      var next := DragOver(st, targets[0]);
      DragKeepsPermutation(next, targets[1..]);
      assert DragOverAll(st, targets) == DragOverAll(next, targets[1..]);
    }
  }

  /** The `rank` a vote row carries (`vote_value.rank || 0`). */
  function RankOf(row: VoteRow): real
  {
    Field(row.value, "rank")
  }

  /** `handleSubmit`'s rows: one per ranked object, `rank` = position + 1, the top item first. */
  function RankRows(session: SessionId, expert: ExpertId, ranked: seq<VotingObject>): (rows: seq<VoteRow>)
    ensures |rows| == |ranked|
    ensures AllBelongTo(rows, session, expert)
    ensures forall i :: 0 <= i < |rows| ==> rows[i].objectId == ranked[i].id
    ensures forall i :: 0 <= i < |rows| ==> RankOf(rows[i]) == (i + 1) as real
  {
    seq(|ranked|, i requires 0 <= i < |ranked| => VoteRow(session, expert, ranked[i].id, map["rank" := (i + 1) as real]))
  }

  /** The distinct rank values used by `rows`. */
  function RankSet(rows: seq<VoteRow>): set<real>
  {
    if rows == [] then {} else RankSet(rows[..|rows| - 1]) + {RankOf(rows[|rows| - 1])}
  }

  /** The values 1..n. */
  function OneTo(n: nat): set<real>
  {
    if n == 0 then {} else OneTo(n - 1) + {n as real}
  }

  lemma {:induction false} PositionalRanks(rows: seq<VoteRow>)
    requires forall i :: 0 <= i < |rows| ==> RankOf(rows[i]) == (i + 1) as real
    ensures RankSet(rows) == OneTo(|rows|)
  {
    if rows != [] {
      PositionalRanks(rows[..|rows| - 1]);
    }
  }

  /**
   * The ranks of a submitted ranking are exactly 1..N: none repeats, every
   * value in between is used, and the top item has rank 1.
   */
  lemma RanksAreOneToN(session: SessionId, expert: ExpertId, ranked: seq<VotingObject>)
    ensures var rows := RankRows(session, expert, ranked);
            && RankSet(rows) == OneTo(|rows|)
            && (forall i, j :: 0 <= i < j < |rows| ==> RankOf(rows[i]) != RankOf(rows[j]))
            && (|rows| > 0 ==> RankOf(rows[0]) == 1.0)
  {
    PositionalRanks(RankRows(session, expert, ranked));
  }

  /**
   * A ranking reached by dragging the session's objects gives each object
   * exactly one row: every object's id occurs, and no id occurs twice.
   */
  lemma RankBallotCoversObjects(session: SessionId, expert: ExpertId, objects: seq<VotingObject>, ranked: seq<VotingObject>)
    requires multiset(ranked) == multiset(objects)
    requires DistinctIds(objects)
    ensures var rows := RankRows(session, expert, ranked);
            && (forall o :: o in objects ==> exists i :: 0 <= i < |rows| && rows[i].objectId == o.id)
            && (forall i, j :: 0 <= i < j < |rows| ==> rows[i].objectId != rows[j].objectId)
  {
    var rows := RankRows(session, expert, ranked);
    PermutationKeepsDistinctIds(objects, ranked);
    forall o | o in objects ensures exists i :: 0 <= i < |rows| && rows[i].objectId == o.id {
      assert o in multiset(ranked);
      var i :| 0 <= i < |ranked| && ranked[i] == o;
      assert rows[i].objectId == o.id;
    }
  }
}

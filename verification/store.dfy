/**
 * The submit step every voting widget shares: validate, delete the expert's
 * previous rows of the session, insert the new ballot, then mark the expert
 * as having voted.  The storage replies are parameters.
 */
module Store {
  import opened Wrappers
  import opened Domain

  /** What the `votes` table answered to a `delete` or an `insert`. */
  datatype Reply = Done | Failed

  /** The `votes` table and the expert's `has_voted` flag after a submit. */
  datatype Submission = Submission(votes: seq<VoteRow>, hasVoted: bool)

  /** `votes.select().eq('session_id', session).eq('expert_id', expert)`. */
  function RowsOf(votes: seq<VoteRow>, session: SessionId, expert: ExpertId): (r: seq<VoteRow>)
    ensures AllBelongTo(r, session, expert)
    ensures |r| <= |votes|
  {
    if votes == [] then []
    else if votes[0].session == session && votes[0].expert == expert then [votes[0]] + RowsOf(votes[1..], session, expert)
    else RowsOf(votes[1..], session, expert)
  }

  /** The table after `delete().eq('session_id', session).eq('expert_id', expert)`. */
  function DeleteRowsOf(votes: seq<VoteRow>, session: SessionId, expert: ExpertId): (r: seq<VoteRow>)
    ensures forall i :: 0 <= i < |r| ==> r[i] in votes && !(r[i].session == session && r[i].expert == expert)
    ensures |r| <= |votes|
  {
    if votes == [] then []
    else if votes[0].session == session && votes[0].expert == expert then DeleteRowsOf(votes[1..], session, expert)
    else [votes[0]] + DeleteRowsOf(votes[1..], session, expert)
  }

  /**
   * The rows of the other (session, expert) pairs: what one expert's submit
   * must leave alone.
   */
  function OthersOf(votes: seq<VoteRow>, session: SessionId, expert: ExpertId): seq<VoteRow>
  {
    DeleteRowsOf(votes, session, expert)
  }

  lemma {:induction false} RowsOfAppend(a: seq<VoteRow>, b: seq<VoteRow>, session: SessionId, expert: ExpertId)
    ensures RowsOf(a + b, session, expert) == RowsOf(a, session, expert) + RowsOf(b, session, expert)
    ensures DeleteRowsOf(a + b, session, expert) == DeleteRowsOf(a, session, expert) + DeleteRowsOf(b, session, expert)
  {
    if a != [] {
      assert (a + b)[1..] == a[1..] + b;
      RowsOfAppend(a[1..], b, session, expert);
    } else {
      assert a + b == b;
    }
  }

  lemma {:induction false} RowsOfOwnRows(rows: seq<VoteRow>, session: SessionId, expert: ExpertId)
    requires AllBelongTo(rows, session, expert)
    ensures RowsOf(rows, session, expert) == rows
    ensures DeleteRowsOf(rows, session, expert) == []
  {
    if rows != [] {
      RowsOfOwnRows(rows[1..], session, expert);
    }
  }

  lemma {:induction false} DeleteLeavesNoRows(votes: seq<VoteRow>, session: SessionId, expert: ExpertId)
    ensures RowsOf(DeleteRowsOf(votes, session, expert), session, expert) == []
    ensures DeleteRowsOf(DeleteRowsOf(votes, session, expert), session, expert) == DeleteRowsOf(votes, session, expert)
  {
    if votes != [] {
      DeleteLeavesNoRows(votes[1..], session, expert);
    }
  }

  /**
   * Delete-then-insert replacement of one expert's ballot, as every
   * `handleSubmit` performs it when both storage calls succeed: afterwards
   * the expert's rows are exactly the new ballot and every other row is
   * untouched.
   */
  function Replace(votes: seq<VoteRow>, session: SessionId, expert: ExpertId, ballot: seq<VoteRow>): (r: seq<VoteRow>)
    requires AllBelongTo(ballot, session, expert)
    ensures RowsOf(r, session, expert) == ballot
    ensures OthersOf(r, session, expert) == OthersOf(votes, session, expert)
    ensures |r| == |votes| - |RowsOf(votes, session, expert)| + |ballot|
  {
    var kept := DeleteRowsOf(votes, session, expert);
    RowsOfAppend(kept, ballot, session, expert);
    DeleteLeavesNoRows(votes, session, expert);
    RowsOfOwnRows(ballot, session, expert);
    SplitCount(votes, session, expert);
    kept + ballot
  }

  /** Every row is either the expert's or someone else's. */
  lemma {:induction false} SplitCount(votes: seq<VoteRow>, session: SessionId, expert: ExpertId)
    ensures |RowsOf(votes, session, expert)| + |DeleteRowsOf(votes, session, expert)| == |votes|
  {
    if votes != [] {
      SplitCount(votes[1..], session, expert);
    }
  }

  /**
   * `handleSubmit` as written: a refused ballot changes nothing; otherwise the
   * delete's reply is not inspected, the insert runs regardless, and
   * `has_voted` is set only when the insert succeeded.
   */
  function SubmitAsWritten(votes: seq<VoteRow>, session: SessionId, expert: ExpertId,
                           ballot: Result<seq<VoteRow>, SubmitError>,
                           deleteReply: Reply, insertReply: Reply, hasVoted: bool): (s: Submission)
    requires ballot.Ok? ==> AllBelongTo(ballot.value, session, expert)
    ensures ballot.Err? ==> s == Submission(votes, hasVoted)
    ensures s.hasVoted <==> hasVoted || (ballot.Ok? && insertReply == Done)
    ensures OthersOf(s.votes, session, expert) == OthersOf(votes, session, expert)
    ensures ballot.Ok? ==>
              RowsOf(s.votes, session, expert)
              == (if deleteReply == Done then [] else RowsOf(votes, session, expert))
                 + (if insertReply == Done then ballot.value else [])
  {
    match ballot
    case Err(_) => Submission(votes, hasVoted)
    case Ok(rows) =>
      var afterDelete := if deleteReply == Done then DeleteRowsOf(votes, session, expert) else votes;
      DeleteLeavesNoRows(votes, session, expert);
      RowsOfAppend(afterDelete, rows, session, expert);
      RowsOfOwnRows(rows, session, expert);
      if insertReply == Done then Submission(afterDelete + rows, true)
      else Submission(afterDelete, hasVoted)
  }

  /**
   * As written, a failed delete followed by a successful insert leaves the
   * expert with the old and the new ballot side by side.
   */
  lemma SubmitAsWrittenKeepsStaleBallot()
    ensures var stale := [VoteRow("s", "e", "a", map["score" := 2.0])];
            var newer := [VoteRow("s", "e", "a", map["score" := 8.0])];
            RowsOf(SubmitAsWritten(stale, "s", "e", Ok(newer), Failed, Done, false).votes, "s", "e") == stale + newer
  {
    var stale := [VoteRow("s", "e", "a", map["score" := 2.0])];
    var newer := [VoteRow("s", "e", "a", map["score" := 8.0])];
    RowsOfAppend(stale, newer, "s", "e");
    RowsOfOwnRows(stale, "s", "e");
    RowsOfOwnRows(newer, "s", "e");
  }

  /**
   * `handleSubmit` with the delete's reply checked: a failed delete aborts
   * the submit.  The expert then ends with the old ballot, the new ballot,
   * or (when the insert alone failed) none, never a mix of two.
   */
  function Submit(votes: seq<VoteRow>, session: SessionId, expert: ExpertId,
                  ballot: Result<seq<VoteRow>, SubmitError>,
                  deleteReply: Reply, insertReply: Reply, hasVoted: bool): (s: Submission)
    requires ballot.Ok? ==> AllBelongTo(ballot.value, session, expert)
    ensures ballot.Err? || deleteReply == Failed ==> s == Submission(votes, hasVoted)
    ensures ballot.Ok? && deleteReply == Done && insertReply == Done ==>
              RowsOf(s.votes, session, expert) == ballot.value
    ensures ballot.Ok? && deleteReply == Done && insertReply == Failed ==>
              RowsOf(s.votes, session, expert) == []
    ensures OthersOf(s.votes, session, expert) == OthersOf(votes, session, expert)
    ensures s.hasVoted <==> hasVoted || (ballot.Ok? && deleteReply == Done && insertReply == Done)
  {
    match ballot
    case Err(_) => Submission(votes, hasVoted)
    case Ok(rows) =>
      if deleteReply == Failed then Submission(votes, hasVoted)
      else if insertReply == Done then
        assert deleteReply == Done;
        Submission(Replace(votes, session, expert, rows), true)
      else
        DeleteLeavesNoRows(votes, session, expert);
        Submission(DeleteRowsOf(votes, session, expert), hasVoted)
  }
}

/**
 * The direct-scoring widget: each object gets a score between 0 and 10, and
 * the submitted ballot carries that score for every object.
 */
module DirectBallot {
  import opened Wrappers
  import opened Domain
  import opened Records

  const MinScore: real := 0.0
  const MaxScore: real := 10.0

  /** The invariant of the `scores` state: one value per key, each in [0, 10]. */
  predicate ValidScores(scores: Record)
  {
    UniqueKeys(scores) && ValuesWithin(scores, MinScore, MaxScore)
  }

  /** An input the widget stores. */
  predicate AcceptedScore(input: NumberInput)
  {
    input.Number? && MinScore <= input.x <= MaxScore
  }

  /**
   * `handleScoreChange`: a number in [0, 10] is stored under the object, an
   * emptied field removes the object's score, and anything else (text that
   * is not a number, a number out of range) leaves the scores as they were.
   */
  function ChangeScore(scores: Record, id: ObjectId, input: NumberInput): (r: Record)
    ensures AcceptedScore(input) ==> Get(r, id) == Some(input.x)
    ensures input.Blank? ==> Get(r, id) == None
    ensures forall k :: k != id ==> Get(r, k) == Get(scores, k)
    ensures !AcceptedScore(input) && !input.Blank? ==> r == scores
    ensures ValidScores(scores) ==> ValidScores(r)
  {
    match input
    case Number(x) => if MinScore <= x <= MaxScore then Put(scores, id, x) else scores
    case Blank => Delete(scores, id)
    case NotANumber => scores
  }

  /** The `score` a vote row carries (`vote_value.score || 0`). */
  function ScoreOf(row: VoteRow): real
  {
    Field(row.value, "score")
  }

  /** One row per object with `score: scores[id] || 0`. */
  function ScoreRows(session: SessionId, expert: ExpertId, objects: seq<VotingObject>, scores: Record): (rows: seq<VoteRow>)
    ensures |rows| == |objects|
    ensures AllBelongTo(rows, session, expert)
    ensures forall i :: 0 <= i < |rows| ==> rows[i].objectId == objects[i].id
    ensures forall i :: 0 <= i < |rows| ==> ScoreOf(rows[i]) == GetOr(scores, objects[i].id, 0.0)
  {
    seq(|objects|, i requires 0 <= i < |objects| =>
      VoteRow(session, expert, objects[i].id, map["score" := GetOr(scores, objects[i].id, 0.0)]))
  }

  /**
   * `handleSubmit`'s validation and ballot: refused unless there are as many
   * scored keys (`Object.keys(scores).length`) as objects; otherwise one row
   * per object, every score in [0, 10].
   */
  function CaptureScores(session: SessionId, expert: ExpertId, objects: seq<VotingObject>, scores: Record): (r: Result<seq<VoteRow>, SubmitError>)
    ensures r.Err? <==> |KeySet(scores)| != |objects|
    ensures r.Err? ==> r.error == MissingValues
    ensures r.Ok? ==> r.value == ScoreRows(session, expert, objects, scores)
    ensures r.Ok? && ValidScores(scores) ==> forall i :: 0 <= i < |r.value| ==> MinScore <= ScoreOf(r.value[i]) <= MaxScore
  {
    if |KeySet(scores)| != |objects| then Err(MissingValues)
    else
      var rows := ScoreRows(session, expert, objects, scores);
      ScoresWithin(scores, objects);
      Ok(rows)
  }

  lemma ScoresWithin(scores: Record, objects: seq<VotingObject>)
    ensures ValidScores(scores) ==> forall i :: 0 <= i < |objects| ==> MinScore <= GetOr(scores, objects[i].id, 0.0) <= MaxScore
  {
    forall i | 0 <= i < |objects| && ValidScores(scores) ensures MinScore <= GetOr(scores, objects[i].id, 0.0) <= MaxScore {
      if Get(scores, objects[i].id).Some? {
        GetFromEntry(scores, objects[i].id);
      }
    }
  }

  /**
   * When the scores were entered through the object list (every key is an
   * object id), passing the count check means every object was scored: no
   * row falls back to the default 0.
   */
  lemma AcceptedBallotScoresEveryObject(session: SessionId, expert: ExpertId, objects: seq<VotingObject>, scores: Record)
    requires ValidScores(scores) && DistinctIds(objects)
    requires forall i :: 0 <= i < |scores| ==> scores[i].key in Ids(objects)
    requires CaptureScores(session, expert, objects, scores).Ok?
    ensures forall i :: 0 <= i < |objects| ==> Get(scores, objects[i].id).Some?
  {
    KeySetFacts(scores);
    CountedRecordIsComplete(scores, Ids(objects));
  }
}

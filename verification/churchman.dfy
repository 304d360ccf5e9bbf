/**
 * The Churchman–Ackoff widget: each object gets a nonnegative weight; the
 * submitted ballot carries the raw weight and the weight divided by the
 * total, so that one expert's normalised weights sum to 1.
 */
module ChurchmanBallot {
  import opened Wrappers
  import opened Domain
  import opened Records

  /** The invariant of the `weights` state: one value per key, none negative. */
  predicate ValidWeights(weights: Record)
  {
    UniqueKeys(weights) && NonNegative(weights)
  }

  /** An input the widget stores. */
  predicate AcceptedWeight(input: NumberInput)
  {
    input.Number? && 0.0 <= input.x
  }

  /**
   * `handleWeightChange`: a number of at least 0 is stored under the object,
   * an emptied field removes the object's weight, and anything else leaves
   * the weights as they were.
   */
  function ChangeWeight(weights: Record, id: ObjectId, input: NumberInput): (r: Record)
    ensures AcceptedWeight(input) ==> Get(r, id) == Some(input.x)
    ensures input.Blank? ==> Get(r, id) == None
    ensures forall k :: k != id ==> Get(r, k) == Get(weights, k)
    ensures !AcceptedWeight(input) && !input.Blank? ==> r == weights
    ensures ValidWeights(weights) ==> ValidWeights(r)
  {
    match input
    case Number(x) => if 0.0 <= x then Put(weights, id, x) else weights
    case Blank => Delete(weights, id)
    case NotANumber => weights
  }

  /** `getTotalWeight`: the sum of the stored weights, which bounds each of them. */
  function TotalWeight(weights: Record): (total: real)
    ensures NonNegative(weights) ==> 0.0 <= total
    ensures NonNegative(weights) ==> forall i :: 0 <= i < |weights| ==> weights[i].value <= total
  {
    if NonNegative(weights) then SumBoundsValues(weights); Sum(weights)
    else Sum(weights)
  }

  /** The `normalizedWeights` object: every weight divided by `total`, keys in the same order. */
  function Normalize(weights: Record, total: real): (n: Record)
    requires total != 0.0
    ensures |n| == |weights|
    ensures forall i :: 0 <= i < |n| ==> n[i] == Entry(weights[i].key, weights[i].value / total)
    ensures Sum(n) == Sum(weights) / total
  {
    if weights == [] then []
    else
      var rest := Normalize(weights[1..], total);
      DivAdd(weights[0].value, Sum(weights[1..]), total);
      [Entry(weights[0].key, weights[0].value / total)] + rest
  }

  lemma DivAdd(a: real, b: real, t: real)
    requires t != 0.0
    ensures a / t + b / t == (a + b) / t
  {
  }

  lemma DivMonotone(a: real, b: real, t: real)
    requires 0.0 < t
    ensures a <= b <==> a / t <= b / t
  {
    var x := a / t;
    var y := b / t;
    assert x * t == a;
    assert y * t == b;
    if x <= y {
      assert x * t <= y * t;
    }
  }

  /** Normalisation keeps the keys, and reads back each weight divided by the total. */
  lemma {:induction false} NormalizeGet(weights: Record, total: real, k: string)
    requires total != 0.0
    ensures Get(Normalize(weights, total), k).Some? <==> Get(weights, k).Some?
    ensures Get(weights, k).Some? ==> Get(Normalize(weights, total), k).value == Get(weights, k).value / total
    ensures UniqueKeys(weights) ==> UniqueKeys(Normalize(weights, total))
  {
    if weights != [] {
      NormalizeGet(weights[1..], total, k);
      NormalizeGet(weights[1..], total, weights[0].key);
      assert Normalize(weights, total)[1..] == Normalize(weights[1..], total);
    }
  }

  /** Normalising by the total gives weights that sum to exactly 1. */
  lemma NormalizedSumIsOne(weights: Record)
    requires TotalWeight(weights) != 0.0
    ensures Sum(Normalize(weights, TotalWeight(weights))) == 1.0
  {
    var t := TotalWeight(weights);
    assert t == Sum(weights);
    DivSelf(t);
  }

  lemma DivSelf(t: real)
    requires t != 0.0
    ensures t / t == 1.0
  {
  }

  /** With nonnegative weights and a positive total, each normalised weight lies in [0, 1]. */
  lemma NormalizedInUnitRange(weights: Record)
    requires NonNegative(weights) && TotalWeight(weights) != 0.0
    ensures ValuesWithin(Normalize(weights, TotalWeight(weights)), 0.0, 1.0)
  {
    var t := TotalWeight(weights);
    var n := Normalize(weights, t);
    forall i | 0 <= i < |n| ensures 0.0 <= n[i].value <= 1.0 {
      assert weights[i].value <= t;
      DivideBelowTotal(weights[i].value, t);
    }
  }

  lemma DivideBelowTotal(w: real, t: real)
    requires 0.0 <= w <= t && 0.0 < t
    ensures 0.0 <= w / t <= 1.0
  {
    assert w / t * t == w;
  }

  /** Dividing by a positive total keeps the order of the weights, in both directions. */
  lemma NormalizeKeepsOrder(weights: Record, total: real, i: nat, j: nat)
    requires 0.0 < total && i < |weights| && j < |weights|
    ensures var n := Normalize(weights, total);
            weights[i].value <= weights[j].value <==> n[i].value <= n[j].value
  {
    DivMonotone(weights[i].value, weights[j].value, total);
  }

  /** Weights that already sum to 1 come back unchanged, so normalising twice is normalising once. */
  lemma {:induction false} NormalizeIdempotent(weights: Record)
    requires TotalWeight(weights) == 1.0
    ensures Normalize(weights, TotalWeight(weights)) == weights
  {
    var n := Normalize(weights, 1.0);
    assert forall i :: 0 <= i < |n| ==> n[i] == weights[i];
  }

  /** `vote_value.weight || 0` and `vote_value.normalized_weight || 0` of a row. */
  function WeightOf(row: VoteRow): real
  {
    Field(row.value, "weight")
  }

  function NormalizedOf(row: VoteRow): real
  {
    Field(row.value, "normalized_weight")
  }

  /** The payload of one object: the raw weight, and the normalised one when the object has a weight. */
  function WeightPayload(weights: Record, normalized: Record, id: ObjectId): Payload
  {
    match Get(normalized, id)
    case Some(v) => map["weight" := GetOr(weights, id, 0.0), "normalized_weight" := v]
    case None => map["weight" := GetOr(weights, id, 0.0)]
  }

  function WeightRows(session: SessionId, expert: ExpertId, objects: seq<VotingObject>, weights: Record, normalized: Record): (rows: seq<VoteRow>)
    ensures |rows| == |objects|
    ensures AllBelongTo(rows, session, expert)
    ensures forall i :: 0 <= i < |rows| ==> rows[i].objectId == objects[i].id
    ensures forall i :: 0 <= i < |rows| ==> WeightOf(rows[i]) == GetOr(weights, objects[i].id, 0.0)
    ensures forall i :: 0 <= i < |rows| ==> ("normalized_weight" in rows[i].value <==> Get(normalized, objects[i].id).Some?)
    ensures forall i :: 0 <= i < |rows| ==> NormalizedOf(rows[i]) == GetOr(normalized, objects[i].id, 0.0)
  {
    seq(|objects|, i requires 0 <= i < |objects| => VoteRow(session, expert, objects[i].id, WeightPayload(weights, normalized, objects[i].id)))
  }

  /**
   * `handleSubmit`'s validation and ballot: refused unless there are as many
   * weighted keys (`Object.keys(weights).length`) as objects, then refused if
   * the total is 0; otherwise one row per object with `weight = weights[id]
   * || 0` and `normalized_weight = weights[id] / total`, the latter present
   * exactly when the object has a weight.
   */
  function CaptureWeights(session: SessionId, expert: ExpertId, objects: seq<VotingObject>, weights: Record): (r: Result<seq<VoteRow>, SubmitError>)
    ensures |KeySet(weights)| != |objects| ==> r == Err(MissingValues)
    ensures |KeySet(weights)| == |objects| && TotalWeight(weights) == 0.0 ==> r == Err(ZeroTotalWeight)
    ensures r.Ok? <==> |KeySet(weights)| == |objects| && TotalWeight(weights) != 0.0
    ensures r.Ok? ==> |r.value| == |objects| && AllBelongTo(r.value, session, expert)
    ensures r.Ok? ==> forall i :: 0 <= i < |r.value| ==>
              && r.value[i].objectId == objects[i].id
              && WeightOf(r.value[i]) == GetOr(weights, objects[i].id, 0.0)
              && ("normalized_weight" in r.value[i].value <==> Get(weights, objects[i].id).Some?)
              && NormalizedOf(r.value[i]) == GetOr(weights, objects[i].id, 0.0) / TotalWeight(weights)
  {
    if |KeySet(weights)| != |objects| then Err(MissingValues)
    else
      var total := TotalWeight(weights);
      if total == 0.0 then Err(ZeroTotalWeight)
      else
        var normalized := Normalize(weights, total);
        var rows := WeightRows(session, expert, objects, weights, normalized);
        NormalizedRows(objects, weights, total);
        Ok(rows)
  }

  lemma NormalizedRows(objects: seq<VotingObject>, weights: Record, total: real)
    requires total != 0.0
    ensures forall i :: 0 <= i < |objects| ==>
              var p := WeightPayload(weights, Normalize(weights, total), objects[i].id);
              && ("normalized_weight" in p <==> Get(weights, objects[i].id).Some?)
              && Field(p, "normalized_weight") == GetOr(weights, objects[i].id, 0.0) / total
  {
    forall i | 0 <= i < |objects| ensures
              var p := WeightPayload(weights, Normalize(weights, total), objects[i].id);
              && ("normalized_weight" in p <==> Get(weights, objects[i].id).Some?)
              && Field(p, "normalized_weight") == GetOr(weights, objects[i].id, 0.0) / total
    {
      NormalizeGet(weights, total, objects[i].id);
    }
  }

  /** The normalised weights of a ballot's rows, summed over the rows in order. */
  lemma {:induction false} RowSumIsKeySum(session: SessionId, expert: ExpertId, objects: seq<VotingObject>, weights: Record, normalized: Record)
    ensures SumField(WeightRows(session, expert, objects, weights, normalized), "normalized_weight") == SumAt(normalized, Ids(objects))
  {
    if objects != [] {
      var rows := WeightRows(session, expert, objects, weights, normalized);
      assert rows[1..] == WeightRows(session, expert, objects[1..], weights, normalized);
      assert Ids(objects)[1..] == Ids(objects[1..]);
      RowSumIsKeySum(session, expert, objects[1..], weights, normalized);
    }
  }

  /**
   * An accepted ballot whose weights were entered through the object list
   * (every key is an object id) has normalised weights that sum to exactly 1.
   */
  lemma AcceptedBallotSumsToOne(session: SessionId, expert: ExpertId, objects: seq<VotingObject>, weights: Record)
    requires ValidWeights(weights) && DistinctIds(objects)
    requires forall i :: 0 <= i < |weights| ==> weights[i].key in Ids(objects)
    requires CaptureWeights(session, expert, objects, weights).Ok?
    ensures SumField(CaptureWeights(session, expert, objects, weights).value, "normalized_weight") == 1.0
  {
    var total := TotalWeight(weights);
    var normalized := Normalize(weights, total);
    assert CaptureWeights(session, expert, objects, weights).value == WeightRows(session, expert, objects, weights, normalized);
    RowSumIsKeySum(session, expert, objects, weights, normalized);
    NormalizeGet(weights, total, "");
    assert forall i :: 0 <= i < |normalized| ==> normalized[i].key == weights[i].key;
    assert DistinctStrings(Ids(objects));
    SumAtCoversRecord(normalized, Ids(objects));
    NormalizedSumIsOne(weights);
  }

  /** Every normalised weight of an accepted ballot of nonnegative weights lies in [0, 1]. */
  lemma AcceptedBallotInUnitRange(session: SessionId, expert: ExpertId, objects: seq<VotingObject>, weights: Record)
    requires NonNegative(weights)
    requires CaptureWeights(session, expert, objects, weights).Ok?
    ensures var rows := CaptureWeights(session, expert, objects, weights).value;
            forall i :: 0 <= i < |rows| ==> 0.0 <= NormalizedOf(rows[i]) <= 1.0
  {
    var total := TotalWeight(weights);
    var rows := CaptureWeights(session, expert, objects, weights).value;
    forall i | 0 <= i < |rows| ensures 0.0 <= NormalizedOf(rows[i]) <= 1.0 {
      var id := objects[i].id;
      if Get(weights, id).Some? {
        GetFromEntry(weights, id);
        var j :| 0 <= j < |weights| && weights[j] == Entry(id, Get(weights, id).value);
        DivideBelowTotal(weights[j].value, total);
      } else {
        assert NormalizedOf(rows[i]) == 0.0 / total;
      }
    }
  }
}

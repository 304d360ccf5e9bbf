/**
 * The results page: every vote row of the session is reduced to one mean
 * per object, the objects are sorted by that mean (ascending for the
 * ranking method, descending otherwise, ties in object order), and each
 * gets its position as its rank.
 */
module Results {
  import opened Domain

  /** The elicitation method a session uses. */
  datatype Method = Ranking | Direct | Pairwise | Churchman | Unrecognised

  /** `session.method`: a method name the page has no branch for aggregates nothing. */
  function MethodNamed(name: string): Method
  {
    if name == "ranking" then Ranking
    else if name == "direct" then Direct
    else if name == "pairwise" then Pairwise
    else if name == "churchman" then Churchman
    else Unrecognised
  }

  /** The `vote_value` field each method averages. */
  function FieldFor(m: Method): string
    requires m != Unrecognised
  {
    match m
    case Ranking => "rank"
    case Direct => "score"
    case Pairwise => "wins"
    case Churchman => "normalized_weight"
  }

  /** The sum of `field || 0` over the rows for object `id`. */
  function Contribution(votes: seq<VoteRow>, id: ObjectId, field: string): real
  {
    if votes == [] then 0.0
    else
      var last := votes[|votes| - 1];
      Contribution(votes[..|votes| - 1], id, field) + (if last.objectId == id then Field(last.value, field) else 0.0)
  }

  /** `votesData.filter(v => v.object_id === id).length`. */
  function VoteCount(votes: seq<VoteRow>, id: ObjectId): nat
  {
    if votes == [] then 0
    else VoteCount(votes[..|votes| - 1], id) + (if votes[|votes| - 1].objectId == id then 1 else 0)
  }

  /**
   * The aggregate of one object: the arithmetic mean of the method's field
   * over the rows for that object, and 0 when there is no such row or the
   * method is not recognised.
   */
  function Mean(m: Method, votes: seq<VoteRow>, id: ObjectId): real
  {
    if m == Unrecognised || VoteCount(votes, id) == 0 then 0.0
    else Contribution(votes, id, FieldFor(m)) / VoteCount(votes, id) as real
  }

  lemma {:induction false} NoRowsNoContribution(votes: seq<VoteRow>, id: ObjectId, field: string)
    requires VoteCount(votes, id) == 0
    ensures Contribution(votes, id, field) == 0.0
  {
    if votes != [] {
      NoRowsNoContribution(votes[..|votes| - 1], id, field);
    }
  }

  /** One pass over the rows counting those for object `id`. */
  method CountRows(votes: seq<VoteRow>, id: ObjectId) returns (count: nat)
    ensures count == VoteCount(votes, id)
  {
    count := 0;
    var t := 0;
    while t < |votes|
      invariant 0 <= t <= |votes|
      invariant count == VoteCount(votes[..t], id)
    {
      if votes[t].objectId == id {
        count := count + 1;
      }
      assert votes[..t + 1][..t] == votes[..t];
      t := t + 1;
    }
    assert votes[..|votes|] == votes;
  }

  /**
   * The accumulation pass: every object listed in `ids` starts at 0 and each
   * row adds its field to its own object; rows for objects not in `ids`
   * are skipped.
   */
  method SumRows(ids: seq<ObjectId>, votes: seq<VoteRow>, field: string) returns (sums: map<ObjectId, real>)
    ensures sums.Keys == set id | id in ids
    ensures forall id :: id in sums ==> sums[id] == Contribution(votes, id, field)
  {
    sums := map id | id in ids :: 0.0;
    var j := 0;
    while j < |votes|
      invariant 0 <= j <= |votes|
      invariant sums.Keys == set id | id in ids
      invariant forall id :: id in sums ==> sums[id] == Contribution(votes[..j], id, field)
    {
      var v := votes[j];
      if v.objectId in sums {
        sums := sums[v.objectId := sums[v.objectId] + Field(v.value, field)];
      }
      assert votes[..j + 1][..j] == votes[..j];
      j := j + 1;
    }
    assert votes[..|votes|] == votes;
  }

  /**
   * The first half of `calculateResults`: start every object at 0, add each
   * row's field to its object, then divide each object's sum by its number
   * of rows when that number is positive.  Rows for objects outside the
   * list do not affect any listed object.
   */
  method Aggregate(m: Method, objects: seq<VotingObject>, votes: seq<VoteRow>) returns (means: map<ObjectId, real>)
    ensures forall i :: 0 <= i < |objects| ==> objects[i].id in means
    ensures forall i :: 0 <= i < |objects| ==> means[objects[i].id] == Mean(m, votes, objects[i].id)
    ensures forall i :: 0 <= i < |objects| && VoteCount(votes, objects[i].id) == 0 ==> means[objects[i].id] == 0.0
  {
    var ids := Ids(objects);
    var sums: map<ObjectId, real>;
    if m != Unrecognised {
      sums := SumRows(ids, votes, FieldFor(m));
    } else {
      sums := map id | id in ids :: 0.0;
    }
    means := map[];
    var k := 0;
    while k < |objects|
      invariant 0 <= k <= |objects|
      invariant forall i :: 0 <= i < k ==> objects[i].id in means
      invariant forall id :: id in means ==> means[id] == Mean(m, votes, id)
    {
      var id := objects[k].id;
      assert id in ids;
      var count := CountRows(votes, id);
      if count > 0 {
        means := means[id := sums[id] / count as real];
      } else {
        if m != Unrecognised {
          NoRowsNoContribution(votes, id, FieldFor(m));
        }
        means := means[id := sums[id]];
      }
      k := k + 1;
    }
  }

  /** `x` added `n` times. */
  function Times(x: real, n: nat): real
  {
    if n == 0 then 0.0 else Times(x, n - 1) + x
  }

  lemma {:induction false} TimesIsProduct(x: real, n: nat)
    ensures Times(x, n) == x * n as real
  {
    if n > 0 {
      TimesIsProduct(x, n - 1);
      assert x * n as real == x * (n - 1) as real + x;
    }
  }

  /** Bounds on the rows for one object bound their sum. */
  lemma {:induction false} ContributionBounds(votes: seq<VoteRow>, id: ObjectId, field: string, lo: real, hi: real)
    requires forall i :: 0 <= i < |votes| && votes[i].objectId == id ==> lo <= Field(votes[i].value, field) <= hi
    ensures Times(lo, VoteCount(votes, id)) <= Contribution(votes, id, field) <= Times(hi, VoteCount(votes, id))
  {
    if votes != [] {
      var init := votes[..|votes| - 1];
      forall i | 0 <= i < |init| && init[i].objectId == id
        ensures lo <= Field(init[i].value, field) <= hi
      {
        assert init[i] == votes[i];
      }
      ContributionBounds(init, id, field, lo, hi);
    }
  }

  lemma MeanBetween(total: real, count: real, lo: real, hi: real)
    requires 0.0 < count && lo * count <= total <= hi * count
    ensures lo <= total / count <= hi
  {
    assert total / count * count == total;
  }

  lemma AverageBetween(total: real, n: nat, lo: real, hi: real)
    requires n > 0 && Times(lo, n) <= total <= Times(hi, n)
    ensures lo <= total / n as real <= hi
  {
    TimesIsProduct(lo, n);
    TimesIsProduct(hi, n);
    MeanBetween(total, n as real, lo, hi);
  }

  /**
   * An aggregate lies between the least and the greatest value that went
   * into it: when every row for the object carries a field in `[lo, hi]`,
   * so does the mean (mean rank within 1..N, mean score within 0..10, mean
   * normalised weight within 0..1).
   */
  lemma MeanWithinBounds(m: Method, votes: seq<VoteRow>, id: ObjectId, lo: real, hi: real)
    requires m != Unrecognised && VoteCount(votes, id) > 0
    requires forall i :: 0 <= i < |votes| && votes[i].objectId == id ==> lo <= Field(votes[i].value, FieldFor(m)) <= hi
    ensures lo <= Mean(m, votes, id) <= hi
  {
    var n, total := VoteCount(votes, id), Contribution(votes, id, FieldFor(m));
    ContributionBounds(votes, id, FieldFor(m), lo, hi);
    AverageBetween(total, n, lo, hi);
    assert Mean(m, votes, id) == total / n as real;
  }

  /** An object with its aggregate, before ranks are assigned. */
  datatype Scored = Scored(obj: VotingObject, score: real)

  /**
   * The comparator of the sort: ascending for the ranking method (a lower
   * mean rank is better), descending for every other method.
   */
  predicate Before(m: Method, a: real, b: real)
  {
    if m == Ranking then a <= b else b <= a
  }

  predicate Sorted(m: Method, s: seq<Scored>)
  {
    forall i, j :: 0 <= i < j < |s| ==> Before(m, s[i].score, s[j].score)
  }

  /** The items of `s` whose score is `k`, in their order in `s`. */
  function WithScore(s: seq<Scored>, k: real): seq<Scored>
  {
    if s == [] then [] else (if s[0].score == k then [s[0]] else []) + WithScore(s[1..], k)
  }

  /** Puts `x` in front of the first item it does not come after, that is, in front of the first item it may precede. */
  function Insert(m: Method, x: Scored, s: seq<Scored>): (r: seq<Scored>)
    ensures |r| == |s| + 1
  {
    if s == [] then [x]
    else if Before(m, x.score, s[0].score) then [x] + s
    else
      assert s == [s[0]] + s[1..];
      [s[0]] + Insert(m, x, s[1..])
  }

  /** Inserting adds exactly the inserted item. */
  lemma {:induction false} InsertPermutes(m: Method, x: Scored, s: seq<Scored>)
    ensures multiset(Insert(m, x, s)) == multiset(s) + multiset{x}
  {
    if s != [] && !Before(m, x.score, s[0].score) {
      InsertPermutes(m, x, s[1..]);
      assert s == [s[0]] + s[1..];
    }
  }

  /** Inserting into a sorted sequence leaves it sorted. */
  lemma {:induction false} InsertKeepsSorted(m: Method, x: Scored, s: seq<Scored>)
    requires Sorted(m, s)
    ensures Sorted(m, Insert(m, x, s))
  {
    if s != [] {
      if Before(m, x.score, s[0].score) {
        var r := [x] + s;
        assert Insert(m, x, s) == r;
        forall i, j | 0 <= i < j < |r| ensures Before(m, r[i].score, r[j].score) {
          assert r[j] == s[j - 1];
          if i > 0 {
            assert r[i] == s[i - 1];
          }
        }
      } else {
        SortedTail(m, s);
        InsertKeepsSorted(m, x, s[1..]);
        InsertPermutes(m, x, s[1..]);
        InsertSorted(m, x, s, Insert(m, x, s[1..]));
      }
    }
  }

  lemma InsertSorted(m: Method, x: Scored, s: seq<Scored>, rest: seq<Scored>)
    requires s != [] && !Before(m, x.score, s[0].score)
    requires multiset(rest) == multiset(s[1..]) + multiset{x}
    requires Sorted(m, s) && Sorted(m, rest)
    ensures Sorted(m, [s[0]] + rest)
  {
    {
      var r := [s[0]] + rest;
      forall i, j | 0 <= i < j < |r| ensures Before(m, r[i].score, r[j].score) {
        if i == 0 {
          var y := rest[j - 1];
          assert y in multiset(rest);
          if y != x {
            assert y in multiset(s[1..]);
            var p :| 0 <= p < |s[1..]| && s[1..][p] == y;
            assert s[p + 1] == y;
          }
        } else {
          assert r[i] == rest[i - 1] && r[j] == rest[j - 1];
        }
      }
    }
  }

  lemma {:induction false} WithScoreCons(a: Scored, t: seq<Scored>, k: real)
    ensures WithScore([a] + t, k) == (if a.score == k then [a] else []) + WithScore(t, k)
  {
    assert ([a] + t)[1..] == t;
  }

  lemma SortedTail(m: Method, s: seq<Scored>)
    requires s != [] && Sorted(m, s)
    ensures Sorted(m, s[1..])
  {
    forall i, j | 0 <= i < j < |s[1..]| ensures Before(m, s[1..][i].score, s[1..][j].score) {
      assert s[1..][i] == s[i + 1] && s[1..][j] == s[j + 1];
    }
  }

  /** Inserting keeps, for every score, the items with that score in their original order. */
  lemma {:induction false} InsertStable(m: Method, x: Scored, s: seq<Scored>, k: real)
    ensures WithScore(Insert(m, x, s), k) == WithScore([x] + s, k)
  {
    if s != [] && !Before(m, x.score, s[0].score) {
      var h, t := s[0], s[1..];
      var rest := Insert(m, x, t);
      var hk: seq<Scored> := if h.score == k then [h] else [];
      var xk: seq<Scored> := if x.score == k then [x] else [];
      assert hk == [] || xk == [];
      calc {
        WithScore(Insert(m, x, s), k);
        { assert Insert(m, x, s) == [h] + rest; }
        WithScore([h] + rest, k);
        { WithScoreCons(h, rest, k); }
        hk + WithScore(rest, k);
        { InsertStable(m, x, t, k); WithScoreCons(x, t, k); }
        hk + (xk + WithScore(t, k));
        xk + (hk + WithScore(t, k));
        { assert s == [h] + t; WithScoreCons(h, t, k); }
        xk + WithScore(s, k);
        { WithScoreCons(x, s, k); }
        WithScore([x] + s, k);
      }
    }
  }

  /**
   * A stable sort by the method's direction: the result is sorted, is a
   * permutation of the input, and keeps the items of every score in their
   * input order.
   */
  function SortScored(m: Method, s: seq<Scored>): (r: seq<Scored>)
    ensures |r| == |s|
    ensures multiset(r) == multiset(s)
    ensures Sorted(m, r)
    ensures forall k :: WithScore(r, k) == WithScore(s, k)
  {
    if s == [] then []
    else
      var rest := SortScored(m, s[1..]);
      var r := Insert(m, s[0], rest);
      InsertKeepsSorted(m, s[0], rest);
      InsertPermutes(m, s[0], rest);
      assert s == [s[0]] + s[1..];
      forall k ensures WithScore(r, k) == WithScore(s, k) {
        InsertStable(m, s[0], rest, k);
        WithScoreCons(s[0], rest, k);
        WithScoreCons(s[0], s[1..], k);
      }
      r
  }

  /** The objects of a scored sequence, in order. */
  function Objects(s: seq<Scored>): (r: seq<VotingObject>)
    ensures |r| == |s|
    ensures forall i :: 0 <= i < |s| ==> r[i] == s[i].obj
  {
    if s == [] then [] else [s[0].obj] + Objects(s[1..])
  }

  lemma ObjectsCons(a: Scored, t: seq<Scored>)
    ensures Objects([a] + t) == [a.obj] + Objects(t)
  {
    assert ([a] + t)[1..] == t;
  }

  lemma {:induction false} InsertKeepsObjects(m: Method, x: Scored, s: seq<Scored>)
    ensures multiset(Objects(Insert(m, x, s))) == multiset(Objects(s)) + multiset{x.obj}
  {
    if s != [] {
      var h, t := s[0], s[1..];
      assert s == [h] + t;
      ObjectsCons(h, t);
      if Before(m, x.score, h.score) {
        assert Insert(m, x, s) == [x] + s;
        ObjectsCons(x, s);
      } else {
        var rest := Insert(m, x, t);
        assert Insert(m, x, s) == [h] + rest;
        InsertKeepsObjects(m, x, t);
        ObjectsCons(h, rest);
      }
    }
  }

  lemma {:induction false} SortKeepsObjects(m: Method, s: seq<Scored>)
    ensures multiset(Objects(SortScored(m, s))) == multiset(Objects(s))
  {
    if s != [] {
      SortKeepsObjects(m, s[1..]);
      InsertKeepsObjects(m, s[0], SortScored(m, s[1..]));
      assert Objects(s) == [s[0].obj] + Objects(s[1..]);
    }
  }

  /** The objects paired with their aggregates, in the order the objects were listed. */
  function ScoredObjects(m: Method, objects: seq<VotingObject>, votes: seq<VoteRow>): (r: seq<Scored>)
    ensures |r| == |objects|
    ensures forall i :: 0 <= i < |objects| ==> r[i] == Scored(objects[i], Mean(m, votes, objects[i].id))
  {
    seq(|objects|, i requires 0 <= i < |objects| => Scored(objects[i], Mean(m, votes, objects[i].id)))
  }

  /** The listed objects whose aggregate is `k`, in listed order. */
  function ObjectsWithMean(m: Method, objects: seq<VotingObject>, votes: seq<VoteRow>, k: real): seq<VotingObject>
  {
    if objects == [] then []
    else (if Mean(m, votes, objects[0].id) == k then [objects[0]] else []) + ObjectsWithMean(m, objects[1..], votes, k)
  }

  lemma {:induction false} ScoredFilter(m: Method, objects: seq<VotingObject>, votes: seq<VoteRow>, k: real)
    ensures Objects(WithScore(ScoredObjects(m, objects, votes), k)) == ObjectsWithMean(m, objects, votes, k)
  {
    if objects != [] {
      var head := Scored(objects[0], Mean(m, votes, objects[0].id));
      var t := ScoredObjects(m, objects[1..], votes);
      assert ScoredObjects(m, objects, votes) == [head] + t;
      WithScoreCons(head, t, k);
      ScoredFilter(m, objects[1..], votes, k);
      if head.score == k {
        ObjectsCons(head, WithScore(t, k));
      }
    }
  }

  /** One row of the results table. */
  datatype ResultItem = ResultItem(obj: VotingObject, score: real, rank: nat)

  function ObjectsOf(results: seq<ResultItem>): (r: seq<VotingObject>)
    ensures |r| == |results|
    ensures forall i :: 0 <= i < |results| ==> r[i] == results[i].obj
  {
    seq(|results|, i requires 0 <= i < |results| => results[i].obj)
  }

  /** The objects of the rows whose aggregate is `k`, in table order. */
  function ObjectsScoring(results: seq<ResultItem>, k: real): seq<VotingObject>
  {
    if results == [] then []
    else (if results[0].score == k then [results[0].obj] else []) + ObjectsScoring(results[1..], k)
  }

  lemma {:induction false} RankedFilter(sorted: seq<Scored>, results: seq<ResultItem>, k: real)
    requires |results| == |sorted|
    requires forall i :: 0 <= i < |sorted| ==> results[i].obj == sorted[i].obj && results[i].score == sorted[i].score
    ensures ObjectsScoring(results, k) == Objects(WithScore(sorted, k))
  {
    if sorted != [] {
      RankedFilter(sorted[1..], results[1..], k);
      var head := if sorted[0].score == k then [sorted[0]] else [];
      var tail := WithScore(sorted[1..], k);
      assert Objects(head + tail) == Objects(head) + Objects(tail);
    }
  }

  /** Numbers the sorted items from 1. */
  function Ranked(sorted: seq<Scored>): (r: seq<ResultItem>)
    ensures |r| == |sorted|
    ensures forall i :: 0 <= i < |sorted| ==> r[i] == ResultItem(sorted[i].obj, sorted[i].score, i + 1)
  {
    seq(|sorted|, i requires 0 <= i < |sorted| => ResultItem(sorted[i].obj, sorted[i].score, i + 1))
  }

  lemma SortedKeepsMeans(m: Method, objects: seq<VotingObject>, votes: seq<VoteRow>, sorted: seq<Scored>)
    requires multiset(sorted) == multiset(ScoredObjects(m, objects, votes))
    ensures forall i :: 0 <= i < |sorted| ==> sorted[i].score == Mean(m, votes, sorted[i].obj.id)
  {
    var scored := ScoredObjects(m, objects, votes);
    forall i | 0 <= i < |sorted| ensures sorted[i].score == Mean(m, votes, sorted[i].obj.id) {
      assert sorted[i] in multiset(scored);
      var p :| 0 <= p < |scored| && scored[p] == sorted[i];
    }
  }

  lemma RankedObjects(m: Method, objects: seq<VotingObject>, votes: seq<VoteRow>, sorted: seq<Scored>)
    requires sorted == SortScored(m, ScoredObjects(m, objects, votes))
    ensures multiset(ObjectsOf(Ranked(sorted))) == multiset(objects)
  {
    var scored := ScoredObjects(m, objects, votes);
    SortKeepsObjects(m, scored);
    assert ObjectsOf(Ranked(sorted)) == Objects(sorted);
    assert Objects(scored) == objects;
  }

  lemma RankedStable(m: Method, objects: seq<VotingObject>, votes: seq<VoteRow>, sorted: seq<Scored>)
    requires forall k :: WithScore(sorted, k) == WithScore(ScoredObjects(m, objects, votes), k)
    ensures forall k :: ObjectsScoring(Ranked(sorted), k) == ObjectsWithMean(m, objects, votes, k)
  {
    forall k ensures ObjectsScoring(Ranked(sorted), k) == ObjectsWithMean(m, objects, votes, k) {
      RankedFilter(sorted, Ranked(sorted), k);
      ScoredFilter(m, objects, votes, k);
    }
  }

  /**
   * `calculateResults`: aggregate, sort by the method's direction keeping
   * the listed order among ties, and number the rows from 1.  The table
   * holds every listed object exactly as often as it was listed, each with
   * its own aggregate.
   */
  method CalculateResults(m: Method, objects: seq<VotingObject>, votes: seq<VoteRow>) returns (results: seq<ResultItem>)
    ensures |results| == |objects|
    ensures multiset(ObjectsOf(results)) == multiset(objects)
    ensures forall i :: 0 <= i < |results| ==> results[i].rank == i + 1
    ensures forall i :: 0 <= i < |results| ==> results[i].score == Mean(m, votes, results[i].obj.id)
    ensures forall i, j :: 0 <= i < j < |results| ==> Before(m, results[i].score, results[j].score)
    ensures forall k :: ObjectsScoring(results, k) == ObjectsWithMean(m, objects, votes, k)
  {
    var means := Aggregate(m, objects, votes);
    var scored := seq(|objects|, i requires 0 <= i < |objects| => Scored(objects[i], means[objects[i].id]));
    assert scored == ScoredObjects(m, objects, votes);
    var sorted := SortScored(m, scored);
    results := Ranked(sorted);
    RankedObjects(m, objects, votes, sorted);
    SortedKeepsMeans(m, objects, votes, sorted);
    RankedStable(m, objects, votes, sorted);
  }

  predicate IncreasingOrder(os: seq<VotingObject>)
  {
    forall i, j :: 0 <= i < j < |os| ==> os[i].order < os[j].order
  }

  lemma {:induction false} ObjectsWithMeanIn(m: Method, objects: seq<VotingObject>, votes: seq<VoteRow>, k: real, o: VotingObject)
    requires o in ObjectsWithMean(m, objects, votes, k)
    ensures o in objects
  {
    if objects != [] && o != objects[0] {
      ObjectsWithMeanIn(m, objects[1..], votes, k, o);
    }
  }

  lemma IncreasingTail(os: seq<VotingObject>)
    requires os != [] && IncreasingOrder(os)
    ensures IncreasingOrder(os[1..])
    ensures forall o :: o in os[1..] ==> os[0].order < o.order
  {
    var t := os[1..];
    forall i, j | 0 <= i < j < |t| ensures t[i].order < t[j].order {
      assert t[i] == os[i + 1] && t[j] == os[j + 1];
    }
    forall o | o in t ensures os[0].order < o.order {
      var p :| 0 <= p < |t| && t[p] == o;
      assert os[p + 1] == o;
    }
  }

  lemma IncreasingCons(o: VotingObject, rest: seq<VotingObject>)
    requires IncreasingOrder(rest)
    requires forall x :: x in rest ==> o.order < x.order
    ensures IncreasingOrder([o] + rest)
  {
    var r := [o] + rest;
    forall i, j | 0 <= i < j < |r| ensures r[i].order < r[j].order {
      if i == 0 {
        assert r[j] == rest[j - 1];
      } else {
        assert r[i] == rest[i - 1] && r[j] == rest[j - 1];
      }
    }
  }

  /** Keeping only the objects of one aggregate keeps the object order increasing. */
  lemma {:induction false} FilterKeepsIncreasing(m: Method, objects: seq<VotingObject>, votes: seq<VoteRow>, k: real)
    requires IncreasingOrder(objects)
    ensures IncreasingOrder(ObjectsWithMean(m, objects, votes, k))
  {
    if objects != [] {
      var t := objects[1..];
      IncreasingTail(objects);
      FilterKeepsIncreasing(m, t, votes, k);
      var rest := ObjectsWithMean(m, t, votes, k);
      if Mean(m, votes, objects[0].id) == k {
        forall x | x in rest ensures objects[0].order < x.order {
          ObjectsWithMeanIn(m, t, votes, k, x);
        }
        IncreasingCons(objects[0], rest);
      }
    }
  }

  lemma {:induction false} ObjectsScoringIn(results: seq<ResultItem>, k: real, j: nat)
    requires j < |results| && results[j].score == k
    ensures results[j].obj in ObjectsScoring(results, k)
  {
    if j > 0 {
      ObjectsScoringIn(results[1..], k, j - 1);
    }
  }

  lemma {:induction false} TiesInFilterOrder(results: seq<ResultItem>)
    requires forall k :: IncreasingOrder(ObjectsScoring(results, k))
    ensures forall i, j :: 0 <= i < j < |results| && results[i].score == results[j].score ==>
      results[i].obj.order < results[j].obj.order
  {
    if results != [] {
      var t := results[1..];
      forall k ensures IncreasingOrder(ObjectsScoring(t, k)) {
        var whole := ObjectsScoring(results, k);
        var rest := ObjectsScoring(t, k);
        if results[0].score == k {
          assert whole == [results[0].obj] + rest;
          forall i, j | 0 <= i < j < |rest| ensures rest[i].order < rest[j].order {
            assert rest[i] == whole[i + 1] && rest[j] == whole[j + 1];
          }
        } else {
          assert whole == rest;
        }
      }
      TiesInFilterOrder(t);
      forall i, j | 0 <= i < j < |results| && results[i].score == results[j].score
        ensures results[i].obj.order < results[j].obj.order
      {
        if i == 0 {
          var k := results[0].score;
          ObjectsScoringIn(t, k, j - 1);
          var rest := ObjectsScoring(t, k);
          var whole := ObjectsScoring(results, k);
          var p :| 0 <= p < |rest| && rest[p] == results[j].obj;
          assert whole[0] == results[0].obj && whole[p + 1] == rest[p];
        } else {
          assert results[i] == t[i - 1] && results[j] == t[j - 1];
        }
      }
    }
  }

  /**
   * Ties are broken by `object_order`: when the objects are listed in
   * strictly increasing order (as the query sorts them), two rows with the
   * same aggregate appear in the table in increasing object order.
   */
  lemma TiesFollowObjectOrder(m: Method, objects: seq<VotingObject>, votes: seq<VoteRow>, results: seq<ResultItem>)
    requires IncreasingOrder(objects)
    requires forall k :: ObjectsScoring(results, k) == ObjectsWithMean(m, objects, votes, k)
    ensures forall i, j :: 0 <= i < j < |results| && results[i].score == results[j].score ==>
      results[i].obj.order < results[j].obj.order
  {
    forall k ensures IncreasingOrder(ObjectsScoring(results, k)) {
      FilterKeepsIncreasing(m, objects, votes, k);
    }
    TiesInFilterOrder(results);
  }

  lemma {:induction false} WithScoreMembers(s: seq<Scored>, k: real, x: Scored)
    ensures x in WithScore(s, k) <==> x in s && x.score == k
  {
    if s != [] {
      WithScoreMembers(s[1..], k, x);
      assert s == [s[0]] + s[1..];
    }
  }

  lemma WithScoreTail(s: seq<Scored>, k: real)
    requires s != []
    ensures s[0].score == k ==> WithScore(s[1..], k) == WithScore(s, k)[1..]
    ensures s[0].score != k ==> WithScore(s[1..], k) == WithScore(s, k)
  {
  }

  lemma EmptyMatches(a: seq<Scored>, b: seq<Scored>)
    requires forall k :: WithScore(a, k) == WithScore(b, k)
    ensures a == [] <==> b == []
  {
    if a != [] {
      assert WithScore(b, a[0].score) == WithScore(a, a[0].score) != [];
    }
    if b != [] {
      assert WithScore(a, b[0].score) == WithScore(b, b[0].score) != [];
    }
  }

  /**
   * Sortedness and stability determine the order completely: any two
   * sorted arrangements that keep the same items of every score in the same
   * order are equal.  `ResultsTableIsUnique` carries this over to the
   * tables `CalculateResults` returns.
   */
  lemma {:induction false} StableSortIsUnique(m: Method, a: seq<Scored>, b: seq<Scored>)
    requires Sorted(m, a) && Sorted(m, b)
    requires forall k :: WithScore(a, k) == WithScore(b, k)
    ensures a == b
  {
    EmptyMatches(a, b);
    if a != [] {
      var x, y := a[0], b[0];
      if x.score != y.score {
        WithScoreMembers(a, y.score, y);
        WithScoreMembers(b, x.score, x);
      }
      var k0 := x.score;
      assert WithScore(a, k0) == [x] + WithScore(a[1..], k0);
      assert WithScore(b, k0) == [y] + WithScore(b[1..], k0);
      SortedTail(m, a);
      SortedTail(m, b);
      assert WithScore(a, k0) == WithScore(b, k0);
      assert WithScore(a, k0)[0] == x && WithScore(b, k0)[0] == y;
      forall k ensures WithScore(a[1..], k) == WithScore(b[1..], k) {
        WithScoreTail(a, k);
        WithScoreTail(b, k);
        assert WithScore(a, k) == WithScore(b, k);
      }
      StableSortIsUnique(m, a[1..], b[1..]);
      assert a == [x] + a[1..] && b == [y] + b[1..];
    }
  }

  /** The table rows as scored items, ranks dropped. */
  function ToScored(results: seq<ResultItem>): (s: seq<Scored>)
    ensures |s| == |results|
    ensures forall i :: 0 <= i < |results| ==> s[i] == Scored(results[i].obj, results[i].score)
  {
    seq(|results|, i requires 0 <= i < |results| => Scored(results[i].obj, results[i].score))
  }

  /** The objects `os`, each scored `k`. */
  function AllAt(os: seq<VotingObject>, k: real): (s: seq<Scored>)
    ensures |s| == |os|
    ensures forall i :: 0 <= i < |os| ==> s[i] == Scored(os[i], k)
  {
    seq(|os|, i requires 0 <= i < |os| => Scored(os[i], k))
  }

  lemma {:induction false} WithScoreScores(s: seq<Scored>, k: real)
    ensures forall i :: 0 <= i < |WithScore(s, k)| ==> WithScore(s, k)[i].score == k
  {
    if s != [] {
      WithScoreScores(s[1..], k);
    }
  }

  /** The items of score `k` are determined by their objects. */
  lemma WithScoreIsAllAt(s: seq<Scored>, k: real)
    ensures WithScore(s, k) == AllAt(Objects(WithScore(s, k)), k)
  {
    WithScoreScores(s, k);
  }

  /**
   * Any two tables meeting the contract of `CalculateResults` are the same
   * table: numbered from 1, sorted in the method's direction, and listing
   * the objects of every aggregate in listed order leaves no freedom.
   */
  lemma ResultsTableIsUnique(m: Method, objects: seq<VotingObject>, votes: seq<VoteRow>, a: seq<ResultItem>, b: seq<ResultItem>)
    requires forall i :: 0 <= i < |a| ==> a[i].rank == i + 1
    requires forall i :: 0 <= i < |b| ==> b[i].rank == i + 1
    requires forall i, j :: 0 <= i < j < |a| ==> Before(m, a[i].score, a[j].score)
    requires forall i, j :: 0 <= i < j < |b| ==> Before(m, b[i].score, b[j].score)
    requires forall k :: ObjectsScoring(a, k) == ObjectsWithMean(m, objects, votes, k)
    requires forall k :: ObjectsScoring(b, k) == ObjectsWithMean(m, objects, votes, k)
    ensures a == b
  {
    var sa, sb := ToScored(a), ToScored(b);
    forall k ensures WithScore(sa, k) == WithScore(sb, k) {
      RankedFilter(sa, a, k);
      RankedFilter(sb, b, k);
      WithScoreIsAllAt(sa, k);
      WithScoreIsAllAt(sb, k);
    }
    StableSortIsUnique(m, sa, sb);
    assert |a| == |b|;
    forall i | 0 <= i < |a| ensures a[i] == b[i] {
      assert sa[i] == sb[i];
    }
  }
}

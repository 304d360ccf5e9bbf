/**
 * The `Record<string, number>` objects the voting widgets keep as state
 * (`scores`, `weights`): an association list whose keys are object ids, in
 * the order they were first set.
 */
module Records {
  import opened Wrappers

  datatype Entry = Entry(key: string, value: real)

  type Record = seq<Entry>

  /** `r[k]`: the value stored under `k`, or `None` when `k` is not a key. */
  function Get(r: Record, k: string): Option<real>
  {
    if r == [] then None
    else if r[0].key == k then Some(r[0].value)
    else Get(r[1..], k)
  }

  /** `r[k] || fallback`, for values that are never 0-versus-missing sensitive. */
  function GetOr(r: Record, k: string, fallback: real): real
  {
    match Get(r, k)
    case Some(v) => v
    case None => fallback
  }

  /** A JavaScript object never holds the same key twice. */
  predicate UniqueKeys(r: Record)
  {
    r == [] || (Get(r[1..], r[0].key) == None && UniqueKeys(r[1..]))
  }

  /** Every stored value lies in `[lo, hi]`. */
  predicate ValuesWithin(r: Record, lo: real, hi: real)
  {
    forall i :: 0 <= i < |r| ==> lo <= r[i].value <= hi
  }

  /** Every stored value is at least 0. */
  predicate NonNegative(r: Record)
  {
    forall i :: 0 <= i < |r| ==> 0.0 <= r[i].value
  }

  /** `{ ...r, [k]: v }`: an existing key keeps its place, a new key is appended. */
  function Put(r: Record, k: string, v: real): (r': Record)
    ensures Get(r', k) == Some(v)
    ensures forall k' :: k' != k ==> Get(r', k') == Get(r, k')
    ensures UniqueKeys(r) ==> UniqueKeys(r')
    ensures |r'| == if Get(r, k).Some? then |r| else |r| + 1
    ensures forall i :: 0 <= i < |r'| ==> r'[i] == Entry(k, v) || r'[i] in r
  {
    if r == [] then [Entry(k, v)]
    else if r[0].key == k then [Entry(k, v)] + r[1..]
    else [r[0]] + Put(r[1..], k, v)
  }

  /** `delete r[k]` on a copy of `r`. */
  function Delete(r: Record, k: string): (r': Record)
    ensures Get(r', k) == None
    ensures forall k' :: k' != k ==> Get(r', k') == Get(r, k')
    ensures UniqueKeys(r) ==> UniqueKeys(r')
    ensures UniqueKeys(r) ==> |r'| == if Get(r, k).Some? then |r| - 1 else |r|
    ensures forall i :: 0 <= i < |r'| ==> r'[i] in r
  {
    if r == [] then []
    else if r[0].key == k then Delete(r[1..], k)
    else [r[0]] + Delete(r[1..], k)
  }

  /** `Object.values(r).reduce((sum, w) => sum + w, 0)`; over reals the fold order is immaterial. */
  function Sum(r: Record): real
  {
    if r == [] then 0.0 else r[0].value + Sum(r[1..])
  }

  /** `Σ r[k] || 0` over the keys `ks`, in order. */
  function SumAt(r: Record, ks: seq<string>): real
  {
    if ks == [] then 0.0 else GetOr(r, ks[0], 0.0) + SumAt(r, ks[1..])
  }

  predicate DistinctStrings(ks: seq<string>)
  {
    forall i, j :: 0 <= i < j < |ks| ==> ks[i] != ks[j]
  }

  /** A key of `r` is the key of one of its entries, and conversely. */
  lemma {:induction false} GetSomeIffEntry(r: Record, k: string)
    ensures Get(r, k).Some? <==> exists i :: 0 <= i < |r| && r[i].key == k
  {
    if r != [] {
      GetSomeIffEntry(r[1..], k);
      if r[0].key != k && Get(r, k).Some? {
        var i :| 0 <= i < |r[1..]| && r[1..][i].key == k;
        assert r[i + 1].key == k;
      }
      if r[0].key != k && (exists i :: 0 <= i < |r| && r[i].key == k) {
        var i :| 0 <= i < |r| && r[i].key == k;
        assert r[1..][i - 1].key == k;
      }
    }
  }

  /** A value read from `r` is stored in one of its entries. */
  lemma {:induction false} GetFromEntry(r: Record, k: string)
    requires Get(r, k).Some?
    ensures exists i :: 0 <= i < |r| && r[i] == Entry(k, Get(r, k).value)
  {
    if r[0].key != k {
      GetFromEntry(r[1..], k);
      var i :| 0 <= i < |r[1..]| && r[1..][i] == Entry(k, Get(r, k).value);
      assert r[i + 1] == Entry(k, Get(r, k).value);
    } else {
      assert r[0] == Entry(k, Get(r, k).value);
    }
  }

  /** With nonnegative values the total is nonnegative and bounds every value. */
  lemma {:induction false} SumBoundsValues(r: Record)
    requires NonNegative(r)
    ensures 0.0 <= Sum(r)
    ensures forall i :: 0 <= i < |r| ==> r[i].value <= Sum(r)
  {
    if r != [] {
      assert NonNegative(r[1..]) by {
        forall i | 0 <= i < |r[1..]| ensures 0.0 <= r[1..][i].value {
          assert r[1..][i] == r[i + 1];
        }
      }
      SumBoundsValues(r[1..]);
      forall i | 0 <= i < |r| ensures r[i].value <= Sum(r) {
        if i > 0 {
          assert r[i] == r[1..][i - 1];
        }
      }
    }
  }

  /**
   * Summing `r[k] || 0` over a list of distinct keys that names every key of
   * `r` gives the total of `r`: extra keys contribute 0.
   */
  lemma {:induction false} SumAtCoversRecord(r: Record, ks: seq<string>)
    requires UniqueKeys(r)
    requires DistinctStrings(ks)
    requires forall i :: 0 <= i < |r| ==> r[i].key in ks
    ensures SumAt(r, ks) == Sum(r)
  {
    if r == [] {
      SumAtAbsent(r, ks);
    } else {
      var k0 := r[0].key;
      var p :| 0 <= p < |ks| && ks[p] == k0;
      var rest := ks[..p] + ks[p + 1..];
      SumAtRemove(r, ks, p);
      DropKeyFacts(ks, p);
      forall i | 0 <= i < |r[1..]| ensures r[1..][i].key in rest {
        assert r[1..][i] == r[i + 1];
        GetSomeIffEntry(r[1..], r[i + 1].key);
      }
      SumAtCoversRecord(r[1..], rest);
      SumAtSkipsHead(r, rest);
    }
  }

  /** A key list that misses `r` entirely sums to 0. */
  lemma {:induction false} SumAtAbsent(r: Record, ks: seq<string>)
    requires forall i :: 0 <= i < |ks| ==> Get(r, ks[i]) == None
    ensures SumAt(r, ks) == 0.0
  {
    if ks != [] {
      SumAtAbsent(r, ks[1..]);
    }
  }

  /** Dropping one entry of a duplicate-free key list leaves the others, once each. */
  lemma DropKeyFacts(ks: seq<string>, p: nat)
    requires p < |ks| && DistinctStrings(ks)
    ensures DistinctStrings(ks[..p] + ks[p + 1..])
    ensures ks[p] !in ks[..p] + ks[p + 1..]
    ensures forall k :: k in ks && k != ks[p] ==> k in ks[..p] + ks[p + 1..]
  {
    var rest := ks[..p] + ks[p + 1..];
    forall i, j | 0 <= i < j < |rest| ensures rest[i] != rest[j] {
      var i' := if i < p then i else i + 1;
      var j' := if j < p then j else j + 1;
      assert rest[i] == ks[i'] && rest[j] == ks[j'];
    }
    forall i | 0 <= i < |rest| ensures rest[i] != ks[p] {
      var i' := if i < p then i else i + 1;
      assert rest[i] == ks[i'];
    }
    forall k | k in ks && k != ks[p] ensures k in rest {
      var q :| 0 <= q < |ks| && ks[q] == k;
      if q < p {
        assert rest[q] == k;
      } else {
        assert rest[q - 1] == k;
      }
    }
  }

  /** Taking one key out of the list takes its term out of the sum. */
  lemma {:induction false} SumAtRemove(r: Record, ks: seq<string>, p: nat)
    requires p < |ks|
    ensures SumAt(r, ks) == GetOr(r, ks[p], 0.0) + SumAt(r, ks[..p] + ks[p + 1..])
  {
    if p > 0 {
      SumAtRemove(r, ks[1..], p - 1);
      assert ks[1..][..p - 1] + ks[1..][p..] == (ks[..p] + ks[p + 1..])[1..];
    } else {
      assert ks[..0] + ks[1..] == ks[1..];
    }
  }

  /** Keys other than the head's read the same with or without the head entry. */
  lemma {:induction false} SumAtSkipsHead(r: Record, ks: seq<string>)
    requires r != []
    requires r[0].key !in ks
    ensures SumAt(r, ks) == SumAt(r[1..], ks)
  {
    if ks != [] {
      SumAtSkipsHead(r, ks[1..]);
    }
  }

  /** The keys of `r`, as a set. */
  function KeySet(r: Record): set<string>
  {
    if r == [] then {} else {r[0].key} + KeySet(r[1..])
  }

  lemma {:induction false} KeySetFacts(r: Record)
    ensures forall k :: k in KeySet(r) <==> Get(r, k).Some?
    ensures UniqueKeys(r) ==> |KeySet(r)| == |r|
  {
    if r != [] {
      KeySetFacts(r[1..]);
    }
  }

  lemma {:induction false} DistinctStringsCard(ks: seq<string>)
    requires DistinctStrings(ks)
    ensures |set k | k in ks| == |ks|
  {
    if ks != [] {
      var tail := ks[1..];
      assert DistinctStrings(tail) by {
        forall i, j | 0 <= i < j < |tail| ensures tail[i] != tail[j] {
          assert tail[i] == ks[i + 1] && tail[j] == ks[j + 1];
        }
      }
      DistinctStringsCard(tail);
      assert (set k | k in ks) == {ks[0]} + (set k | k in tail);
      assert ks[0] !in tail by {
        forall i | 0 <= i < |tail| ensures tail[i] != ks[0] {
          assert tail[i] == ks[i + 1];
        }
      }
    }
  }

  lemma {:induction false} SubsetSize<T>(a: set<T>, b: set<T>)
    requires a <= b
    ensures |a| <= |b|
    decreases a
  {
    if a != {} {
      var x :| x in a;
      SubsetSize(a - {x}, b - {x});
    }
  }

  lemma SubsetSameSize<T>(a: set<T>, b: set<T>)
    requires a <= b && |a| == |b|
    ensures a == b
  {
    if b - a != {} {
      var x :| x in b - a;
      SubsetSize(a, b - {x});
    } else {
      assert b <= a;
    }
  }

  /**
   * A record with as many keys as there are distinct ids, all of them among
   * those ids, has a value for every id.
   */
  lemma {:induction false} CountedRecordIsComplete(r: Record, ks: seq<string>)
    requires UniqueKeys(r) && DistinctStrings(ks)
    requires forall i :: 0 <= i < |r| ==> r[i].key in ks
    requires |r| == |ks|
    ensures forall i :: 0 <= i < |ks| ==> Get(r, ks[i]).Some?
  {
    KeySetFacts(r);
    DistinctStringsCard(ks);
    var keys := set k | k in ks;
    assert KeySet(r) <= keys by {
      forall k | k in KeySet(r) ensures k in keys {
        GetSomeIffEntry(r, k);
      }
    }
    SubsetSameSize(KeySet(r), keys);
  }
}

/** The entities the voting widgets and the results page share. */
module Domain {

  type ObjectId = string
  type ExpertId = string
  type SessionId = string

  /** A row of the `objects` table: an item the experts evaluate. */
  datatype VotingObject = VotingObject(id: ObjectId, name: string, order: int)

  /** The JSON `vote_value` of a vote row, as field name to number. */
  type Payload = map<string, real>

  /** A row of the `votes` table: one expert's value for one object. */
  datatype VoteRow = VoteRow(session: SessionId, expert: ExpertId, objectId: ObjectId, value: Payload)

  /** What `parseFloat` made of a text field: the empty string, a number, or `NaN` from other text. */
  datatype NumberInput = Blank | Number(x: real) | NotANumber

  /** Why a ballot was refused before anything was written. */
  datatype SubmitError = MissingValues | ZeroTotalWeight | UnansweredComparison

  /** `vote_value.<name> || 0`: a missing field reads as 0. */
  function Field(p: Payload, name: string): real
  {
    if name in p then p[name] else 0.0
  }

  /** The ids of `objs`, in order. */
  function Ids(objs: seq<VotingObject>): (ids: seq<ObjectId>)
    ensures |ids| == |objs|
    ensures forall i :: 0 <= i < |objs| ==> ids[i] == objs[i].id
  {
    seq(|objs|, i requires 0 <= i < |objs| => objs[i].id)
  }

  /** Database ids are unique within a session. */
  predicate DistinctIds(objs: seq<VotingObject>)
  {
    forall i, j :: 0 <= i < j < |objs| ==> objs[i].id != objs[j].id
  }

  /** Every row of `rows` was written by `expert` in `session`. */
  predicate AllBelongTo(rows: seq<VoteRow>, session: SessionId, expert: ExpertId)
  {
    forall i :: 0 <= i < |rows| ==> rows[i].session == session && rows[i].expert == expert
  }

  /** `Σ row.value.<name> || 0` over `rows`. */
  function SumField(rows: seq<VoteRow>, name: string): real
  {
    if rows == [] then 0.0 else Field(rows[0].value, name) + SumField(rows[1..], name)
  }

  /** A sequence with two equal elements holds that element at least twice. */
  lemma {:induction false} RepeatCountsTwice<T>(s: seq<T>, i: nat, j: nat)
    requires i < j < |s| && s[i] == s[j]
    ensures multiset(s)[s[i]] >= 2
  {
    assert s == s[..i] + [s[i]] + s[i + 1..j] + [s[j]] + s[j + 1..];
  }

  /** With distinct ids no object occurs twice. */
  lemma {:induction false} DistinctIdsCountOnce(objs: seq<VotingObject>, x: VotingObject)
    requires DistinctIds(objs)
    ensures multiset(objs)[x] <= 1
  {
    if objs != [] {
      assert objs == [objs[0]] + objs[1..];
      assert DistinctIds(objs[1..]) by {
        forall i, j | 0 <= i < j < |objs[1..]| ensures objs[1..][i].id != objs[1..][j].id {
          assert objs[1..][i] == objs[i + 1] && objs[1..][j] == objs[j + 1];
        }
      }
      DistinctIdsCountOnce(objs[1..], x);
      if x == objs[0] {
        assert x !in objs[1..] by {
          forall k | 0 <= k < |objs[1..]| ensures objs[1..][k] != x {
            assert objs[1..][k] == objs[k + 1];
          }
        }
      }
    }
  }

  /** Reordering a list of objects with distinct ids keeps the ids distinct. */
  lemma PermutationKeepsDistinctIds(a: seq<VotingObject>, b: seq<VotingObject>)
    requires multiset(a) == multiset(b)
    requires DistinctIds(a)
    ensures DistinctIds(b)
  {
    forall i, j | 0 <= i < j < |b| ensures b[i].id != b[j].id {
      if b[i] == b[j] {
        RepeatCountsTwice(b, i, j);
        DistinctIdsCountOnce(a, b[i]);
      } else {
        assert b[i] in multiset(a) && b[j] in multiset(a);
        var p :| 0 <= p < |a| && a[p] == b[i];
        var q :| 0 <= q < |a| && a[q] == b[j];
        assert p != q;
      }
    }
  }
}

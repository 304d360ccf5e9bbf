/**
 * The administrator's object form on the voting page: editing the list of
 * names, validating it, and turning it into `objects` rows with their
 * `object_order`.
 */
module ObjectSetup {
  import opened Wrappers

  /** The characters `String.prototype.trim` strips: white space and line terminators. */
  predicate IsTrimmable(c: char)
  {
    || c == '\t' || c == '\n' || c == '\U{B}' || c == '\U{C}' || c == '\r' || c == ' '
    || c == '\U{A0}' || c == '\U{1680}' || ('\U{2000}' <= c <= '\U{200A}')
    || c == '\U{2028}' || c == '\U{2029}' || c == '\U{202F}' || c == '\U{205F}'
    || c == '\U{3000}' || c == '\U{FEFF}'
  }

  predicate AllTrimmable(s: string)
  {
    forall i :: 0 <= i < |s| ==> IsTrimmable(s[i])
  }

  lemma AllTrimmableCons(c: char, t: string)
    requires IsTrimmable(c) && AllTrimmable(t)
    ensures AllTrimmable([c] + t)
  {
    forall i | 0 <= i < |[c] + t| ensures IsTrimmable(([c] + t)[i]) {
      if i > 0 {
        assert ([c] + t)[i] == t[i - 1];
      }
    }
  }

  lemma AllTrimmableSnoc(t: string, c: char)
    requires AllTrimmable(t) && IsTrimmable(c)
    ensures AllTrimmable(t + [c])
  {
    forall i | 0 <= i < |t + [c]| ensures IsTrimmable((t + [c])[i]) {
      if i < |t| {
        assert (t + [c])[i] == t[i];
      }
    }
  }

  /** Drops leading white space: what is left is a suffix starting with a visible character. */
  function TrimStart(s: string): (r: string)
    ensures |r| <= |s| && r == s[|s| - |r|..]
    ensures AllTrimmable(s[..|s| - |r|])
    ensures r == [] || !IsTrimmable(r[0])
  {
    if s != [] && IsTrimmable(s[0]) then
      var r := TrimStart(s[1..]);
      TrimStartStep(s, r);
      r
    else s
  }

  lemma TrimStartStep(s: string, r: string)
    requires s != [] && IsTrimmable(s[0])
    requires |r| <= |s| - 1 && r == s[1..][|s| - 1 - |r|..] && AllTrimmable(s[1..][..|s| - 1 - |r|])
    ensures r == s[|s| - |r|..] && AllTrimmable(s[..|s| - |r|])
  {
    var n := |s| - 1 - |r|;
    assert s[..n + 1] == [s[0]] + s[1..][..n];
    assert s[1..][n..] == s[n + 1..];
    AllTrimmableCons(s[0], s[1..][..n]);
  }

  /** Drops trailing white space: what is left is a prefix ending with a visible character. */
  function TrimEnd(s: string): (r: string)
    ensures |r| <= |s| && r == s[..|r|]
    ensures AllTrimmable(s[|r|..])
    ensures r == [] || !IsTrimmable(r[|r| - 1])
  {
    if s != [] && IsTrimmable(s[|s| - 1]) then
      var r := TrimEnd(s[..|s| - 1]);
      assert s[|r|..] == s[..|s| - 1][|r|..] + [s[|s| - 1]];
      assert s[..|s| - 1][..|r|] == s[..|r|];
      AllTrimmableSnoc(s[..|s| - 1][|r|..], s[|s| - 1]);
      r
    else s
  }

  /**
   * `name.trim()`: the part of `s` between its leading and trailing white
   * space.  It is empty exactly when `s` is all white space.
   */
  function Trim(s: string): (r: string)
    ensures exists a, b :: s == a + r + b && AllTrimmable(a) && AllTrimmable(b)
    ensures r == [] || (!IsTrimmable(r[0]) && !IsTrimmable(r[|r| - 1]))
    ensures r == [] <==> AllTrimmable(s)
  {
    var t := TrimStart(s);
    var r := TrimEnd(t);
    TrimSplit(s, t, r);
    r
  }

  lemma TrimSplit(s: string, t: string, r: string)
    requires |t| <= |s| && t == s[|s| - |t|..] && AllTrimmable(s[..|s| - |t|])
    requires t == [] || !IsTrimmable(t[0])
    requires |r| <= |t| && r == t[..|r|] && AllTrimmable(t[|r|..])
    requires r == [] || !IsTrimmable(r[|r| - 1])
    ensures exists a, b :: s == a + r + b && AllTrimmable(a) && AllTrimmable(b)
    ensures r == [] || (!IsTrimmable(r[0]) && !IsTrimmable(r[|r| - 1]))
    ensures r == [] <==> AllTrimmable(s)
  {
    var a := s[..|s| - |t|];
    var b := t[|r|..];
    assert s == a + t;
    assert t == r + b;
    assert s == a + r + b;
    if r == [] {
      assert t == [];
      assert s == a;
    } else {
      assert r[0] == s[|a|];
    }
    if r != [] {
      assert r[0] == t[0];
    }
  }

  lemma TrimStartStops(s: string)
    requires s == [] || !IsTrimmable(s[0])
    ensures TrimStart(s) == s
  {
  }

  lemma TrimEndStops(s: string)
    requires s == [] || !IsTrimmable(s[|s| - 1])
    ensures TrimEnd(s) == s
  {
  }

  /** Trimming twice is trimming once. */
  lemma TrimIdempotent(s: string)
    ensures Trim(Trim(s)) == Trim(s)
  {
    var r := Trim(s);
    TrimStartStops(r);
    TrimEndStops(r);
    assert Trim(r) == TrimEnd(TrimStart(r));
  }

  /** A name with a visible character; `FilledIsTrimNonEmpty` ties it to `name.trim() !== ''`. */
  predicate IsFilled(name: string)
  {
    !AllTrimmable(name)
  }

  lemma FilledIsTrimNonEmpty(name: string)
    ensures IsFilled(name) <==> Trim(name) != ""
  {
  }

  lemma FilledNamesTrimNonEmpty(names: seq<string>)
    requires forall i :: 0 <= i < |names| ==> IsFilled(names[i])
    ensures forall i :: 0 <= i < |names| ==> Trim(names[i]) != ""
  {
    forall i | 0 <= i < |names| ensures Trim(names[i]) != "" {
      FilledIsTrimNonEmpty(names[i]);
    }
  }

  /** `objectNames.filter(name => name.trim() !== '').length`. */
  function FilledCount(names: seq<string>): nat
  {
    if names == [] then 0 else (if IsFilled(names[0]) then 1 else 0) + FilledCount(names[1..])
  }

  /** At most every name is filled, and all of them are exactly when every name is. */
  lemma {:induction false} FilledCountBound(names: seq<string>)
    ensures FilledCount(names) <= |names|
    ensures FilledCount(names) == |names| <==> forall i :: 0 <= i < |names| ==> IsFilled(names[i])
  {
    if names != [] {
      var t := names[1..];
      FilledCountBound(t);
      assert forall i :: 0 <= i < |t| ==> t[i] == names[i + 1];
      assert (forall i :: 0 <= i < |names| ==> IsFilled(names[i])) <==>
        IsFilled(names[0]) && forall i :: 0 <= i < |t| ==> IsFilled(t[i]);
    }
  }

  /** `Array(objects_count).fill('')`: the form starts with one empty name per object. */
  function InitialNames(objectsCount: nat): (names: seq<string>)
    ensures |names| == objectsCount
    ensures FilledCount(names) == 0
  {
    var names := seq(objectsCount, _ => "");
    NoneFilled(names);
    names
  }

  lemma {:induction false} NoneFilled(names: seq<string>)
    requires forall i :: 0 <= i < |names| ==> names[i] == ""
    ensures FilledCount(names) == 0
  {
    if names != [] {
      NoneFilled(names[1..]);
    }
  }

  /** Typing into field `k` replaces name `k` and nothing else. */
  function EditName(names: seq<string>, k: nat, value: string): (r: seq<string>)
    requires k < |names|
    ensures |r| == |names|
    ensures r[k] == value
    ensures forall i :: 0 <= i < |names| && i != k ==> r[i] == names[i]
  {
    names[k := value]
  }

  /** An `objects` row before the database gives it an id. */
  datatype NewObject = NewObject(name: string, order: int)

  datatype SetupError = NamesMissing

  /**
   * `handleCreateObjects`: refused unless the number of filled names equals
   * `objects_count`; otherwise one object per name, in input order, with the
   * name trimmed and `object_order` counting from 1.
   */
  function CreateObjects(names: seq<string>, objectsCount: int): (r: Result<seq<NewObject>, SetupError>)
    ensures r.Ok? <==> FilledCount(names) == objectsCount
    ensures r.Ok? ==> |r.value| == |names|
    ensures r.Ok? ==> forall i :: 0 <= i < |names| ==> r.value[i].name == Trim(names[i]) && r.value[i].order == i + 1
    ensures r.Ok? ==> forall i, j :: 0 <= i < j < |r.value| ==> 1 <= r.value[i].order < r.value[j].order <= |names|
    ensures r.Ok? && |names| == objectsCount ==> forall i :: 0 <= i < |r.value| ==> r.value[i].name != ""
  {
    if FilledCount(names) != objectsCount then Err(NamesMissing)
    else
      FilledCountBound(names);
      if |names| == objectsCount then FilledNamesTrimNonEmpty(names); Ok(Numbered(names))
      else Ok(Numbered(names))
  }

  /** One new object per name, trimmed, with `object_order` = position + 1. */
  function Numbered(names: seq<string>): (objs: seq<NewObject>)
    ensures |objs| == |names|
    ensures forall i :: 0 <= i < |names| ==> objs[i] == NewObject(Trim(names[i]), i + 1)
  {
    seq(|names|, i requires 0 <= i < |names| => NewObject(Trim(names[i]), i + 1))
  }

  /** Submitting the untouched form fails whenever there is an object to name. */
  lemma InitialFormRefused(objectsCount: nat)
    ensures CreateObjects(InitialNames(objectsCount), objectsCount).Err? <==> objectsCount > 0
  {
  }
}

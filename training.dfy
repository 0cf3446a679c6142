/**
 * The training record: a code, an effectiveness percentage in [0, 100], an
 * owner, and the history of earlier (code, percentage) pairs.
 */
module TrainingModel {
  /** A user reference, as the string form of the user's id. */
  type UserRef = string

  /** One snapshot of an earlier state, with who replaced it and when. */
  datatype TrainingVersion = TrainingVersion(
    trainingCode: string,
    percent: real,
    updatedBy: UserRef,
    updatedAt: int)

  datatype Training = Training(
    trainingCode: string,
    percent: real,
    owner: UserRef,
    versions: seq<TrainingVersion>,
    createdAt: int,
    updatedAt: int)

  /** The characters the `trim` setter removes (the ASCII whitespace). */
  predicate IsSpace(c: char) {
    c == ' ' || c == '\t' || c == '\n' || c == '\r' || c == '\U{B}' || c == '\U{C}'
  }

  function TrimStart(s: string): (r: string)
    ensures |r| <= |s| && r == s[|s| - |r|..]
    ensures r == "" || !IsSpace(r[0])
    ensures forall i :: 0 <= i < |s| - |r| ==> IsSpace(s[i])
  {
    if s != [] && IsSpace(s[0]) then TrimStart(s[1..]) else s
  }

  function TrimEnd(s: string): (r: string)
    ensures |r| <= |s| && r == s[..|r|]
    ensures r == "" || !IsSpace(r[|r| - 1])
    ensures forall i :: |r| <= i < |s| ==> IsSpace(s[i])
  {
    if s != [] && IsSpace(s[|s| - 1]) then TrimEnd(s[..|s| - 1]) else s
  }

  /** Whether `s` is whitespace only. */
  predicate Blank(s: string) {
    forall k :: 0 <= k < |s| ==> IsSpace(s[k])
  }

  /** The `trim` setter: whitespace removed from both ends. */
  function Trim(s: string): (r: string)
    ensures |r| <= |s|
    ensures r == "" || (!IsSpace(r[0]) && !IsSpace(r[|r| - 1]))
  {
    TrimEnd(TrimStart(s))
  }

  /**
   * The trimmed string is a slice of `s`, and everything cut off is
   * whitespace: it is the longest slice that neither starts nor ends with it.
   */
  lemma TrimIsSlice(s: string)
    ensures exists i, j :: 0 <= i <= j <= |s| && Trim(s) == s[i..j] &&
              (forall k :: 0 <= k < i || j <= k < |s| ==> IsSpace(s[k]))
  {
    var a := TrimStart(s);
    var r := TrimEnd(a);
    var i := |s| - |a|;
    var j := i + |r|;
    assert r == s[i..j];
    forall k | j <= k < |s| ensures IsSpace(s[k]) {
      assert s[k] == a[k - i];
    }
    assert Outside(s, i, j);
  }

  /** Everything of `s` outside `[i, j)` is whitespace. */
  ghost predicate Outside(s: string, i: int, j: int) {
    forall k :: 0 <= k < |s| && (k < i || j <= k) ==> IsSpace(s[k])
  }

  /** Trimming a trimmed string changes nothing. */
  lemma TrimIdempotent(s: string)
    ensures Trim(Trim(s)) == Trim(s)
  {
    var t := Trim(s);
    assert TrimStart(t) == t;
    assert TrimEnd(t) == t;
  }

  /** A string is empty after trimming exactly when it is whitespace only. */
  lemma TrimBlank(s: string)
    ensures Trim(s) == "" <==> Blank(s)
  {
    if Blank(s) {
      AllSpaceTrimsAway(s);
    } else {
      var k :| 0 <= k < |s| && !IsSpace(s[k]);
      TrimIsSlice(s);
      var r := Trim(s);
      var i, j :| 0 <= i <= j <= |s| && r == s[i..j] &&
                  (forall k :: 0 <= k < i || j <= k < |s| ==> IsSpace(s[k]));
      assert i <= k < j;
    }
  }

  lemma {:induction false} AllSpaceTrimsAway(s: string)
    requires Blank(s)
    ensures TrimStart(s) == ""
  {
    if s != [] {
      AllSpaceTrimsAway(s[1..]);
    }
  }

  /**
   * The schema's validators on the stored (already trimmed) values: a
   * non-empty code, a percentage in [0, 100], and an owner.
   */
  predicate ValidTraining(t: Training) {
    && t.trainingCode != ""
    && 0.0 <= t.percent <= 100.0
    && t.owner != ""
  }
}

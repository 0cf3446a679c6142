/**
 * The "newest first" ordering that the document store applies for
 * `.sort({ field: -1 })`, written as a stable insertion sort on an integer key.
 */
module Ordering {

  /** `s` is ordered by `key`, largest (newest) first. */
  ghost predicate NewestFirst<T>(s: seq<T>, key: T -> int) {
    forall i, j :: 0 <= i < j < |s| ==> key(s[i]) >= key(s[j])
  }

  /** Inserts `x` before the first element that is not newer than it. */
  function Insert<T>(x: T, s: seq<T>, key: T -> int): (r: seq<T>)
    requires NewestFirst(s, key)
    ensures multiset(r) == multiset(s) + multiset{x}
    ensures |r| == |s| + 1
    ensures r[0] == x || (s != [] && r[0] == s[0])
    ensures NewestFirst(r, key)
  {
    if s == [] then [x]
    else if key(x) >= key(s[0]) then [x] + s
    else
      TailNewestFirst(s, key);
      var rest := Insert(x, s[1..], key);
      ConsNewestFirst(s[0], rest, key);
      assert s == [s[0]] + s[1..];
      assert multiset([s[0]] + rest) == multiset{s[0]} + multiset(rest);
      [s[0]] + rest
  }

  /** The tail of a newest-first sequence is newest first, and no newer than the head. */
  lemma TailNewestFirst<T>(s: seq<T>, key: T -> int)
    requires NewestFirst(s, key) && s != []
    ensures NewestFirst(s[1..], key)
    ensures |s| > 1 ==> key(s[0]) >= key(s[1])
  {
    forall i, j | 0 <= i < j < |s| - 1 ensures key(s[1..][i]) >= key(s[1..][j]) {
      assert s[1..][i] == s[i + 1] && s[1..][j] == s[j + 1];
    }
  }

  lemma ConsNewestFirst<T>(h: T, t: seq<T>, key: T -> int)
    requires NewestFirst(t, key)
    requires t != [] ==> key(h) >= key(t[0])
    ensures NewestFirst([h] + t, key)
  {
    var r := [h] + t;
    forall i, j | 0 <= i < j < |r| ensures key(r[i]) >= key(r[j]) {
      if i == 0 && j > 1 {
        assert key(t[0]) >= key(t[j - 1]);
      }
    }
  }

  /** The elements of `s`, newest first. */
  function SortNewestFirst<T>(s: seq<T>, key: T -> int): (r: seq<T>)
    ensures multiset(r) == multiset(s)
    ensures |r| == |s|
    ensures NewestFirst(r, key)
  {
    if s == [] then []
    else
      assert s == [s[0]] + s[1..];
      Insert(s[0], SortNewestFirst(s[1..], key), key)
  }

  /**
   * Taking the first `n` elements of a newest-first sequence keeps the `n`
   * newest: nothing left behind is newer than anything taken.
   */
  lemma {:induction false} PrefixIsNewest<T>(s: seq<T>, key: T -> int, n: nat)
    requires NewestFirst(s, key)
    requires n <= |s|
    ensures NewestFirst(s[..n], key)
    ensures multiset(s[..n]) + multiset(s[n..]) == multiset(s)
    ensures forall x, y :: x in s[..n] && y in multiset(s) - multiset(s[..n]) ==> key(x) >= key(y)
  {
    var front, back := s[..n], s[n..];
    assert s == front + back;
    assert multiset(s) - multiset(front) == multiset(back);
    forall i, j | 0 <= i < j < n ensures key(front[i]) >= key(front[j]) {
      assert front[i] == s[i] && front[j] == s[j];
    }
    forall x, y | x in front && y in multiset(s) - multiset(front)
      ensures key(x) >= key(y)
    {
      assert y in back;
      var i :| 0 <= i < n && front[i] == x;
      var j :| 0 <= j < |back| && back[j] == y;
      assert s[i] == x && s[n + j] == y;
    }
  }
}

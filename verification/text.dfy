/**
 * String helpers the patch applier relies on: the `.patch` suffix test,
 * Python's ordering of `str` values (code point by code point) and the
 * sort that `sorted` performs on a directory listing.
 */
module Text {

  /** `s.endswith(suffix)` */
  predicate EndsWith(s: string, suffix: string) {
    |suffix| <= |s| && s[|s| - |suffix|..] == suffix
  }

  /** Python's `a <= b` on `str`: lexicographic by code point, a proper prefix first. */
  predicate LexLe(a: string, b: string)
    decreases |a|
  {
    |a| == 0 || (|b| > 0 && (a[0] < b[0] || (a[0] == b[0] && LexLe(a[1..], b[1..]))))
  }

  lemma {:induction false} LexLeTotal(a: string, b: string)
    ensures LexLe(a, b) || LexLe(b, a)
    decreases |a|
  {
    if |a| > 0 && |b| > 0 && a[0] == b[0] {
      LexLeTotal(a[1..], b[1..]);
    }
  }

  lemma {:induction false} LexLeTransitive(a: string, b: string, c: string)
    requires LexLe(a, b) && LexLe(b, c)
    ensures LexLe(a, c)
    decreases |a|
  {
    if |a| > 0 && a[0] == b[0] && b[0] == c[0] {
      LexLeTransitive(a[1..], b[1..], c[1..]);
    }
  }

  /** Every element is at most every later one. */
  ghost predicate Ascending(s: seq<string>) {
    forall i, j {:trigger LexLe(s[i], s[j])} :: 0 <= i < j < |s| ==> LexLe(s[i], s[j])
  }

  /** No element occurs twice, as in a directory listing. */
  ghost predicate Distinct(s: seq<string>) {
    forall i, j :: 0 <= i < j < |s| ==> s[i] != s[j]
  }

  /** Putting `y` in front of an ascending `r` keeps it ascending when `y` is below `x` and below all of `s`, and `r` holds `s` and `x`. */
  lemma PrependBelow(y: string, x: string, s: seq<string>, r: seq<string>)
    requires Ascending(r) && multiset(r) == multiset(s) + multiset{x}
    requires LexLe(y, x)
    requires forall k :: 0 <= k < |s| ==> LexLe(y, s[k])
    ensures Ascending([y] + r)
  {
    forall j | 0 <= j < |r|
      ensures LexLe(y, r[j])
    {
      assert r[j] in multiset(r);
      if r[j] != x {
        assert r[j] in multiset(s);
        var k :| 0 <= k < |s| && s[k] == r[j];
      }
    }
  }

  /** Putting `x` in front of an ascending `s` whose head is not below `x` keeps it ascending. */
  lemma PrependSmallest(x: string, s: seq<string>)
    requires Ascending(s)
    requires s == [] || LexLe(x, s[0])
    ensures Ascending([x] + s)
  {
    forall j | 0 < j < |s|
      ensures LexLe(x, s[j])
    {
      LexLeTransitive(x, s[0], s[j]);
    }
  }

  /** Inserts `x` into an ascending sequence before the first element it does not exceed. */
  function Insert(x: string, s: seq<string>): (r: seq<string>)
    requires Ascending(s)
    ensures Ascending(r)
    ensures multiset(r) == multiset(s) + multiset{x}
    decreases |s|
  {
    if s == [] || LexLe(x, s[0]) then
      PrependSmallest(x, s);
      [x] + s
    else
      LexLeTotal(x, s[0]);
      assert s == [s[0]] + s[1..];
      PrependBelow(s[0], x, s[1..], Insert(x, s[1..]));
      [s[0]] + Insert(x, s[1..])
  }

  /** Python's `sorted` on a list of `str`: an ascending permutation of the input. */
  function Sort(s: seq<string>): (r: seq<string>)
    ensures Ascending(r)
    ensures multiset(r) == multiset(s)
    decreases |s|
  {
    if s == [] then []
    else
      assert s == [s[0]] + s[1..];
      Insert(s[0], Sort(s[1..]))
  }

  lemma {:induction false} InsertDistinct(x: string, s: seq<string>)
    requires Ascending(s) && Distinct(s) && x !in s
    ensures Distinct(Insert(x, s))
    decreases |s|
  {
    if s != [] && !LexLe(x, s[0]) {
      InsertDistinct(x, s[1..]);
      var rest := Insert(x, s[1..]);
      forall j | 0 <= j < |rest|
        ensures s[0] != rest[j]
      {
        assert rest[j] in multiset(rest);
        if rest[j] != x {
          assert rest[j] in multiset(s[1..]);
          var k :| 0 <= k < |s[1..]| && s[1..][k] == rest[j];
          assert s[k + 1] == rest[j];
        }
      }
    }
  }

  /** Sorting a listing of unique names keeps the names unique. */
  lemma {:induction false} SortDistinct(s: seq<string>)
    ensures Distinct(s) ==> Distinct(Sort(s))
    decreases |s|
  {
    if s != [] && Distinct(s) {
      SortDistinct(s[1..]);
      assert s[0] !in multiset(s[1..]);
      InsertDistinct(s[0], Sort(s[1..]));
    }
  }
}

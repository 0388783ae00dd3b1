/** `ORDER BY roi DESC`, as the store runs it for the leaderboard and the
    capper list. PostgreSQL puts NULL first in a descending order. */
module RoiOrder {
  import opened Common

  /** `a` may stand before `b` in descending roi order. */
  predicate RoiAtLeast(a: Nullable<real>, b: Nullable<real>)
  {
    a.Null? || (b.Val? && a.v >= b.v)
  }

  ghost predicate SortedByRoi<T>(s: seq<T>, roi: T -> Nullable<real>)
  {
    forall i, j :: 0 <= i < j < |s| ==> RoiAtLeast(roi(s[i]), roi(s[j]))
  }

  /** Insert `x` before the first element it is at least as high as. */
  function Insert<T>(x: T, s: seq<T>, roi: T -> Nullable<real>): (r: seq<T>)
    ensures multiset(r) == multiset(s) + multiset{x}
    ensures |r| == |s| + 1
  {
    if s == [] || RoiAtLeast(roi(x), roi(s[0])) then [x] + s
    else
      assert s == [s[0]] + s[1..];
      [s[0]] + Insert(x, s[1..], roi)
  }

  lemma SortedTail<T>(s: seq<T>, roi: T -> Nullable<real>)
    requires s != [] && SortedByRoi(s, roi)
    ensures SortedByRoi(s[1..], roi)
  {
    forall i, j | 0 <= i < j < |s[1..]| ensures RoiAtLeast(roi(s[1..][i]), roi(s[1..][j])) {
      assert s[1..][i] == s[i + 1] && s[1..][j] == s[j + 1];
    }
  }

  /** A head at least as high as every element keeps a sorted tail sorted. */
  lemma SortedCons<T>(x: T, t: seq<T>, roi: T -> Nullable<real>)
    requires SortedByRoi(t, roi)
    requires forall j :: 0 <= j < |t| ==> RoiAtLeast(roi(x), roi(t[j]))
    ensures SortedByRoi([x] + t, roi)
  {
    var r := [x] + t;
    forall i, j | 0 <= i < j < |r| ensures RoiAtLeast(roi(r[i]), roi(r[j])) {
      assert r[j] == t[j - 1];
      if i > 0 {
        assert r[i] == t[i - 1];
      }
    }
  }

  lemma {:induction false} InsertSorted<T>(x: T, s: seq<T>, roi: T -> Nullable<real>)
    requires SortedByRoi(s, roi)
    ensures SortedByRoi(Insert(x, s, roi), roi)
  {
    if s == [] {
      SortedCons(x, s, roi);
    } else if RoiAtLeast(roi(x), roi(s[0])) {
      forall j | 0 <= j < |s| ensures RoiAtLeast(roi(x), roi(s[j])) {
        if j > 0 {
          assert RoiAtLeast(roi(s[0]), roi(s[j]));
        }
      }
      SortedCons(x, s, roi);
    } else {
      var tail := s[1..];
      SortedTail(s, roi);
      InsertSorted(x, tail, roi);
      var rest := Insert(x, tail, roi);
      forall j | 0 <= j < |rest| ensures RoiAtLeast(roi(s[0]), roi(rest[j])) {
        assert rest[j] in multiset(rest);
        if rest[j] != x {
          assert rest[j] in multiset(tail);
          var k :| 0 <= k < |tail| && tail[k] == rest[j];
          assert tail[k] == s[k + 1];
        }
      }
      SortedCons(s[0], rest, roi);
    }
  }

  /** Insertion sort by roi, highest (NULL) first. */
  function SortByRoi<T>(s: seq<T>, roi: T -> Nullable<real>): (r: seq<T>)
    ensures multiset(r) == multiset(s)
    ensures |r| == |s|
    ensures SortedByRoi(r, roi)
  {
    if s == [] then []
    else
      var t := SortByRoi(s[1..], roi);
      InsertSorted(s[0], t, roi);
      assert s == [s[0]] + s[1..];
      Insert(s[0], t, roi)
  }
}

/** Value types shared by the whole model: optional and nullable values, the
    outcome of a route handler, and the sequence operations that the record
    store's select queries are built from. */
module Common {

  /** A request field that may be absent (JavaScript `undefined`). */
  datatype Option<+T> = None | Some(value: T)

  /** A column value that may be SQL NULL. JSON carries NaN and Infinity as
      null, so a computation that yields a non-finite number stores Null. */
  datatype Nullable<+T> = Null | Val(v: T)

  /** JavaScript `(x || 0)` on a numeric column: NULL (and 0) read as 0. */
  function RealOrZero(n: Nullable<real>): real
  {
    if n.Val? then n.v else 0.0
  }

  /** A request field written to a column: absent becomes NULL. */
  function OrNull<T>(o: Option<T>): (n: Nullable<T>)
    ensures n.Null? <==> o.None?
    ensures o.Some? ==> n.v == o.value
  {
    if o.Some? then Val(o.value) else Null
  }

  function IntOrZero(n: Nullable<int>): int
  {
    if n.Val? then n.v else 0
  }

  /** Why a handler turned a request away. Every rejection leaves the tables
      as they were (picks POST is the one handler that may write before it
      rejects, and says so). */
  datatype Failure =
    | MissingFields
    | InvalidResult
    | UserNotFound
    | BetNotFound
    | BankrollNotFound
    | PickNotFound
    | NotPickAuthor
    | AlreadyFollowing
    | TargetCapperNotFound
    | TargetNotCapper
    | NotCapper

  datatype Result<+T> = Ok(value: T) | Err(failure: Failure)

  /** The rows of `s` that satisfy `p`, in their original order. */
  function Filter<T(!new)>(s: seq<T>, p: T -> bool): (r: seq<T>)
    ensures |r| <= |s|
    ensures forall x :: x in r <==> x in s && p(x)
    ensures forall i :: 0 <= i < |r| ==> p(r[i])
  {
    if s == [] then []
    else (if p(s[0]) then [s[0]] else []) + Filter(s[1..], p)
  }

  /** Filtering distributes over appending one element. */
  lemma {:induction false} FilterAppend<T(!new)>(s: seq<T>, x: T, p: T -> bool)
    ensures Filter(s + [x], p) == Filter(s, p) + (if p(x) then [x] else [])
  {
    if s == [] {
      assert [] + [x] == [x];
      assert [x][1..] == [];
    } else {
      assert (s + [x])[1..] == s[1..] + [x];
      FilterAppend(s[1..], x, p);
    }
  }

  /** Filtering rows that all pass leaves them as they are. */
  lemma {:induction false} FilterKeepsAll<T(!new)>(s: seq<T>, p: T -> bool)
    requires forall i :: 0 <= i < |s| ==> p(s[i])
    ensures Filter(s, p) == s
  {
    if s != [] {
      FilterKeepsAll(s[1..], p);
    }
  }

  function Reverse<T>(s: seq<T>): (r: seq<T>)
    ensures |r| == |s|
    ensures forall i :: 0 <= i < |s| ==> r[i] == s[|s| - 1 - i]
  {
    if s == [] then [] else Reverse(s[1..]) + [s[0]]
  }

  /** SQL `LIMIT n`. */
  function Take<T>(s: seq<T>, n: nat): (r: seq<T>)
    ensures |r| == if n < |s| then n else |s|
    ensures r <= s
  {
    if n < |s| then s[..n] else s
  }

  /** The index of the first element satisfying `p`, as JavaScript's `find`. */
  function FirstIndex<T>(s: seq<T>, p: T -> bool): (r: Option<nat>)
    ensures r.Some? ==> r.value < |s| && p(s[r.value])
    ensures r.Some? ==> forall j :: 0 <= j < r.value ==> !p(s[j])
    ensures r.None? <==> forall j :: 0 <= j < |s| ==> !p(s[j])
  {
    if s == [] then None
    else if p(s[0]) then Some(0)
    else
      var rest := FirstIndex(s[1..], p);
      if rest.Some? then Some(rest.value + 1) else None
  }

  ghost predicate Increasing<T>(s: seq<T>, key: T -> int)
  {
    forall i, j :: 0 <= i < j < |s| ==> key(s[i]) < key(s[j])
  }

  ghost predicate Decreasing<T>(s: seq<T>, key: T -> int)
  {
    forall i, j :: 0 <= i < j < |s| ==> key(s[i]) > key(s[j])
  }

  /** Filtering keeps an increasing key increasing. */
  lemma {:induction false} FilterKeepsIncreasing<T(!new)>(s: seq<T>, p: T -> bool, key: T -> int)
    requires Increasing(s, key)
    ensures Increasing(Filter(s, p), key)
  {
    if s != [] {
      var tail := Filter(s[1..], p);
      assert Increasing(s[1..], key) by {
        forall i, j | 0 <= i < j < |s[1..]| ensures key(s[1..][i]) < key(s[1..][j]) {
          assert s[1..][i] == s[i + 1] && s[1..][j] == s[j + 1];
        }
      }
      FilterKeepsIncreasing(s[1..], p, key);
      if p(s[0]) {
        forall x | x in tail ensures key(s[0]) < key(x) {
          assert x in s[1..];
          var k :| 0 <= k < |s[1..]| && s[1..][k] == x;
          assert s[k + 1] == x;
        }
        PrependIncreasing(s[0], tail, key);
        assert Filter(s, p) == [s[0]] + tail;
      } else {
        assert Filter(s, p) == tail;
      }
    }
  }

  lemma PrependIncreasing<T>(x: T, t: seq<T>, key: T -> int)
    requires Increasing(t, key)
    requires forall y :: y in t ==> key(x) < key(y)
    ensures Increasing([x] + t, key)
  {
    var r := [x] + t;
    forall i, j | 0 <= i < j < |r| ensures key(r[i]) < key(r[j]) {
      assert r[j] == t[j - 1];
      if i > 0 {
        assert r[i] == t[i - 1];
      }
    }
  }

  /** No two elements share a key. */
  ghost predicate Distinct<T, K>(s: seq<T>, key: T -> K)
  {
    forall i, j :: 0 <= i < j < |s| ==> key(s[i]) != key(s[j])
  }

  /** Deleting rows keeps keys distinct. */
  lemma {:induction false} FilterKeepsDistinct<T(!new), K>(s: seq<T>, p: T -> bool, key: T -> K)
    requires Distinct(s, key)
    ensures Distinct(Filter(s, p), key)
  {
    if s != [] {
      var tail := Filter(s[1..], p);
      assert Distinct(s[1..], key) by {
        forall i, j | 0 <= i < j < |s[1..]| ensures key(s[1..][i]) != key(s[1..][j]) {
          assert s[1..][i] == s[i + 1] && s[1..][j] == s[j + 1];
        }
      }
      FilterKeepsDistinct(s[1..], p, key);
      if p(s[0]) {
        var r := [s[0]] + tail;
        forall i, j | 0 <= i < j < |r| ensures key(r[i]) != key(r[j]) {
          assert r[j] == tail[j - 1];
          if i == 0 {
            assert tail[j - 1] in s[1..];
            var k :| 0 <= k < |s[1..]| && s[1..][k] == tail[j - 1];
            assert s[k + 1] == r[j];
          } else {
            assert r[i] == tail[i - 1];
          }
        }
        assert Filter(s, p) == r;
      } else {
        assert Filter(s, p) == tail;
      }
    }
  }

  /** Rows satisfying `p`, newest (last inserted) first. */
  function NewestFirst<T(!new)>(s: seq<T>, p: T -> bool): (r: seq<T>)
    ensures forall x :: x in r <==> x in s && p(x)
  {
    var f := Filter(s, p);
    var r := Reverse(f);
    assert forall x :: x in r <==> x in f by {
      forall x | x in f ensures x in r {
        var i :| 0 <= i < |f| && f[i] == x;
        assert r[|f| - 1 - i] == x;
      }
    }
    r
  }

  /** Insertion order is creation order, so an increasing key (the row id)
      comes back strictly decreasing: the newest row first. */
  lemma NewestFirstIsDecreasing<T(!new)>(s: seq<T>, p: T -> bool, key: T -> int)
    requires Increasing(s, key)
    ensures Decreasing(NewestFirst(s, p), key)
  {
    FilterKeepsIncreasing(s, p, key);
    var f := Filter(s, p);
    var r := NewestFirst(s, p);
    assert Increasing(f, key);
    forall i, j | 0 <= i < j < |r| ensures key(r[i]) > key(r[j]) {
      var a, b := |f| - 1 - j, |f| - 1 - i;
      assert 0 <= a < b < |f|;
      assert key(f[a]) < key(f[b]);
      assert r[i] == f[b] && r[j] == f[a];
    }
  }

  /** A limit on a list ordered by a decreasing key keeps the highest keys:
      every element it drops ranks below every element it keeps. */
  lemma TakeKeepsHighest<T>(s: seq<T>, n: nat, key: T -> int)
    requires Decreasing(s, key)
    ensures forall x, y :: x in s && x !in Take(s, n) && y in Take(s, n) ==> key(y) > key(x)
  {
    var t := Take(s, n);
    forall x, y | x in s && x !in t && y in t ensures key(y) > key(x) {
      var a :| 0 <= a < |s| && s[a] == x;
      var b :| 0 <= b < |t| && t[b] == y;
      assert t[b] == s[b];
    }
  }

  /** The first `n` rows satisfying `p`, newest first: the newest ones, and
      all of them when fewer than `n` come back. */
  lemma NewestLimit<T(!new)>(s: seq<T>, p: T -> bool, key: T -> int, n: nat)
    requires Increasing(s, key)
    ensures var r := Take(NewestFirst(s, p), n);
      && |r| <= n
      && Decreasing(r, key)
      && (forall x :: x in r ==> x in s && p(x))
      && (forall x, y :: x in s && p(x) && x !in r && y in r ==> key(y) > key(x))
      && (|r| < n ==> forall x :: x in s && p(x) ==> x in r)
  {
    NewestFirstIsDecreasing(s, p, key);
    var all := NewestFirst(s, p);
    TakeKeepsHighest(all, n, key);
    var r := Take(all, n);
    assert forall i :: 0 <= i < |r| ==> r[i] == all[i];
    assert forall x :: x in r ==> x in all;
  }

  /** `s.slice(-6)` in JavaScript: the last six characters, or all of a
      shorter string. */
  function LastSix(s: string): (r: string)
    ensures |r| == if |s| < 6 then |s| else 6
    ensures s == s[..|s| - |r|] + r
  {
    if |s| <= 6 then s else s[|s| - 6..]
  }
}

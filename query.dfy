/** The pieces every handler's single SQL statement is built from, over a
    table held as a sequence of rows in storage order:
    WHERE is Filter, LIMIT 1 is FirstWhere, ORDER BY is SortBy,
    UPDATE ... SET ... WHERE is UpdateWhere, and a UNIQUE column is
    UniqueColumn. */
module Query {
  import opened Wrappers

  /** SELECT ... WHERE p: the rows that satisfy p, each as often as it is
      stored, in storage order. */
  function Filter<T(!new)>(s: seq<T>, p: T -> bool): (r: seq<T>)
    ensures |r| <= |s|
    ensures forall x :: x in r <==> x in s && p(x)
    ensures forall x :: multiset(r)[x] == if p(x) then multiset(s)[x] else 0
  {
    if s == [] then []
    else
      assert s == [s[0]] + s[1..];
      if p(s[0]) then [s[0]] + Filter(s[1..], p) else Filter(s[1..], p)
  }

  /** SELECT ... WHERE p LIMIT 1: the first row that satisfies p, or None. */
  function FirstWhere<T(!new)>(s: seq<T>, p: T -> bool): (r: Option<T>)
    ensures r.Some? ==> r.value in s && p(r.value)
    ensures r.None? <==> forall x :: x in s ==> !p(x)
  {
    if s == [] then None
    else if p(s[0]) then Some(s[0])
    else FirstWhere(s[1..], p)
  }

  /** UPDATE ... SET f WHERE p: every row that satisfies p is replaced by
      f of it; the others, and the order, stay as they were. */
  function UpdateWhere<T>(s: seq<T>, p: T -> bool, f: T -> T): (r: seq<T>)
    ensures |r| == |s|
  {
    seq(|s|, k requires 0 <= k < |s| => if p(s[k]) then f(s[k]) else s[k])
  }

  /** When exactly one row, the i-th, satisfies p, the update rewrites that
      row and leaves every other row untouched. */
  lemma UpdateWhereSingle<T>(s: seq<T>, p: T -> bool, f: T -> T, i: int)
    requires 0 <= i < |s| && p(s[i])
    requires forall k :: 0 <= k < |s| && k != i ==> !p(s[k])
    ensures UpdateWhere(s, p, f) == s[i := f(s[i])]
  {
    var r := UpdateWhere(s, p, f);
    forall k | 0 <= k < |s|
      ensures r[k] == s[i := f(s[i])][k]
    {
      if k == i {
        assert p(s[k]);
      } else {
        assert !p(s[k]);
      }
    }
  }

  /** `le(a, b)`: a may be listed before b. An ORDER BY clause defines a
      total preorder: every two rows compare, and ties are allowed. */
  ghost predicate TotalPreorder<T(!new)>(le: (T, T) -> bool) {
    && (forall a, b :: le(a, b) || le(b, a))
    && (forall a, b, c :: le(a, b) && le(b, c) ==> le(a, c))
  }

  /** Every row is listed before-or-tied-with every later row. */
  ghost predicate Sorted<T>(s: seq<T>, le: (T, T) -> bool) {
    forall i, j :: 0 <= i < j < |s| ==> le(s[i], s[j])
  }

  /** Places x in front of the first row it may precede. */
  function Insert<T>(x: T, s: seq<T>, le: (T, T) -> bool): (r: seq<T>)
    ensures |r| == |s| + 1
    ensures multiset(r) == multiset(s) + multiset{x}
  {
    if s == [] then [x]
    else if le(x, s[0]) then [x] + s
    else
      assert s == [s[0]] + s[1..];
      [s[0]] + Insert(x, s[1..], le)
  }

  /** ORDER BY le: a stable insertion sort, so rows that tie keep their
      storage order. The result holds exactly the rows of s. */
  function SortBy<T>(s: seq<T>, le: (T, T) -> bool): (r: seq<T>)
    ensures |r| == |s|
    ensures multiset(r) == multiset(s)
  {
    if s == [] then []
    else
      assert s == [s[0]] + s[1..];
      Insert(s[0], SortBy(s[1..], le), le)
  }

  lemma {:induction false} InsertSorted<T(!new)>(x: T, s: seq<T>, le: (T, T) -> bool)
    requires TotalPreorder(le)
    requires Sorted(s, le)
    ensures Sorted(Insert(x, s, le), le)
  {
    if s == [] {
    } else if le(x, s[0]) {
      var r := [x] + s;
      forall i, j | 0 <= i < j < |r|
        ensures le(r[i], r[j])
      {
        if i == 0 && j > 1 {
          assert le(s[0], s[j - 1]);
        }
      }
    } else {
      assert le(s[0], x);
      var tail := Insert(x, s[1..], le);
      InsertSorted(x, s[1..], le);
      var r := [s[0]] + tail;
      forall j | 0 <= j < |tail|
        ensures le(s[0], tail[j])
      {
        assert tail[j] in multiset(tail);
        assert tail[j] in multiset(s[1..]) + multiset{x};
        if tail[j] != x {
          assert tail[j] in s[1..];
          var k :| 0 <= k < |s[1..]| && s[1..][k] == tail[j];
          assert le(s[0], s[k + 1]);
        }
      }
      forall i, j | 0 <= i < j < |r|
        ensures le(r[i], r[j])
      {
        if i == 0 {
          assert r[j] == tail[j - 1];
        } else {
          assert r[i] == tail[i - 1] && r[j] == tail[j - 1];
        }
      }
    }
  }

  /** What an ORDER BY promises: the result is in order. */
  lemma {:induction false} SortBySorted<T(!new)>(s: seq<T>, le: (T, T) -> bool)
    requires TotalPreorder(le)
    ensures Sorted(SortBy(s, le), le)
  {
    if s != [] {
      SortBySorted(s[1..], le);
      InsertSorted(s[0], SortBy(s[1..], le), le);
    }
  }

  /** A UNIQUE constraint on the column `key`: no two rows share a value. */
  ghost predicate UniqueColumn<T, K>(s: seq<T>, key: T -> K) {
    forall i, j :: 0 <= i < j < |s| ==> key(s[i]) != key(s[j])
  }

  /** Some row holds v in the column `key`. */
  predicate ColumnHas<T, K(==)>(s: seq<T>, key: T -> K, v: K) {
    exists i :: 0 <= i < |s| && key(s[i]) == v
  }

  /** Inserting a row whose key is not yet in the table keeps the column
      unique. */
  lemma AppendKeepsUnique<T, K>(s: seq<T>, key: T -> K, x: T)
    requires UniqueColumn(s, key)
    requires !ColumnHas(s, key, key(x))
    ensures UniqueColumn(s + [x], key)
  {
    var r := s + [x];
    forall i, j | 0 <= i < j < |r|
      ensures key(r[i]) != key(r[j])
    {
      if j == |s| {
        assert r[i] == s[i];
      } else {
        assert r[i] == s[i] && r[j] == s[j];
      }
    }
  }

  /** The condition `key = v` of a WHERE clause. */
  function KeyEquals<T, K(==)>(key: T -> K, v: K): T -> bool {
    x => key(x) == v
  }

  /** SELECT ... WHERE key = v. */
  function Where<T(!new), K(==)>(s: seq<T>, key: T -> K, v: K): seq<T> {
    Filter(s, KeyEquals(key, v))
  }

  /** Under a UNIQUE constraint, `WHERE key = v` finds one row if some row
      holds v and none otherwise. */
  lemma {:induction false} WhereUniqueSize<T(!new), K>(s: seq<T>, key: T -> K, v: K)
    requires UniqueColumn(s, key)
    ensures |Where(s, key, v)| == if ColumnHas(s, key, v) then 1 else 0
  {
    if s != [] {
      var rest := s[1..];
      assert UniqueColumn(rest, key) by {
        forall i, j | 0 <= i < j < |rest|
          ensures key(rest[i]) != key(rest[j])
        {
          assert key(s[i + 1]) != key(s[j + 1]);
        }
      }
      WhereUniqueSize(rest, key, v);
      assert ColumnHas(s, key, v) <==> key(s[0]) == v || ColumnHas(rest, key, v) by {
        if ColumnHas(s, key, v) {
          var i :| 0 <= i < |s| && key(s[i]) == v;
          if i > 0 {
            assert key(rest[i - 1]) == v;
          }
        }
        if ColumnHas(rest, key, v) {
          var i :| 0 <= i < |rest| && key(rest[i]) == v;
          assert key(s[i + 1]) == v;
        }
      }
      if key(s[0]) == v {
        forall i | 0 <= i < |rest|
          ensures key(rest[i]) != v
        {
          assert key(s[0]) != key(s[i + 1]);
        }
      }
    }
  }

  /** Rewriting a row in place without touching its key keeps the column
      unique. */
  lemma ReplaceKeepsUnique<T, K>(s: seq<T>, key: T -> K, i: int, x: T)
    requires UniqueColumn(s, key)
    requires 0 <= i < |s| && key(x) == key(s[i])
    ensures UniqueColumn(s[i := x], key)
  {
    var r := s[i := x];
    forall a, b | 0 <= a < b < |r|
      ensures key(r[a]) != key(r[b])
    {
      assert key(r[a]) == key(s[a]) && key(r[b]) == key(s[b]);
    }
  }

  /** Under a unique key, two stored rows with the same key are the same row. */
  lemma UniqueKeySameRow<T, K>(s: seq<T>, key: T -> K, x: T, y: T)
    requires UniqueColumn(s, key)
    requires x in s && y in s && key(x) == key(y)
    ensures x == y
  {
    var i :| 0 <= i < |s| && s[i] == x;
    var j :| 0 <= j < |s| && s[j] == y;
    assert key(s[i]) == key(s[j]);
    assert i == j;
  }
}

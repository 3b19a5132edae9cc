/** The part of a document-store query the core relies on: `find(filter).sort({field: 1}).limit(n)`
    over a table whose rows are addressed by their position. A filter is a predicate on rows, a sort key
    a function from rows to integers; results are lists of row ids. */
module Query {

  predicate InRange<T>(rows: seq<T>, ids: seq<nat>) {
    forall k :: 0 <= k < |ids| ==> ids[k] < |rows|
  }

  predicate Distinct(ids: seq<nat>) {
    forall j, k :: 0 <= j < k < |ids| ==> ids[j] != ids[k]
  }

  predicate Increasing(ids: seq<nat>) {
    forall j, k :: 0 <= j < k < |ids| ==> ids[j] < ids[k]
  }

  /** The ids are listed in ascending order of the rows' keys. */
  predicate SortedBy<T>(rows: seq<T>, key: T -> int, ids: seq<nat>) {
    InRange(rows, ids) && forall j, k :: 0 <= j < k < |ids| ==> key(rows[ids[j]]) <= key(rows[ids[k]])
  }

  /** The rows matching `p`, in table order. */
  function Where<T>(rows: seq<T>, p: T -> bool): (ids: seq<nat>)
    ensures forall k :: 0 <= k < |ids| ==> ids[k] < |rows| && p(rows[ids[k]])
    ensures forall i :: 0 <= i < |rows| && p(rows[i]) ==> i in ids
    ensures Increasing(ids)
  {
    if |rows| == 0 then []
    else
      var front := Where(rows[..|rows| - 1], p);
      if p(rows[|rows| - 1]) then front + [|rows| - 1] else front
  }

  /** Places `x` before the first id whose key is not smaller than its own. `SortBy` inserts the lower
      ids last, so among equal keys the lower id comes first (stable insertion). */
  function Insert<T>(rows: seq<T>, key: T -> int, x: nat, s: seq<nat>): (r: seq<nat>)
    requires x < |rows| && InRange(rows, s)
    ensures multiset(r) == multiset(s) + multiset{x}
    ensures InRange(rows, r)
  {
    if s == [] || key(rows[x]) <= key(rows[s[0]]) then [x] + s
    else
      assert s == [s[0]] + s[1..];
      [s[0]] + Insert(rows, key, x, s[1..])
  }

  /** Insertion sort of `ids` by key. */
  function SortBy<T>(rows: seq<T>, key: T -> int, ids: seq<nat>): (r: seq<nat>)
    requires InRange(rows, ids)
    ensures multiset(r) == multiset(ids)
    ensures InRange(rows, r)
  {
    if ids == [] then []
    else
      assert ids == [ids[0]] + ids[1..];
      Insert(rows, key, ids[0], SortBy(rows, key, ids[1..]))
  }

  lemma {:induction false} InsertSorted<T>(rows: seq<T>, key: T -> int, x: nat, s: seq<nat>)
    requires x < |rows| && SortedBy(rows, key, s)
    ensures SortedBy(rows, key, Insert(rows, key, x, s))
  {
    if s != [] && key(rows[x]) > key(rows[s[0]]) {
      var tail := Insert(rows, key, x, s[1..]);
      InsertSorted(rows, key, x, s[1..]);
      forall k | 0 <= k < |tail| ensures key(rows[s[0]]) <= key(rows[tail[k]]) {
        assert tail[k] in multiset(tail);
        assert tail[k] == x || tail[k] in s[1..];
      }
    }
  }

  lemma {:induction false} InsertDistinct<T>(rows: seq<T>, key: T -> int, x: nat, s: seq<nat>)
    requires x < |rows| && InRange(rows, s) && Distinct(s) && x !in s
    ensures Distinct(Insert(rows, key, x, s))
  {
    if s != [] && key(rows[x]) > key(rows[s[0]]) {
      var tail := Insert(rows, key, x, s[1..]);
      assert x !in s[1..];
      InsertDistinct(rows, key, x, s[1..]);
      assert s[0] !in s[1..];
      assert s[0] !in multiset(tail);
    }
  }

  lemma {:induction false} SortByFacts<T>(rows: seq<T>, key: T -> int, ids: seq<nat>)
    requires InRange(rows, ids)
    ensures SortedBy(rows, key, SortBy(rows, key, ids))
    ensures Distinct(ids) ==> Distinct(SortBy(rows, key, ids))
  {
    if ids != [] {
      var rest := SortBy(rows, key, ids[1..]);
      SortByFacts(rows, key, ids[1..]);
      InsertSorted(rows, key, ids[0], rest);
      if Distinct(ids) {
        assert ids[0] !in ids[1..];
        assert ids[0] !in multiset(rest);
        InsertDistinct(rows, key, ids[0], rest);
      }
    }
  }

  /** `find(p).sort(key).limit(limit)`: at most `limit` matching rows, without repetition, in ascending
      key order, and no matching row is left out unless the batch is full of rows whose keys are no
      larger than its own. */
  function FindSorted<T>(rows: seq<T>, p: T -> bool, key: T -> int, limit: nat): (r: seq<nat>)
    ensures |r| <= limit
    ensures forall k :: 0 <= k < |r| ==> r[k] < |rows| && p(rows[r[k]])
    ensures Distinct(r)
    ensures SortedBy(rows, key, r)
    ensures forall i :: 0 <= i < |rows| && p(rows[i]) && i !in r ==>
              |r| == limit && forall k :: 0 <= k < |r| ==> key(rows[r[k]]) <= key(rows[i])
  {
    var all := Where(rows, p);
    var sorted := SortBy(rows, key, all);
    SortByFacts(rows, key, all);
    var n := if |sorted| < limit then |sorted| else limit;
    PrefixFacts(rows, p, key, all, sorted, n);
    sorted[..n]
  }

  /** The facts about a prefix of the sorted matching rows that make `FindSorted` correct. */
  lemma PrefixFacts<T>(rows: seq<T>, p: T -> bool, key: T -> int, all: seq<nat>, sorted: seq<nat>, n: nat)
    requires forall k :: 0 <= k < |all| ==> all[k] < |rows| && p(rows[all[k]])
    requires forall i :: 0 <= i < |rows| && p(rows[i]) ==> i in all
    requires multiset(sorted) == multiset(all)
    requires SortedBy(rows, key, sorted) && Distinct(sorted)
    requires n <= |sorted|
    ensures forall k :: 0 <= k < n ==> sorted[..n][k] < |rows| && p(rows[sorted[..n][k]])
    ensures Distinct(sorted[..n]) && SortedBy(rows, key, sorted[..n])
    ensures forall i :: 0 <= i < |rows| && p(rows[i]) && i !in sorted[..n] ==>
              n < |sorted| && forall k :: 0 <= k < n ==> key(rows[sorted[..n][k]]) <= key(rows[i])
  {
    var r := sorted[..n];
    forall k | 0 <= k < n ensures r[k] < |rows| && p(rows[r[k]]) {
      assert r[k] == sorted[k];
      assert sorted[k] in multiset(all);
      var j :| 0 <= j < |all| && all[j] == sorted[k];
    }
    assert forall k :: 0 <= k < n ==> sorted[k] in r;
    forall i | 0 <= i < |rows| && p(rows[i]) && i !in r
      ensures n < |sorted| && forall k :: 0 <= k < n ==> key(rows[r[k]]) <= key(rows[i])
    {
      assert i in multiset(sorted);
      var j :| 0 <= j < |sorted| && sorted[j] == i;
      assert n <= j;
    }
  }

  /** The ids occurring in a list. */
  function Elements(ids: seq<nat>): set<nat> {
    set x | x in ids
  }

  /** A list without repetition has as many elements as the set of its elements. */
  lemma {:induction false} DistinctCardinality(ids: seq<nat>)
    requires Distinct(ids)
    ensures |Elements(ids)| == |ids|
  {
    if ids != [] {
      var tail := ids[1..];
      DistinctCardinality(tail);
      assert ids[0] !in Elements(tail);
      assert Elements(ids) == Elements(tail) + {ids[0]} by {
        assert ids == [ids[0]] + tail;
      }
    }
  }
}

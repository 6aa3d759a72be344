/** Ordering of query results by one integer field (`.sort("created_at")`, `.sort("photo_id")`). */
module Sorting {

  ghost predicate SortedBy<T>(s: seq<T>, key: T -> int) {
    forall i, j :: 0 <= i < j < |s| ==> key(s[i]) <= key(s[j])
  }

  /** A head no larger than every element of a sorted tail keeps the sequence sorted. */
  lemma SortedCons<T>(h: T, t: seq<T>, key: T -> int)
    requires SortedBy(t, key)
    requires forall y :: y in t ==> key(h) <= key(y)
    ensures SortedBy([h] + t, key)
  {
    var r := [h] + t;
    forall i, j | 0 <= i < j < |r|
      ensures key(r[i]) <= key(r[j])
    {
      if i == 0 {
        assert r[j] == t[j - 1] && t[j - 1] in t;
      } else {
        assert r[i] == t[i - 1] && r[j] == t[j - 1];
      }
    }
  }

  /** Places `x` after every element whose key is not larger than its own. */
  function InsertBy<T(!new)>(s: seq<T>, x: T, key: T -> int): (r: seq<T>)
    requires SortedBy(s, key)
    ensures SortedBy(r, key)
    ensures |r| == |s| + 1
    ensures forall y :: y in r <==> y in s || y == x
  {
    if s == [] then [x]
    else if key(x) < key(s[0]) then
      assert forall y :: y in s ==> key(x) <= key(y) by {
        forall y | y in s ensures key(x) <= key(y) {
          var j :| 0 <= j < |s| && s[j] == y;
          assert key(s[0]) <= key(s[j]);
        }
      }
      SortedCons(x, s, key);
      [x] + s
    else
      var tail := s[1..];
      assert SortedBy(tail, key) by {
        forall i, j | 0 <= i < j < |tail| ensures key(tail[i]) <= key(tail[j]) {
          assert tail[i] == s[i + 1] && tail[j] == s[j + 1];
        }
      }
      var rest := InsertBy(tail, x, key);
      assert s == [s[0]] + tail;
      assert forall y :: y in rest ==> key(s[0]) <= key(y) by {
        forall y | y in rest ensures key(s[0]) <= key(y) {
          if y != x {
            var j :| 0 <= j < |tail| && tail[j] == y;
            assert tail[j] == s[j + 1];
          }
        }
      }
      SortedCons(s[0], rest, key);
      [s[0]] + rest
  }

  /** The insertion adds exactly one copy of `x` and keeps every other element. */
  lemma {:induction false} InsertByPermutes<T(!new)>(s: seq<T>, x: T, key: T -> int)
    requires SortedBy(s, key)
    ensures multiset(InsertBy(s, x, key)) == multiset(s) + multiset{x}
  {
    if s != [] && key(s[0]) <= key(x) {
      var tail := s[1..];
      assert SortedBy(tail, key) by {
        forall i, j | 0 <= i < j < |tail| ensures key(tail[i]) <= key(tail[j]) {
          assert tail[i] == s[i + 1] && tail[j] == s[j + 1];
        }
      }
      InsertByPermutes(tail, x, key);
      var r := InsertBy(tail, x, key);
      assert InsertBy(s, x, key) == [s[0]] + r;
      calc {
        multiset(InsertBy(s, x, key));
        multiset([s[0]] + r);
        multiset{s[0]} + multiset(r);
        multiset{s[0]} + multiset(tail) + multiset{x};
        { assert s == [s[0]] + tail; }
        multiset(s) + multiset{x};
      }
    }
  }

  /** Strictly ascending: the order of a listing by a field that is unique within the listing. */
  predicate Increasing(s: seq<nat>) {
    forall i, j :: 0 <= i < j < |s| ==> s[i] < s[j]
  }

  /** `s` lists exactly the numbers in `ids`, in ascending order. */
  ghost predicate IsListing(s: seq<nat>, ids: set<nat>) {
    Increasing(s) && forall x :: x in s <==> x in ids
  }

  /** Places a number not yet present at its place in an ascending sequence. */
  function InsertIncreasing(s: seq<nat>, x: nat): (r: seq<nat>)
    requires Increasing(s) && x !in s
    ensures Increasing(r)
    ensures |r| == |s| + 1
    ensures forall y :: y in r <==> y in s || y == x
  {
    if s == [] then [x]
    else if x < s[0] then [x] + s
    else
      var rest := InsertIncreasing(s[1..], x);
      assert forall k :: 0 <= k < |rest| ==> s[0] < rest[k] by {
        forall k | 0 <= k < |rest| ensures s[0] < rest[k] {
          assert rest[k] in rest;
          assert rest[k] == x || rest[k] in s[1..];
        }
      }
      [s[0]] + rest
  }

  /** The smallest element of a non-empty set of numbers. */
  ghost function SetMin(ids: set<nat>): (m: nat)
    requires ids != {}
    ensures m in ids && forall x :: x in ids ==> m <= x
    decreases ids
  {
    var x :| x in ids;
    var others := ids - {x};
    if others == {} then
      assert ids == {x};
      x
    else
      var m := SetMin(others);
      assert forall y :: y in ids ==> y == x || y in others;
      if x < m then x else m
  }

  /** The least element of a set followed by the listing of the rest lists the whole set. */
  lemma ListingCons(m: nat, rest: seq<nat>, ids: set<nat>)
    requires m in ids && forall x :: x in ids ==> m <= x
    requires IsListing(rest, ids - {m})
    ensures IsListing([m] + rest, ids)
  {
    var r := [m] + rest;
    forall i, j | 0 <= i < j < |r|
      ensures r[i] < r[j]
    {
      assert r[j] == rest[j - 1] && rest[j - 1] in rest;
      if i > 0 {
        assert r[i] == rest[i - 1];
      }
    }
    forall x
      ensures x in r <==> x in ids
    {
      assert x in r <==> x == m || x in rest;
    }
  }

  /** The ascending listing of a finite set of numbers. */
  ghost function SortedIds(ids: set<nat>): (s: seq<nat>)
    ensures IsListing(s, ids) && |s| == |ids|
    decreases ids
  {
    if ids == {} then []
    else
      var m := SetMin(ids);
      var rest := SortedIds(ids - {m});
      ListingCons(m, rest, ids);
      [m] + rest
  }

  /** Only the empty set has the empty listing. */
  lemma ListingEmpty(s: seq<nat>, ids: set<nat>)
    requires IsListing(s, ids)
    ensures s == [] <==> ids == {}
  {
    if s != [] {
      assert s[0] in s;
    } else {
      assert forall x :: x !in ids;
    }
  }

  /** A set has only one ascending listing. */
  lemma {:induction false} ListingUnique(a: seq<nat>, b: seq<nat>, ids: set<nat>)
    requires IsListing(a, ids) && IsListing(b, ids)
    ensures a == b
    decreases |a|
  {
    ListingEmpty(a, ids);
    ListingEmpty(b, ids);
    if ids != {} {
      assert a[0] in b && b[0] in a;
      assert a[0] == b[0];
      var rest := ids - {a[0]};
      assert forall x :: x in a[1..] <==> x in rest;
      assert forall x :: x in b[1..] <==> x in rest;
      ListingUnique(a[1..], b[1..], rest);
    }
  }
}

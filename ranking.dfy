/** Descending order by an integer key, standing for a store query
    `.sort({ field: -1 })`. The store promises no order among equal keys; this
    model breaks ties by storage position, which is a modelling choice. */
module Ranking {

  ghost predicate SortedDesc<T>(s: seq<T>, key: T -> int) {
    forall i, j :: 0 <= i < j < |s| ==> key(s[i]) >= key(s[j])
  }

  /** Puts `x` in front of the first element whose key does not exceed its own. */
  function Insert<T>(x: T, s: seq<T>, key: T -> int): (r: seq<T>)
    requires SortedDesc(s, key)
    ensures SortedDesc(r, key)
    ensures multiset(r) == multiset(s) + multiset{x}
    ensures |r| == |s| + 1
    decreases |s|
  {
    if s == [] then [x]
    else if key(x) >= key(s[0]) then [x] + s
    else
      var rest := Insert(x, s[1..], key);
      assert s == [s[0]] + s[1..];
      HeadBoundsRest(x, s, key, rest);
      [s[0]] + rest
  }

  /** The head of a descending list outranks every element of the rest with a
      lower-keyed element added. */
  lemma HeadBoundsRest<T>(x: T, s: seq<T>, key: T -> int, rest: seq<T>)
    requires SortedDesc(s, key) && |s| > 0 && key(x) < key(s[0])
    requires SortedDesc(rest, key) && multiset(rest) == multiset(s[1..]) + multiset{x}
    ensures SortedDesc([s[0]] + rest, key)
  {
    forall k | 0 <= k < |rest|
      ensures key(rest[k]) <= key(s[0])
    {
      assert rest[k] in multiset(rest);
      if rest[k] != x {
        assert rest[k] in multiset(s[1..]);
        var j :| 0 <= j < |s[1..]| && s[1..][j] == rest[k];
        assert s[j + 1] == rest[k];
      }
    }
  }

  /** An element that ranks below everything already ordered goes to the end. */
  lemma {:induction false} InsertLowest<T>(x: T, s: seq<T>, key: T -> int)
    requires SortedDesc(s, key)
    requires forall y :: y in s ==> key(x) < key(y)
    ensures Insert(x, s, key) == s + [x]
    decreases |s|
  {
    if s != [] {
      assert s[0] in s;
      assert s[1..] + [x] == (s + [x])[1..];
      InsertLowest(x, s[1..], key);
    }
  }

  /** The records ordered by descending key. */
  function SortDesc<T>(s: seq<T>, key: T -> int): (r: seq<T>)
    ensures SortedDesc(r, key)
    ensures multiset(r) == multiset(s)
    ensures |r| == |s|
    decreases |s|
  {
    if s == [] then []
    else
      assert s == [s[0]] + s[1..];
      Insert(s[0], SortDesc(s[1..], key), key)
  }

  /** Three records with rising keys come out in reverse. */
  lemma RisingThreeReversed<T>(x: T, y: T, z: T, key: T -> int)
    requires key(x) < key(y) < key(z)
    ensures SortDesc([x, y, z], key) == [z, y, x]
  {
    assert [x, y, z][1..] == [y, z] && [y, z][1..] == [z] && [z][1..] == [];
    assert SortDesc([z], key) == [z];
    InsertLowest(y, [z], key);
    InsertLowest(x, [z, y], key);
  }

  /** The first element of the descending order carries the largest key, and the
      second carries the largest key among the others: the second-ranked element
      of `s` in the sense of "index 1 of the amount-descending list". */
  lemma {:induction false} TopTwo<T>(s: seq<T>, key: T -> int)
    requires |s| >= 2
    ensures var r := SortDesc(s, key);
      && r[0] in multiset(s) && r[1] in multiset(s) - multiset{r[0]}
      && (forall y :: y in multiset(s) ==> key(y) <= key(r[0]))
      && (forall y :: y in multiset(s) - multiset{r[0]} ==> key(y) <= key(r[1]))
  {
    var r := SortDesc(s, key);
    SortedTopTwo(r, key);
  }

  /** The top-two property of any descending list, stated over its own contents. */
  lemma SortedTopTwo<T>(r: seq<T>, key: T -> int)
    requires SortedDesc(r, key) && |r| >= 2
    ensures r[0] in multiset(r) && r[1] in multiset(r) - multiset{r[0]}
    ensures forall y :: y in multiset(r) ==> key(y) <= key(r[0])
    ensures forall y :: y in multiset(r) - multiset{r[0]} ==> key(y) <= key(r[1])
  {
    assert r == [r[0]] + r[1..];
    assert multiset(r) - multiset{r[0]} == multiset(r[1..]);
    assert r[1..][0] == r[1];
    SortedBounds(r, key, 0);
    SortedBounds(r, key, 1);
    assert r[0..] == r;
  }

  /** In a descending list each element outranks everything after it. */
  lemma SortedBounds<T>(r: seq<T>, key: T -> int, i: nat)
    requires SortedDesc(r, key) && i < |r|
    ensures forall y :: y in multiset(r[i..]) ==> key(y) <= key(r[i])
  {
    forall y | y in multiset(r[i..])
      ensures key(y) <= key(r[i])
    {
      assert y in r[i..];
      var k :| 0 <= k < |r[i..]| && r[i..][k] == y;
      assert r[i + k] == y;
    }
  }
}

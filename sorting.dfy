/** Insertion into sorted sequences: the database's `orderBy` and the
    client's `sort()`, both specified by a key and an order. */
module Sorting {

  import opened Text

  /** Ascending by a string key in `LexLe` order. */
  predicate SortedAsc<T>(s: seq<T>, key: T -> string)
  {
    forall i, j :: 0 <= i < j < |s| ==> LexLe(key(s[i]), key(s[j]))
  }

  /** Descending by an integer key. */
  predicate SortedDesc<T>(s: seq<T>, key: T -> int)
  {
    forall i, j :: 0 <= i < j < |s| ==> key(s[i]) >= key(s[j])
  }

  /** An element below every element of a sorted sequence can go in front of it. */
  lemma SortedAscCons<T>(x: T, s: seq<T>, key: T -> string)
    requires SortedAsc(s, key)
    requires forall j :: 0 <= j < |s| ==> LexLe(key(x), key(s[j]))
    ensures SortedAsc([x] + s, key)
  {
    var r := [x] + s;
    forall i, j | 0 <= i < j < |r| ensures LexLe(key(r[i]), key(r[j])) {
      if i == 0 {
        assert r[j] == s[j - 1];
      } else {
        assert r[i] == s[i - 1] && r[j] == s[j - 1];
      }
    }
  }

  /** Putting the first element back in front of the insertion into the
      rest keeps the order, when the inserted element comes after it. */
  lemma InsertAscRest<T>(x: T, s: seq<T>, key: T -> string, rest: seq<T>)
    requires |s| > 0 && SortedAsc(s, key) && !LexLe(key(x), key(s[0]))
    requires SortedAsc(rest, key)
    requires forall y :: y in rest ==> y == x || y in s[1..]
    ensures SortedAsc([s[0]] + rest, key)
  {
    LexLeTotal(key(x), key(s[0]));
    forall j | 0 <= j < |rest| ensures LexLe(key(s[0]), key(rest[j])) {
      assert rest[j] in rest;
      if rest[j] != x {
        var k :| 1 <= k < |s| && s[k] == rest[j];
      }
    }
    SortedAscCons(s[0], rest, key);
  }

  /** The same for the descending order. */
  lemma InsertDescRest<T>(x: T, s: seq<T>, key: T -> int, rest: seq<T>)
    requires |s| > 0 && SortedDesc(s, key) && key(x) < key(s[0])
    requires SortedDesc(rest, key)
    requires forall y :: y in rest ==> y == x || y in s[1..]
    ensures SortedDesc([s[0]] + rest, key)
  {
    forall j | 0 <= j < |rest| ensures key(s[0]) >= key(rest[j]) {
      assert rest[j] in rest;
      if rest[j] != x {
        var k :| 1 <= k < |s| && s[k] == rest[j];
      }
    }
    var r := [s[0]] + rest;
    forall i, j | 0 <= i < j < |r| ensures key(r[i]) >= key(r[j]) {
      if i > 0 {
        assert r[i] == rest[i - 1] && r[j] == rest[j - 1];
      } else {
        assert r[j] == rest[j - 1];
      }
    }
  }

  /** `x` put in front of the first element whose key is not smaller. */
  function InsertAsc<T>(x: T, s: seq<T>, key: T -> string): (r: seq<T>)
    requires SortedAsc(s, key)
    ensures SortedAsc(r, key)
    ensures multiset(r) == multiset(s) + multiset{x}
    ensures forall y :: y in r ==> y == x || y in s
    ensures x in r && forall y :: y in s ==> y in r
  {
    if |s| == 0 then [x]
    else if LexLe(key(x), key(s[0])) then
      forall j | 0 <= j < |s| ensures LexLe(key(x), key(s[j])) {
        if j > 0 { LexLeTransitive(key(x), key(s[0]), key(s[j])); }
      }
      SortedAscCons(x, s, key);
      assert s == [s[0]] + s[1..];
      [x] + s
    else
      var rest := InsertAsc(x, s[1..], key);
      InsertAscRest(x, s, key, rest);
      assert s == [s[0]] + s[1..];
      [s[0]] + rest
  }

  /** `x` put in front of the first element whose key is not larger. */
  function InsertDesc<T>(x: T, s: seq<T>, key: T -> int): (r: seq<T>)
    requires SortedDesc(s, key)
    ensures SortedDesc(r, key)
    ensures multiset(r) == multiset(s) + multiset{x}
    ensures forall y :: y in r ==> y == x || y in s
    ensures x in r && forall y :: y in s ==> y in r
  {
    if |s| == 0 then [x]
    else if key(x) >= key(s[0]) then
      assert s == [s[0]] + s[1..];
      [x] + s
    else
      var rest := InsertDesc(x, s[1..], key);
      InsertDescRest(x, s, key, rest);
      assert s == [s[0]] + s[1..];
      [s[0]] + rest
  }
}

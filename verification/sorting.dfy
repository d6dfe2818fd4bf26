/**
 * The stable `Array.prototype.sort` the client applies with numeric comparators,
 * written as an insertion sort by a key. A key orders by `primary`, then by
 * `secondary`, where a missing secondary value stands for +Infinity; two
 * missing secondaries compare equal (the comparator yields NaN, read as 0).
 */
module Sorting {
  import opened Wrappers

  datatype Key = Key(primary: int, secondary: Option<int>)

  predicate KeyLe(a: Key, b: Key)
  {
    a.primary < b.primary
    || (a.primary == b.primary && (b.secondary.None? || (a.secondary.Some? && a.secondary.value <= b.secondary.value)))
  }

  lemma KeyLeTotal(a: Key, b: Key)
    ensures KeyLe(a, b) || KeyLe(b, a)
  {
  }

  lemma KeyLeTransitive(a: Key, b: Key, c: Key)
    requires KeyLe(a, b) && KeyLe(b, c)
    ensures KeyLe(a, c)
  {
  }

  predicate SortedBy<T>(s: seq<T>, key: T -> Key)
  {
    forall i, j :: 0 <= i < j < |s| ==> KeyLe(key(s[i]), key(s[j]))
  }

  /** Places `x` in front of the first element it does not exceed. */
  function Insert<T>(x: T, s: seq<T>, key: T -> Key): (r: seq<T>)
    ensures |r| == |s| + 1
    decreases |s|
  {
    if |s| == 0 then [x]
    else if KeyLe(key(x), key(s[0])) then [x] + s
    else [s[0]] + Insert(x, s[1..], key)
  }

  lemma {:induction false} InsertPermutes<T>(x: T, s: seq<T>, key: T -> Key)
    ensures multiset(Insert(x, s, key)) == multiset(s) + multiset{x}
    decreases |s|
  {
    if |s| > 0 && !KeyLe(key(x), key(s[0])) {
      InsertPermutes(x, s[1..], key);
      assert s == [s[0]] + s[1..];
    }
  }

  lemma {:induction false} InsertSorted<T>(x: T, s: seq<T>, key: T -> Key)
    requires SortedBy(s, key)
    ensures SortedBy(Insert(x, s, key), key)
    decreases |s|
  {
    if |s| == 0 {
    } else if KeyLe(key(x), key(s[0])) {
      forall j | 0 < j < |s| ensures KeyLe(key(x), key(s[j])) {
        KeyLeTransitive(key(x), key(s[0]), key(s[j]));
      }
    } else {
      KeyLeTotal(key(x), key(s[0]));
      var rest := Insert(x, s[1..], key);
      InsertSorted(x, s[1..], key);
      InsertPermutes(x, s[1..], key);
      forall j | 0 <= j < |rest| ensures KeyLe(key(s[0]), key(rest[j])) {
        assert rest[j] in multiset(rest);
        if rest[j] != x {
          assert rest[j] in multiset(s[1..]);
          var k :| 0 <= k < |s[1..]| && s[1..][k] == rest[j];
          assert s[k + 1] == rest[j];
        }
      }
    }
  }

  /** `[...s].sort(cmp)` for a comparator that orders by `key`. */
  function SortBy<T>(s: seq<T>, key: T -> Key): (r: seq<T>)
    ensures multiset(r) == multiset(s)
    ensures SortedBy(r, key)
    decreases |s|
  {
    if |s| == 0 then []
    else
      var rest := SortBy(s[1..], key);
      InsertPermutes(s[0], rest, key);
      InsertSorted(s[0], rest, key);
      assert s == [s[0]] + s[1..];
      Insert(s[0], rest, key)
  }

  lemma SortByLength<T>(s: seq<T>, key: T -> Key)
    ensures |SortBy(s, key)| == |s|
  {
    assert |multiset(SortBy(s, key))| == |multiset(s)|;
  }
}

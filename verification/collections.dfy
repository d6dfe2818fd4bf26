/** List helpers the components share: `filter(v => v !== x)`, counting, duplicate-free lists. */
module Collections {

  predicate NoDups<T(==)>(s: seq<T>)
  {
    forall i, j :: 0 <= i < j < |s| ==> s[i] != s[j]
  }

  /** `s.filter(v => v !== x)` */
  function Without<T(==)>(s: seq<T>, x: T): (r: seq<T>)
    ensures x !in r
    ensures forall y :: y in r ==> y in s
    ensures forall y :: y in s && y != x ==> y in r
    ensures |r| <= |s|
    ensures x !in s ==> r == s
    ensures NoDups(s) ==> NoDups(r)
  {
    if |s| == 0 then []
    else
      var rest := Without(s[1..], x);
      assert s == [s[0]] + s[1..];
      if s[0] == x then rest
      else
        assert NoDups(s) ==> s[0] !in s[1..];
        [s[0]] + rest
  }

  /** `s.filter(p).length` */
  function Count<T>(s: seq<T>, p: T -> bool): (n: nat)
    ensures n <= |s|
    ensures n == |s| <==> forall i :: 0 <= i < |s| ==> p(s[i])
    ensures n == 0 <==> forall i :: 0 <= i < |s| ==> !p(s[i])
  {
    if |s| == 0 then 0
    else
      var rest := Count(s[1..], p);
      assert forall i :: 1 <= i < |s| ==> s[i] == s[1..][i - 1];
      (if p(s[0]) then 1 else 0) + rest
  }

  lemma {:induction false} CountAppend<T>(s: seq<T>, t: seq<T>, p: T -> bool)
    ensures Count(s + t, p) == Count(s, p) + Count(t, p)
    decreases |s|
  {
    if |s| > 0 {
      assert (s + t)[1..] == s[1..] + t;
      CountAppend(s[1..], t, p);
    } else {
      assert s + t == t;
    }
  }

  /** Concatenation regroups; stated on plain sequences so that callers need not unfold their own functions. */
  lemma AppendAssoc<T>(x: seq<T>, y: seq<T>, z: seq<T>)
    ensures x + (y + z) == (x + y) + z
  {
  }

  /** The positions whose element passes the test. */
  function Positions<T>(s: seq<T>, p: T -> bool): set<int>
  {
    set i | 0 <= i < |s| && p(s[i])
  }

  /** The count is the number of positions whose element passes the test. */
  lemma {:induction false} CountIsMatchingPositions<T>(s: seq<T>, p: T -> bool)
    ensures Count(s, p) == |Positions(s, p)|
    decreases |s|
  {
    if |s| > 0 {
      var init, last := s[..|s| - 1], s[|s| - 1];
      assert s == init + [last];
      CountAppend(init, [last], p);
      assert Count([last], p) == if p(last) then 1 else 0 by {
        assert [last][1..] == [];
      }
      CountIsMatchingPositions(init, p);
      if p(last) {
        assert Positions(s, p) == Positions(init, p) + {|s| - 1};
      } else {
        assert Positions(s, p) == Positions(init, p);
      }
    }
  }

  function Elements<T>(s: seq<T>): set<T>
  {
    set x | x in s
  }

  lemma {:induction false} ElementsCard<T>(s: seq<T>)
    ensures |Elements(s)| <= |s|
    ensures NoDups(s) ==> |Elements(s)| == |s|
    decreases |s|
  {
    if |s| > 0 {
      var last := s[|s| - 1];
      var init := s[..|s| - 1];
      assert Elements(s) == Elements(init) + {last};
      ElementsCard(init);
      if NoDups(s) {
        assert last !in init;
        assert last !in Elements(init);
      }
    }
  }

  lemma {:induction false} SubsetCard<T>(a: set<T>, b: set<T>)
    requires a <= b
    ensures |a| <= |b|
    ensures |a| == |b| ==> a == b
    decreases |a|
  {
    if a != {} {
      var x :| x in a;
      SubsetCard(a - {x}, b - {x});
      assert a == (a - {x}) + {x};
      assert b == (b - {x}) + {x};
    }
  }

  /** A duplicate-free list drawn from `options` is no longer than `options`, and as long only when it uses every option. */
  lemma SubListBound<T>(chosen: seq<T>, options: seq<T>)
    requires NoDups(chosen)
    requires forall x :: x in chosen ==> x in options
    ensures |chosen| <= |options|
    ensures NoDups(options) ==> (|chosen| == |options| <==> forall x :: x in options ==> x in chosen)
  {
    ElementsCard(chosen);
    ElementsCard(options);
    assert Elements(chosen) <= Elements(options);
    SubsetCard(Elements(chosen), Elements(options));
    if NoDups(options) {
      if |chosen| == |options| {
        assert forall x :: x in options ==> x in Elements(options);
      }
      if forall x :: x in options ==> x in chosen {
        assert Elements(chosen) == Elements(options);
      }
    }
  }

  /** Two tests no element passes together count at most the whole list between them. */
  lemma {:induction false} CountDisjoint<T>(s: seq<T>, p: T -> bool, q: T -> bool)
    requires forall i :: 0 <= i < |s| ==> !(p(s[i]) && q(s[i]))
    ensures Count(s, p) + Count(s, q) <= |s|
    decreases |s|
  {
    if |s| > 0 {
      assert forall i :: 0 <= i < |s[1..]| ==> s[1..][i] == s[i + 1];
      CountDisjoint(s[1..], p, q);
      assert Count(s, p) == (if p(s[0]) then 1 else 0) + Count(s[1..], p);
      assert Count(s, q) == (if q(s[0]) then 1 else 0) + Count(s[1..], q);
    }
  }
}

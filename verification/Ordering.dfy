/** Sorted sequences of epochs and of names, as `sort.Slice` and `sort.Strings` produce them. */
module Ordering {

  predicate NoDup<T(==)>(s: seq<T>) {
    forall i, j :: 0 <= i < j < |s| ==> s[i] != s[j]
  }

  function Elements<T>(s: seq<T>): set<T> {
    set x | x in s
  }

  /** The last n entries of s, or all of them when there are fewer. */
  function LastN<T>(s: seq<T>, n: nat): seq<T> {
    if |s| <= n then s else s[|s| - n..]
  }

  lemma {:induction false} NoDupCardinality<T>(s: seq<T>)
    requires NoDup(s)
    ensures |Elements(s)| == |s|
  {
    if s != [] {
      var front, last := s[..|s| - 1], s[|s| - 1];
      NoDupCardinality(front);
      assert s == front + [last];
      assert last !in Elements(front);
      assert Elements(s) == Elements(front) + {last};
    }
  }

  lemma SubsetCardinality<T>(a: set<T>, b: set<T>)
    requires a <= b
    ensures |a| <= |b|
  {
    assert b == a + (b - a);
  }

  lemma SubsetSame<T>(a: set<T>, b: set<T>)
    requires a <= b && |b| <= |a|
    ensures a == b
  {
    assert b == a + (b - a);
  }

  ghost function Pick<T>(s: set<T>): (x: T)
    requires s != {}
    ensures x in s
  {
    var x :| x in s;
    x
  }

  // ---- Epochs ------------------------------------------------------------

  lemma {:induction false} MaxExists(s: set<int>, y: int)
    requires y in s
    ensures exists m :: m in s && forall x | x in s :: x <= m
    decreases |s|
  {
    var rest := s - {y};
    assert s == rest + {y};
    if rest != {} {
      var z := Pick(rest);
      MaxExists(rest, z);
      var m :| m in rest && forall x | x in rest :: x <= m;
      var best := if m < y then y else m;
      assert best in s && forall x | x in s :: x <= best;
    }
  }

  ghost function MaxOf(s: set<int>): (m: int)
    requires s != {}
    ensures m in s && forall x | x in s :: x <= m
  {
    MaxExists(s, Pick(s));
    var m :| m in s && forall x | x in s :: x <= m;
    m
  }

  /** The elements of s in increasing order. */
  ghost function Ascending(s: set<int>): seq<int>
    decreases |s|
  {
    if s == {} then [] else
      var m := MaxOf(s);
      Ascending(s - {m}) + [m]
  }

  /** The n largest elements of s. */
  ghost function Newest(s: set<int>, n: nat): set<int>
    decreases |s|
  {
    if s == {} || n == 0 then {} else
      var m := MaxOf(s);
      Newest(s - {m}, n - 1) + {m}
  }

  lemma {:induction false} NewestSubset(s: set<int>, n: nat)
    ensures Newest(s, n) <= s
    ensures |Newest(s, n)| == if |s| <= n then |s| else n
    decreases |s|
  {
    if s != {} && n != 0 {
      NewestSubset(s - {MaxOf(s)}, n - 1);
    }
  }

  /** Whatever lies above some bound survives when there is room for all of it. */
  lemma {:induction false} NewestKeepsTop(s: set<int>, n: nat, bound: int)
    requires |set e | e in s && bound <= e| <= n
    ensures forall e | e in s && bound <= e :: e in Newest(s, n)
    decreases |s|
  {
    var top := set e | e in s && bound <= e;
    if top != {} {
      assert s != {};
      var m := MaxOf(s);
      var e :| e in top;
      assert m in top;
      assert (set x | x in s - {m} && bound <= x) == top - {m};
      NewestKeepsTop(s - {m}, n - 1, bound);
    }
  }

  lemma {:induction false} AscendingElements(s: set<int>)
    ensures |Ascending(s)| == |s|
    ensures forall x :: x in Ascending(s) <==> x in s
    decreases |s|
  {
    if s != {} {
      AscendingElements(s - {MaxOf(s)});
    }
  }

  lemma {:induction false} AscendingSorted(s: set<int>)
    ensures forall i, j :: 0 <= i < j < |Ascending(s)| ==> Ascending(s)[i] < Ascending(s)[j]
    decreases |s|
  {
    if s != {} {
      var m := MaxOf(s);
      var front := Ascending(s - {m});
      AscendingSorted(s - {m});
      AscendingElements(s - {m});
      forall i | 0 <= i < |front|
        ensures front[i] < m
      {
        assert front[i] in front;
      }
    }
  }

  lemma AscendingAppend(s: set<int>, m: int)
    requires forall x | x in s :: x < m
    ensures Ascending(s + {m}) == Ascending(s) + [m]
  {
    assert MaxOf(s + {m}) == m;
    assert s + {m} - {m} == s;
  }

  lemma LastNAppend<T>(s: seq<T>, x: T, n: nat)
    requires n > 0
    ensures LastN(s + [x], n) == LastN(s, n - 1) + [x]
  {
  }

  /** Keeping the n newest epochs keeps the last n of the increasing list. */
  lemma {:induction false} NewestIsSuffix(s: set<int>, n: nat)
    ensures Ascending(Newest(s, n)) == LastN(Ascending(s), n)
    decreases |s|
  {
    if s != {} && n != 0 {
      var m := MaxOf(s);
      NewestIsSuffix(s - {m}, n - 1);
      NewestSubset(s - {m}, n - 1);
      AscendingAppend(Newest(s - {m}, n - 1), m);
      LastNAppend(Ascending(s - {m}), m, n);
      assert Newest(s, n) == Newest(s - {m}, n - 1) + {m};
    }
  }

  predicate Descending(s: seq<int>) {
    forall i, j :: 0 <= i < j < |s| ==> s[i] > s[j]
  }

  /** Inserts e before the first smaller entry. */
  function InsertDescending(s: seq<int>, e: int): (r: seq<int>)
    requires Descending(s) && e !in s
    ensures Descending(r) && |r| == |s| + 1
    ensures forall x :: x in r <==> x == e || x in s
  {
    if s == [] then [e]
    else if e > s[0] then [e] + s
    else
      assert s == [s[0]] + s[1..];
      var t := InsertDescending(s[1..], e);
      assert forall i | 0 <= i < |t| :: t[i] in t;
      [s[0]] + t
  }

  lemma DescendingFirst(s: seq<int>, all: set<int>)
    requires Descending(s) && s != []
    requires forall x :: x in s <==> x in all
    ensures s[0] in all && MaxOf(all) == s[0]
    ensures forall x :: x in s[1..] <==> x in all - {s[0]}
  {
    assert s[0] in s;
    var m := MaxOf(all);
    var i :| 0 <= i < |s| && s[i] == m;
  }

  /** The first n entries of a descending list are the n newest. */
  lemma {:induction false} DescendingNewest(s: seq<int>, all: set<int>, n: nat)
    requires Descending(s) && n <= |s|
    requires forall x :: x in s <==> x in all
    ensures forall x :: x in Newest(all, n) <==> x in s[..n]
  {
    if n > 0 {
      DescendingFirst(s, all);
      var t := s[1..];
      DescendingNewest(t, all - {s[0]}, n - 1);
      assert s[..n] == [s[0]] + t[..n - 1];
    }
  }

  // ---- Names -------------------------------------------------------------

  /** The byte-wise order of Go strings. */
  predicate Leq(a: string, b: string) {
    a == "" || (b != "" && (a[0] < b[0] || (a[0] == b[0] && Leq(a[1..], b[1..]))))
  }

  lemma LeqTotal(a: string, b: string)
    ensures Leq(a, b) || Leq(b, a)
  {
    if a != "" && b != "" && a[0] == b[0] {
      LeqTotal(a[1..], b[1..]);
    }
  }

  lemma LeqTransitive(a: string, b: string, c: string)
    requires Leq(a, b) && Leq(b, c)
    ensures Leq(a, c)
  {
    if a != "" && b != "" && c != "" && a[0] == b[0] == c[0] {
      LeqTransitive(a[1..], b[1..], c[1..]);
    }
  }

  lemma LeqAntisymmetric(a: string, b: string)
    requires Leq(a, b) && Leq(b, a)
    ensures a == b
  {
    if a != "" && b != "" {
      assert a == [a[0]] + a[1..] && b == [b[0]] + b[1..];
      LeqAntisymmetric(a[1..], b[1..]);
    }
  }

  /** The texts first differ at i, where a has the smaller character. */
  predicate SmallerAt(a: string, b: string, i: nat) {
    i < |a| && i < |b| && a[..i] == b[..i] && a[i] < b[i]
  }

  lemma SmallerLater(a: string, b: string, i: nat)
    requires a != "" && b != ""
    ensures SmallerAt(a, b, i + 1) <==> a[0] == b[0] && SmallerAt(a[1..], b[1..], i)
  {
    if i + 1 < |a| && i + 1 < |b| {
      assert a[..i + 1] == [a[0]] + a[1..][..i] && b[..i + 1] == [b[0]] + b[1..][..i];
      assert a[1..][..i] == a[..i + 1][1..] && b[1..][..i] == b[..i + 1][1..];
    }
  }

  /** The order is that of a dictionary: a prefix comes first, and else the first difference decides. */
  lemma {:induction false} LeqIs(a: string, b: string)
    ensures Leq(a, b) <==> a <= b || exists i: nat :: SmallerAt(a, b, i)
  {
    if a != "" && b != "" {
      LeqIs(a[1..], b[1..]);
      assert a == [a[0]] + a[1..] && b == [b[0]] + b[1..];
      assert SmallerAt(a, b, 0) <==> a[0] < b[0];
      if i: nat :| SmallerAt(a[1..], b[1..], i) { SmallerLater(a, b, i); }
      if i: nat :| SmallerAt(a, b, i) && i > 0 { SmallerLater(a, b, i - 1); }
    }
  }

  predicate Sorted(s: seq<string>) {
    forall i, j :: 0 <= i < j < |s| ==> Leq(s[i], s[j])
  }

  lemma SortedCons(x: string, s: seq<string>)
    requires Sorted(s) && (s != [] ==> Leq(x, s[0]))
    ensures Sorted([x] + s)
  {
    forall j | 0 <= j < |s|
      ensures Leq(x, s[j])
    {
      if j > 0 { LeqTransitive(x, s[0], s[j]); }
    }
  }

  function InsertName(s: seq<string>, x: string): (r: seq<string>)
    requires Sorted(s)
    ensures Sorted(r) && multiset(r) == multiset(s) + multiset{x}
    ensures r != [] && (r[0] == x || (s != [] && r[0] == s[0]))
  {
    LeqTotal(x, if s == [] then x else s[0]);
    if s == [] || Leq(x, s[0]) then
      SortedCons(x, s);
      [x] + s
    else
      var t := InsertName(s[1..], x);
      SortedCons(s[0], t);
      assert s == [s[0]] + s[1..];
      [s[0]] + t
  }

  function SortNames(s: seq<string>): (r: seq<string>)
    ensures Sorted(r) && multiset(r) == multiset(s)
  {
    if s == [] then [] else
      var t := SortNames(s[1..]);
      assert s == [s[0]] + s[1..];
      InsertName(t, s[0])
  }

  lemma NoDupMultiset<T>(s: seq<T>, r: seq<T>)
    requires NoDup(s) && multiset(s) == multiset(r)
    ensures NoDup(r) && |r| == |s| && Elements(r) == Elements(s)
  {
    assert |multiset(s)| == |s| && |multiset(r)| == |r|;
    forall x
      ensures x in s <==> x in r
    {
      assert x in multiset(s) <==> x in multiset(r);
    }
    assert Elements(r) == Elements(s);
    NoDupCardinality(s);
    if i, j :| 0 <= i < j < |r| && r[i] == r[j] { RepeatShrinks(r, i, j); }
  }

  /** A sequence with a repeated entry has fewer elements than entries. */
  lemma RepeatShrinks<T>(r: seq<T>, i: nat, j: nat)
    requires i < j < |r| && r[i] == r[j]
    ensures |Elements(r)| < |r|
  {
    var rest := r[..j] + r[j + 1..];
    assert Elements(rest) == Elements(r) by {
      assert rest[i] == r[j];
      forall x | x in r
        ensures x in rest
      {
        var k :| 0 <= k < |r| && r[k] == x;
        assert rest[if k < j then k else if k == j then i else k - 1] == x;
      }
    }
    ElementsBound(rest);
  }

  lemma ElementsBound<T>(s: seq<T>)
    ensures |Elements(s)| <= |s|
  {
    if s != [] {
      ElementsBound(s[1..]);
      assert Elements(s) == {s[0]} + Elements(s[1..]);
    }
  }

  /** Collects the keys of a map or set in some order and sorts them. */
  method SortedNames(names: set<string>) returns (r: seq<string>)
    ensures Sorted(r) && NoDup(r) && Elements(r) == names
  {
    var rest := names;
    var out: seq<string> := [];
    while rest != {}
      invariant rest <= names && Elements(out) == names - rest && NoDup(out)
      decreases |rest|
    {
      var x :| x in rest;
      assert x !in Elements(out);
      assert Elements(out + [x]) == Elements(out) + {x};
      out := out + [x];
      rest := rest - {x};
    }
    r := SortNames(out);
    NoDupMultiset(out, r);
  }
}

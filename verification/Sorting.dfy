/** Stable sorting, as the source gets it from its standard library. */
module Sorting {
  ghost predicate TotalPreorder<T(!new)>(leq: (T, T) -> bool) {
    && (forall a, b :: leq(a, b) || leq(b, a))
    && (forall a, b, c :: leq(a, b) && leq(b, c) ==> leq(a, c))
  }

  ghost predicate SortedBy<T>(leq: (T, T) -> bool, s: seq<T>) {
    forall i, j | 0 <= i < j < |s| :: leq(s[i], s[j])
  }

  ghost predicate NoDup<T>(s: seq<T>) {
    forall i, j | 0 <= i < j < |s| :: s[i] != s[j]
  }

  /** Puts `x` before the first element it may precede: equal elements keep their order. */
  function Insert<T>(leq: (T, T) -> bool, x: T, s: seq<T>): (r: seq<T>)
    ensures multiset(r) == multiset(s) + multiset{x}
  {
    if s == [] || leq(x, s[0]) then
      [x] + s
    else
      assert s == [s[0]] + s[1..];
      [s[0]] + Insert(leq, x, s[1..])
  }

  function SortBy<T>(leq: (T, T) -> bool, s: seq<T>): (r: seq<T>)
    ensures multiset(r) == multiset(s)
  {
    if s == [] then []
    else
      assert s == [s[0]] + s[1..];
      Insert(leq, s[0], SortBy(leq, s[1..]))
  }

  lemma {:induction false} InsertSorted<T(!new)>(leq: (T, T) -> bool, x: T, s: seq<T>)
    requires TotalPreorder(leq) && SortedBy(leq, s)
    ensures SortedBy(leq, Insert(leq, x, s))
  {
    if s != [] && !leq(x, s[0]) {
      InsertSorted(leq, x, s[1..]);
      var rest := Insert(leq, x, s[1..]);
      forall j | 0 <= j < |rest| ensures leq(s[0], rest[j]) {
        assert rest[j] in multiset(rest);
        assert rest[j] == x || rest[j] in s[1..];
      }
    } else if s != [] {
      forall j | 0 <= j < |s| ensures leq(x, s[j]) {
        assert j == 0 || leq(s[0], s[j]);
      }
    }
  }

  lemma {:induction false} SortBySorted<T(!new)>(leq: (T, T) -> bool, s: seq<T>)
    requires TotalPreorder(leq)
    ensures SortedBy(leq, SortBy(leq, s))
  {
    if s != [] {
      SortBySorted(leq, s[1..]);
      InsertSorted(leq, s[0], SortBy(leq, s[1..]));
    }
  }

  lemma SameElements<T>(a: seq<T>, b: seq<T>)
    requires multiset(a) == multiset(b)
    ensures |a| == |b|
    ensures forall x :: x in a <==> x in b
  {
    assert |multiset(a)| == |multiset(b)|;
    forall x ensures x in a <==> x in b {
      assert x in a <==> x in multiset(a);
      assert x in b <==> x in multiset(b);
    }
  }

  lemma {:induction false} NoDupCount<T>(s: seq<T>)
    ensures NoDup(s) <==> forall x :: multiset(s)[x] <= 1
  {
    if s != [] {
      var t := s[..|s| - 1];
      var y := s[|s| - 1];
      assert s == t + [y];
      NoDupCount(t);
      if NoDup(s) {
        assert y !in t;
      } else if NoDup(t) {
        assert y in t;
        assert multiset(s)[y] == multiset(t)[y] + 1;
      } else {
        var x :| multiset(t)[x] > 1;
        assert multiset(s)[x] > 1;
      }
    }
  }

  lemma NoDupPermutation<T>(a: seq<T>, b: seq<T>)
    requires multiset(a) == multiset(b) && NoDup(a)
    ensures NoDup(b)
  {
    NoDupCount(a);
    NoDupCount(b);
  }

  lemma {:induction false} NoDupSize<T>(s: seq<T>, elements: set<T>)
    requires NoDup(s) && forall x :: x in s <==> x in elements
    ensures |s| == |elements|
  {
    if s == [] {
      assert elements == {};
    } else {
      var y := s[|s| - 1];
      var t := s[..|s| - 1];
      assert s == t + [y];
      assert y !in t;
      NoDupSize(t, elements - {y});
    }
  }

  /** Elements that the order does not tell apart are equal. */
  ghost predicate ToldApart<T>(leq: (T, T) -> bool, s: seq<T>) {
    forall x, y | x in s && y in s && leq(x, y) && leq(y, x) :: x == y
  }

  lemma SortedHeads<T(!new)>(leq: (T, T) -> bool, a: seq<T>, b: seq<T>)
    requires TotalPreorder(leq) && SortedBy(leq, a) && SortedBy(leq, b) && multiset(a) == multiset(b) && ToldApart(leq, a) && a != []
    ensures b != [] && a[0] == b[0]
  {
    SameElements(a, b);
    assert a[0] in b && b[0] in a;
    var i :| 0 <= i < |b| && b[i] == a[0];
    var j :| 0 <= j < |a| && a[j] == b[0];
    assert leq(b[0], b[i]) && leq(a[0], a[j]);
  }

  lemma TailMultiset<T>(s: seq<T>)
    requires s != []
    ensures multiset(s[1..]) == multiset(s) - multiset{s[0]}
  {
    assert s == [s[0]] + s[1..];
  }

  /** Two sorted arrangements of elements the order tells apart are the same. */
  lemma {:induction false} SortedIsUnique<T(!new)>(leq: (T, T) -> bool, a: seq<T>, b: seq<T>)
    requires TotalPreorder(leq) && SortedBy(leq, a) && SortedBy(leq, b) && multiset(a) == multiset(b) && ToldApart(leq, a)
    ensures a == b
  {
    SameElements(a, b);
    if a != [] {
      SortedHeads(leq, a, b);
      TailMultiset(a);
      TailMultiset(b);
      SortedIsUnique(leq, a[1..], b[1..]);
      assert a == [a[0]] + a[1..] && b == [b[0]] + b[1..];
    }
  }

  /** A sorted list is left as it is. */
  lemma {:induction false} SortByKeepsSorted<T>(leq: (T, T) -> bool, s: seq<T>)
    requires SortedBy(leq, s)
    ensures SortBy(leq, s) == s
  {
    if s != [] {
      SortByKeepsSorted(leq, s[1..]);
      assert s == [s[0]] + s[1..];
    }
  }

  /** Two different elements that the order does not tell apart keep the order they came in. */
  lemma {:induction false} InsertOrderShows<T(!new)>(leq: (T, T) -> bool, x: T, y: T, s: seq<T>)
    requires TotalPreorder(leq) && leq(x, y) && leq(y, x) && x != y
    ensures Insert(leq, x, Insert(leq, y, s)) != Insert(leq, y, Insert(leq, x, s))
  {
    if s != [] && !leq(x, s[0]) {
      assert !leq(y, s[0]);
      InsertOrderShows(leq, x, y, s[1..]);
      var xy, yx := Insert(leq, x, Insert(leq, y, s)), Insert(leq, y, Insert(leq, x, s));
      assert xy[1..] != yx[1..];
    } else {
      assert Insert(leq, x, Insert(leq, y, s))[0] == x;
      assert Insert(leq, y, Insert(leq, x, s))[0] == y;
    }
  }

  ghost predicate IgnoresOrder<T(!new)>(leq: (T, T) -> bool, s: seq<T>) {
    forall t | multiset(t) == multiset(s) :: SortBy(leq, t) == SortBy(leq, s)
  }

  lemma WithoutOne<T>(s: seq<T>, x: T) returns (rest: seq<T>)
    requires x in s
    ensures multiset(s) == multiset(rest) + multiset{x}
    ensures forall y :: y in s && y != x ==> y in rest
  {
    var i :| 0 <= i < |s| && s[i] == x;
    rest := s[..i] + s[i + 1..];
    assert s == s[..i] + [x] + s[i + 1..];
  }

  lemma {:induction false} OrderShows<T(!new)>(leq: (T, T) -> bool, s: seq<T>) returns (t: seq<T>, t': seq<T>)
    requires TotalPreorder(leq) && !ToldApart(leq, s)
    ensures multiset(t) == multiset(t') == multiset(s)
    ensures SortBy(leq, t) != SortBy(leq, t')
  {
    var x, y :| x in s && y in s && leq(x, y) && leq(y, x) && x != y;
    var one := WithoutOne(s, x);
    var rest := WithoutOne(one, y);
    t, t' := [x] + ([y] + rest), [y] + ([x] + rest);
    SortTwo(leq, x, y, rest);
    SortTwo(leq, y, x, rest);
    InsertOrderShows(leq, x, y, SortBy(leq, rest));
  }

  lemma SortTwo<T>(leq: (T, T) -> bool, x: T, y: T, rest: seq<T>)
    ensures SortBy(leq, [x] + ([y] + rest)) == Insert(leq, x, Insert(leq, y, SortBy(leq, rest)))
  {
    assert ([x] + ([y] + rest))[1..] == [y] + rest;
    assert ([y] + rest)[1..] == rest;
  }

  /** Sorting gives every arrangement of `s` the same result exactly when the order tells its elements apart. */
  lemma SortIgnoresOrderExactly<T(!new)>(leq: (T, T) -> bool, s: seq<T>)
    requires TotalPreorder(leq)
    ensures ToldApart(leq, s) <==> IgnoresOrder(leq, s)
  {
    if ToldApart(leq, s) {
      forall t | multiset(t) == multiset(s) ensures SortBy(leq, t) == SortBy(leq, s) {
        SortBySorted(leq, s);
        SortBySorted(leq, t);
        SameElements(s, SortBy(leq, s));
        SortedIsUnique(leq, SortBy(leq, s), SortBy(leq, t));
      }
    } else {
      var t, t' := OrderShows(leq, s);
      assert SortBy(leq, t) != SortBy(leq, s) || SortBy(leq, t') != SortBy(leq, s);
    }
  }

  lemma CutInThree<T>(s: seq<T>, i: nat, j: nat)
    requires i <= j <= |s|
    ensures multiset(s) == multiset(s[..i]) + multiset(s[i..j]) + multiset(s[j..])
  {
    assert s == s[..i] + s[i..j] + s[j..];
  }

  /** What the order puts strictly before `u`, and what it does not put strictly after it. */
  ghost function Sooner<T>(leq: (T, T) -> bool, s: set<T>, u: T): set<T> {
    set v | v in s && !leq(u, v)
  }

  ghost function NoLater<T>(leq: (T, T) -> bool, s: set<T>, u: T): set<T> {
    set v | v in s && leq(v, u)
  }

  /** `r` lists `s` in this order, each element once. */
  ghost predicate Ranks<T(!new)>(leq: (T, T) -> bool, s: set<T>, r: seq<T>) {
    SortedBy(leq, r) && NoDup(r) && forall x :: x in r <==> x in s
  }

  lemma PrefixSize<T>(s: seq<T>, n: nat)
    requires NoDup(s) && n <= |s|
    ensures |set x | x in s[..n]| == n
  {
    NoDupSize(s[..n], set x | x in s[..n]);
  }

  /** Where an element of a ranking can stand. */
  lemma RankBounds<T(!new)>(leq: (T, T) -> bool, s: set<T>, r: seq<T>, i: nat)
    requires TotalPreorder(leq) && Ranks(leq, s, r) && i < |r|
    ensures |Sooner(leq, s, r[i])| <= i < |NoLater(leq, s, r[i])|
  {
    forall v | v in Sooner(leq, s, r[i]) ensures v in r[..i] {
      var j :| 0 <= j < |r| && r[j] == v;
      assert j < i;
    }
    forall v | v in r[..i + 1] ensures v in s && leq(v, r[i]) {
      var j :| 0 <= j < i + 1 && r[..i + 1][j] == v;
      assert j < i ==> leq(r[j], r[i]);
    }
    var upTo := r[..i + 1];
    PrefixSize(r, i);
    PrefixSize(r, i + 1);
    SubsetSize(Sooner(leq, s, r[i]), set x | x in r[..i]);
    SubsetSize((set x | x in upTo), NoLater(leq, s, r[i]));
  }

  /** Whoever stands where `u` could stand is not told apart from `u` by the order. */
  lemma SameStanding<T(!new)>(leq: (T, T) -> bool, s: set<T>, r: seq<T>, u: T, p: nat)
    requires TotalPreorder(leq) && Ranks(leq, s, r) && u in s && p < |r|
    requires |Sooner(leq, s, u)| <= p < |NoLater(leq, s, u)|
    ensures leq(u, r[p]) && leq(r[p], u)
  {
    if !leq(u, r[p]) {
      forall v | v in r[..p + 1] ensures v in s && !leq(u, v) {
        var j :| 0 <= j < p + 1 && r[..p + 1][j] == v;
        assert j < p ==> leq(r[j], r[p]);
      }
      var upTo := r[..p + 1];
      PrefixSize(r, p + 1);
      SubsetSize((set x | x in upTo), Sooner(leq, s, u));
    } else if !leq(r[p], u) {
      forall v | v in NoLater(leq, s, u) ensures v in r[..p] {
        var j :| 0 <= j < |r| && r[j] == v;
        assert j < p;
      }
      PrefixSize(r, p);
      SubsetSize(NoLater(leq, s, u), set x | x in r[..p]);
    }
  }

  function Swapped<T>(r: seq<T>, p: nat, q: nat): (t: seq<T>)
    requires p < |r| && q < |r|
    ensures |t| == |r| && multiset(t) == multiset(r)
  {
    r[p := r[q]][q := r[p]]
  }

  /** Every place an element could have, it has in some ranking. */
  lemma RankReached<T(!new)>(leq: (T, T) -> bool, s: set<T>, r: seq<T>, u: T, p: nat) returns (t: seq<T>)
    requires TotalPreorder(leq) && Ranks(leq, s, r) && u in s && p < |r|
    requires |Sooner(leq, s, u)| <= p < |NoLater(leq, s, u)|
    ensures Ranks(leq, s, t) && |t| == |r| && t[p] == u
  {
    SameStanding(leq, s, r, u, p);
    var q :| 0 <= q < |r| && r[q] == u;
    t := Swapped(r, p, q);
    forall i, j | 0 <= i < j < |t| ensures leq(t[i], t[j]) {
      assert leq(t[i], r[i]) && leq(r[i], r[j]) && leq(r[j], t[j]);
      assert leq(t[i], r[j]);
    }
    SameElements(t, r);
    NoDupPermutation(r, t);
  }

  /** Every finite set can be ranked. */
  lemma RankingExists<T(!new)>(leq: (T, T) -> bool, s: set<T>) returns (r: seq<T>)
    requires TotalPreorder(leq)
    ensures Ranks(leq, s, r) && |r| == |s|
  {
    var l := Listed(s);
    r := SortBy(leq, l);
    SortBySorted(leq, l);
    SameElements(r, l);
    NoDupPermutation(l, r);
    NoDupSize(r, s);
  }

  lemma {:induction false} Listed<T>(s: set<T>) returns (l: seq<T>)
    ensures NoDup(l) && forall x :: x in l <==> x in s
  {
    if s == {} {
      l := [];
    } else {
      var y :| y in s;
      var rest := Listed(s - {y});
      l := rest + [y];
    }
  }

  lemma {:induction false} SubsetSize<T>(a: set<T>, b: set<T>)
    requires a <= b
    ensures |a| <= |b| && (|a| == |b| ==> a == b)
  {
    if a != {} {
      var x :| x in a;
      SubsetSize(a - {x}, b - {x});
    }
  }

  lemma JoinNoDup<T(!new)>(a: seq<T>, b: seq<T>)
    requires NoDup(a) && NoDup(b) && forall x :: x in a ==> x !in b
    ensures NoDup(a + b) && forall x :: x in a + b <==> x in a || x in b
  {
    forall i, j | 0 <= i < j < |a + b| ensures (a + b)[i] != (a + b)[j] {
      if i < |a| <= j {
        assert a[i] in a && b[j - |a|] in b;
      }
    }
  }

  /** Where in a slice an element stands. */
  lemma SliceHas<T>(s: seq<T>, i: nat, k: nat, j: nat)
    requires i <= k < j <= |s|
    ensures s[i..j][k - i] == s[k] && s[k] in s[i..j]
  {
  }

  lemma CountSnoc<T>(front: seq<T>, last: T, x: T)
    ensures x in front + [last] <==> x in front || x == last
    ensures multiset(front + [last])[x] == multiset(front)[x] + if x == last then 1 else 0
  {
  }

  lemma InSlice<T>(s: seq<T>, i: nat, j: nat, x: T) returns (k: nat)
    requires i <= j <= |s| && x in s[i..j]
    ensures i <= k < j && s[k] == x
  {
    var a :| 0 <= a < j - i && s[i..j][a] == x;
    k := i + a;
  }
}

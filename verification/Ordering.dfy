/** The order of path strings (the byte order of UTF-8 is the code point order),
    the ordered iteration of a set of paths, and a stable sort. */
module Ordering {

  predicate LexLe(a: string, b: string) {
    a == [] || (b != [] && (a[0] < b[0] || (a[0] == b[0] && LexLe(a[1..], b[1..]))))
  }

  predicate LexLess(a: string, b: string) {
    a != b && LexLe(a, b)
  }

  /** The first place where they differ is `k`, and `a` has the lower character there. */
  predicate LowerAt(a: string, b: string, k: nat) {
    k < |a| && k < |b| && a[..k] == b[..k] && a[k] < b[k]
  }

  lemma LowerAtStep(a: string, b: string, k: nat)
    requires a != [] && b != [] && a[0] == b[0]
    ensures LowerAt(a, b, k + 1) <==> LowerAt(a[1..], b[1..], k)
  {
    if k < |a| - 1 && k < |b| - 1 {
      assert a[..k + 1] == [a[0]] + a[1..][..k] && b[..k + 1] == [b[0]] + b[1..][..k];
    }
  }

  /** A prefix comes first, and else the order is that of the first characters that differ. */
  lemma {:induction false} LexExact(a: string, b: string)
    ensures LexLe(a, b) <==> a <= b || exists k: nat :: LowerAt(a, b, k)
  {
    if a == [] || b == [] {
    } else if a[0] == b[0] {
      LexExact(a[1..], b[1..]);
      assert a <= b <==> a[1..] <= b[1..];
      hide LowerAt, LexLe;
      if k: nat :| LowerAt(a, b, k) {
        LowerAtNotEqual(a, b, k);
        LowerAtStep(a, b, k - 1);
      }
      if k: nat :| LowerAt(a[1..], b[1..], k) {
        LowerAtStep(a, b, k);
      }
    } else {
      assert LowerAt(a, b, 0) <==> a[0] < b[0];
    }
  }

  lemma LowerAtNotEqual(a: string, b: string, k: nat)
    requires LowerAt(a, b, k) && a[0] == b[0]
    ensures k > 0
  {
  }

  lemma LexTotal(a: string, b: string)
    ensures LexLe(a, b) || LexLe(b, a)
  {
  }

  lemma {:induction false} LexAntisymmetric(a: string, b: string)
    requires LexLe(a, b) && LexLe(b, a)
    ensures a == b
  {
    if a != [] && b != [] {
      LexAntisymmetric(a[1..], b[1..]);
      assert a == [a[0]] + a[1..] && b == [b[0]] + b[1..];
    }
  }

  lemma {:induction false} LexTransitive(a: string, b: string, c: string)
    requires LexLe(a, b) && LexLe(b, c)
    ensures LexLe(a, c)
  {
    if a != [] && a[0] == b[0] == c[0] {
      LexTransitive(a[1..], b[1..], c[1..]);
    }
  }

  lemma {:induction false} LexReflexive(a: string)
    ensures LexLe(a, a)
  {
    if a != [] {
      LexReflexive(a[1..]);
    }
  }

  predicate IsLeast(m: string, s: set<string>) {
    m in s && forall q :: q in s ==> LexLe(m, q)
  }

  lemma {:induction false} LeastExists(s: set<string>)
    requires s != {}
    ensures exists m :: IsLeast(m, s)
  {
    var x :| x in s;
    if s == {x} {
      LexReflexive(x);
      assert IsLeast(x, s);
    } else {
      var rest := s - {x};
      LeastExists(rest);
      var m :| IsLeast(m, rest);
      LexTotal(x, m);
      LexReflexive(x);
      if LexLe(x, m) {
        forall q | q in s ensures LexLe(x, q) {
          if q != x { LexTransitive(x, m, q); }
        }
        assert IsLeast(x, s);
      } else {
        assert IsLeast(m, s);
      }
    }
  }

  lemma LeastUnique(s: set<string>)
    ensures forall m, n :: IsLeast(m, s) && IsLeast(n, s) ==> m == n
  {
    forall m, n | IsLeast(m, s) && IsLeast(n, s) ensures m == n {
      LexAntisymmetric(m, n);
    }
  }

  function Least(s: set<string>): (m: string)
    requires s != {}
    ensures IsLeast(m, s)
  {
    LeastExists(s);
    LeastUnique(s);
    var m :| m in s && IsLeast(m, s);
    m
  }

  predicate StrictlyIncreasing(s: seq<string>) {
    forall i, j :: 0 <= i < j < |s| ==> LexLess(s[i], s[j])
  }

  /** The iteration order of an ordered set of paths. */
  function Sorted(s: set<string>): (r: seq<string>)
    ensures |r| == |s|
    ensures forall p :: p in r <==> p in s
    ensures StrictlyIncreasing(r)
  {
    if s == {} then [] else
      var m := Least(s);
      var rest := Sorted(s - {m});
      [m] + rest
  }

  ghost predicate TotalPreorder<T(!new)>(le: (T, T) -> bool) {
    (forall a, b :: le(a, b) || le(b, a)) &&
    (forall a, b, c :: le(a, b) && le(b, c) ==> le(a, c))
  }

  ghost predicate SortedBy<T>(le: (T, T) -> bool, s: seq<T>) {
    forall i, j :: 0 <= i < j < |s| ==> le(s[i], s[j])
  }

  function Insert<T>(le: (T, T) -> bool, x: T, s: seq<T>): (r: seq<T>)
  {
    if s == [] || le(x, s[0]) then [x] + s else [s[0]] + Insert(le, x, s[1..])
  }

  function StableSort<T>(le: (T, T) -> bool, s: seq<T>): (r: seq<T>) {
    if s == [] then [] else Insert(le, s[0], StableSort(le, s[1..]))
  }

  /** The elements of `s` that `le` does not distinguish from `x`, in order. */
  function TiedWith<T>(le: (T, T) -> bool, x: T, s: seq<T>): seq<T> {
    if s == [] then []
    else if le(x, s[0]) && le(s[0], x) then [s[0]] + TiedWith(le, x, s[1..])
    else TiedWith(le, x, s[1..])
  }

  lemma {:induction false} InsertPermutes<T>(le: (T, T) -> bool, x: T, s: seq<T>)
    ensures multiset(Insert(le, x, s)) == multiset{x} + multiset(s)
  {
    if s != [] && !le(x, s[0]) {
      InsertPermutes(le, x, s[1..]);
      assert s == [s[0]] + s[1..];
    }
  }

  lemma {:induction false} InsertSorts<T(!new)>(le: (T, T) -> bool, x: T, s: seq<T>)
    requires TotalPreorder(le) && SortedBy(le, s)
    ensures SortedBy(le, Insert(le, x, s))
  {
    if s != [] && !le(x, s[0]) {
      var r := Insert(le, x, s[1..]);
      InsertSorts(le, x, s[1..]);
      InsertPermutes(le, x, s[1..]);
      forall i | 0 <= i < |r| ensures le(s[0], r[i]) {
        assert r[i] in multiset(r);
      }
    }
  }

  lemma {:induction false} InsertIsStable<T(!new)>(le: (T, T) -> bool, x: T, s: seq<T>, y: T)
    requires TotalPreorder(le)
    ensures TiedWith(le, y, Insert(le, x, s)) == TiedWith(le, y, [x] + s)
  {
    assert ([x] + s)[1..] == s;
    if s != [] && !le(x, s[0]) {
      InsertIsStable(le, x, s[1..], y);
      assert ([x] + s[1..])[1..] == s[1..];
      assert ([s[0]] + Insert(le, x, s[1..]))[1..] == Insert(le, x, s[1..]);
    }
  }

  lemma {:induction false} StableSortFacts<T(!new)>(le: (T, T) -> bool, s: seq<T>)
    requires TotalPreorder(le)
    ensures multiset(StableSort(le, s)) == multiset(s)
    ensures SortedBy(le, StableSort(le, s))
  {
    if s != [] {
      StableSortFacts(le, s[1..]);
      InsertPermutes(le, s[0], StableSort(le, s[1..]));
      InsertSorts(le, s[0], StableSort(le, s[1..]));
      assert s == [s[0]] + s[1..];
    }
  }

  lemma {:induction false} SortIsStable<T(!new)>(le: (T, T) -> bool, s: seq<T>, y: T)
    requires TotalPreorder(le)
    ensures TiedWith(le, y, StableSort(le, s)) == TiedWith(le, y, s)
  {
    if s != [] {
      var rest := StableSort(le, s[1..]);
      SortIsStable(le, s[1..], y);
      InsertIsStable(le, s[0], rest, y);
      assert ([s[0]] + rest)[1..] == rest;
    }
  }
}

/** Facts about finite sets that several components use. */
module Sets {
  lemma Pick<T>(s: set<T>) returns (e: T)
    requires s != {}
    ensures e in s
  {
    e :| e in s;
  }

  /** A non-empty finite set of integers has a least element. */
  lemma {:induction false} Least(s: set<int>) returns (m: int)
    requires s != {}
    ensures m in s && forall x :: x in s ==> m <= x
  {
    var e := Pick(s);
    var rest := s - {e};
    assert forall x :: x in s ==> x == e || x in rest;
    m := e;
    if rest != {} {
      var least := Least(rest);
      if least < e {
        m := least;
      }
    }
  }

  ghost predicate Distinct<T>(s: seq<T>) {
    forall i, j :: 0 <= i < j < |s| ==> s[i] != s[j]
  }

  lemma DistinctJoin<T>(a: seq<T>, b: seq<T>)
    requires Distinct(a) && Distinct(b)
    requires forall x :: x in a ==> x !in b
    ensures Distinct(a + b)
  {
    forall i, j | 0 <= i < j < |a + b|
      ensures (a + b)[i] != (a + b)[j]
    {
      if i < |a| <= j {
        assert a[i] in a && b[j - |a|] in b;
      }
    }
  }

  function Elements<T>(s: seq<T>): set<T> {
    set x | x in s
  }

  lemma ElementsSnoc<T>(s: seq<T>, e: T)
    ensures Elements(s + [e]) == Elements(s) + {e}
  {
  }

  lemma {:induction false} DistinctSize<T>(s: seq<T>)
    requires Distinct(s)
    ensures |Elements(s)| == |s|
  {
    if s != [] {
      var rest, last := s[..|s| - 1], s[|s| - 1];
      DistinctSize(rest);
      assert Elements(s) == Elements(rest) + {last};
    }
  }

  /** Subset and same size: the same set. */
  lemma SubsetOfSameSize<T>(a: set<T>, b: set<T>)
    requires a <= b && |a| >= |b|
    ensures a == b
  {
    assert |b - a| == |b| - |a|;
  }

  lemma SubsetSize<T>(a: set<T>, b: set<T>)
    requires a <= b
    ensures |a| <= |b|
  {
    assert |b - a| == |b| - |a|;
  }

  lemma {:induction false} ElementsAtMost<T>(s: seq<T>)
    ensures |Elements(s)| <= |s|
  {
    if s != [] {
      ElementsAtMost(s[..|s| - 1]);
      assert Elements(s) == Elements(s[..|s| - 1]) + {s[|s| - 1]};
    }
  }

  /** Two different sets of one size: each has something the other lacks. */
  lemma EachHasMore<T>(a: set<T>, b: set<T>) returns (x: T, y: T)
    requires |a| == |b| && a != b
    ensures x in a && x !in b && y in b && y !in a
  {
    assert a == (a - b) + (a * b) && b == (b - a) + (a * b);
    if a - b == {} {
      SubsetOfSameSize(a * b, b);
    }
    if b - a == {} {
      SubsetOfSameSize(a * b, a);
    }
    x := Pick(a - b);
    y := Pick(b - a);
  }
}

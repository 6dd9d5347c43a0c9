/** A stable sort by a comparison, its properties, and lexicographic comparison of strings. */
module Sorting {

  ghost predicate TotalPreorder<T(!new)>(leq: (T, T) -> bool) {
    && (forall a, b :: leq(a, b) || leq(b, a))
    && (forall a, b, c :: leq(a, b) && leq(b, c) ==> leq(a, c))
  }

  ghost predicate SortedBy<T>(xs: seq<T>, leq: (T, T) -> bool) {
    forall i, j :: 0 <= i < j < |xs| ==> leq(xs[i], xs[j])
  }

  predicate Distinct<T(==)>(xs: seq<T>) {
    forall i, j :: 0 <= i < j < |xs| ==> xs[i] != xs[j]
  }

  lemma {:induction false} CountsOnce<T>(xs: seq<T>, x: T)
    requires Distinct(xs)
    ensures multiset(xs)[x] == if x in xs then 1 else 0
  {
    if xs != [] {
      var init, last := xs[..|xs| - 1], xs[|xs| - 1];
      CountsOnce(init, x);
      assert xs == init + [last];
      assert last !in init;
    }
  }

  /** A rearrangement of distinct values has the same values, still distinct. */
  lemma PermutationStaysDistinct<T>(xs: seq<T>, ys: seq<T>)
    requires Distinct(xs) && multiset(xs) == multiset(ys)
    ensures Distinct(ys) && forall x :: x in xs <==> x in ys
  {
    forall x
      ensures x in xs <==> x in ys
    {
      assert x in multiset(xs) <==> x in multiset(ys);
    }
    forall i, j | 0 <= i < j < |ys|
      ensures ys[i] != ys[j]
    {
      if ys[i] == ys[j] {
        assert ys == ys[..j] + ys[j..];
        assert ys[i] in ys[..j] && ys[j] in ys[j..];
        CountsOnce(xs, ys[i]);
      }
    }
  }

  /** Places x after everything that may stand before it. */
  function Insert<T>(xs: seq<T>, x: T, leq: (T, T) -> bool): seq<T> {
    if xs == [] then [x]
    else
      var init, last := xs[..|xs| - 1], xs[|xs| - 1];
      if leq(last, x) then xs + [x] else Insert(init, x, leq) + [last]
  }

  function Sort<T>(xs: seq<T>, leq: (T, T) -> bool): seq<T> {
    if xs == [] then [] else Insert(Sort(xs[..|xs| - 1], leq), xs[|xs| - 1], leq)
  }

  lemma {:induction false} InsertPermutes<T>(xs: seq<T>, x: T, leq: (T, T) -> bool)
    ensures multiset(Insert(xs, x, leq)) == multiset(xs) + multiset{x}
  {
    if xs != [] {
      var init, last := xs[..|xs| - 1], xs[|xs| - 1];
      InsertPermutes(init, x, leq);
      assert xs == init + [last];
    }
  }

  lemma SameSize<T>(xs: seq<T>, ys: seq<T>)
    requires multiset(xs) == multiset(ys)
    ensures |xs| == |ys|
  {
    assert |multiset(xs)| == |xs| && |multiset(ys)| == |ys|;
  }

  lemma {:induction false} SortPermutes<T>(xs: seq<T>, leq: (T, T) -> bool)
    ensures multiset(Sort(xs, leq)) == multiset(xs)
    ensures |Sort(xs, leq)| == |xs|
  {
    if xs != [] {
      var init, last := xs[..|xs| - 1], xs[|xs| - 1];
      SortPermutes(init, leq);
      InsertPermutes(Sort(init, leq), last, leq);
      hide Insert;
      SplitLast(xs);
      assert Sort(xs, leq) == Insert(Sort(init, leq), last, leq);
    }
    SameSize(Sort(xs, leq), xs);
  }

  lemma {:induction false} InsertSorted<T(!new)>(xs: seq<T>, x: T, leq: (T, T) -> bool)
    requires TotalPreorder(leq) && SortedBy(xs, leq)
    ensures SortedBy(Insert(xs, x, leq), leq)
  {
    if xs != [] {
      var init, last := xs[..|xs| - 1], xs[|xs| - 1];
      if leq(last, x) {
        forall i | 0 <= i < |xs|
          ensures leq(xs[i], x)
        {
          assert i < |xs| - 1 ==> leq(xs[i], last);
        }
      } else {
        InsertSorted(init, x, leq);
        InsertPermutes(init, x, leq);
        var front := Insert(init, x, leq);
        forall i | 0 <= i < |front|
          ensures leq(front[i], last)
        {
          assert front[i] in multiset(front);
          if front[i] != x {
            assert front[i] in multiset(init);
            var j :| 0 <= j < |init| && init[j] == front[i];
            assert xs[j] == front[i];
          }
        }
      }
    }
  }

  lemma {:induction false} SortSorted<T(!new)>(xs: seq<T>, leq: (T, T) -> bool)
    requires TotalPreorder(leq)
    ensures SortedBy(Sort(xs, leq), leq)
  {
    if xs != [] {
      SortSorted(xs[..|xs| - 1], leq);
      InsertSorted(Sort(xs[..|xs| - 1], leq), xs[|xs| - 1], leq);
    }
  }

  /** No two different elements of xs compare both ways. */
  ghost predicate Strict<T>(xs: seq<T>, leq: (T, T) -> bool) {
    forall a, b :: a in xs && b in xs && leq(a, b) && leq(b, a) ==> a == b
  }

  lemma SortedLastIsUnique<T>(xs: seq<T>, ys: seq<T>, leq: (T, T) -> bool)
    requires SortedBy(xs, leq) && SortedBy(ys, leq) && multiset(xs) == multiset(ys)
    requires Strict(xs, leq) && xs != [] && ys != []
    ensures xs[|xs| - 1] == ys[|ys| - 1]
  {
    var a, b := xs[|xs| - 1], ys[|ys| - 1];
    assert a in multiset(ys) && b in multiset(xs);
    var i :| 0 <= i < |ys| && ys[i] == a;
    var j :| 0 <= j < |xs| && xs[j] == b;
    if i < |ys| - 1 && j < |xs| - 1 {
      assert leq(ys[i], b) && leq(xs[j], a);
    }
  }

  lemma DropLast<T>(xs: seq<T>, leq: (T, T) -> bool)
    requires SortedBy(xs, leq) && Strict(xs, leq) && xs != []
    ensures var init := xs[..|xs| - 1];
            SortedBy(init, leq) && Strict(init, leq) && multiset(init) == multiset(xs) - multiset{xs[|xs| - 1]}
  {
    var init := xs[..|xs| - 1];
    assert xs == init + [xs[|xs| - 1]];
    assert forall c :: c in init ==> c in xs;
  }

  /** Where the comparison is strict there is only one sorted arrangement. */
  lemma {:induction false} SortedIsUnique<T>(xs: seq<T>, ys: seq<T>, leq: (T, T) -> bool)
    requires SortedBy(xs, leq) && SortedBy(ys, leq) && multiset(xs) == multiset(ys)
    requires Strict(xs, leq)
    ensures xs == ys
  {
    SameSize(xs, ys);
    if xs != [] {
      SortedLastIsUnique(xs, ys, leq);
      DropLast(xs, leq);
      StrictPermutes(xs, ys, leq);
      DropLast(ys, leq);
      hide SortedBy, Strict;
      SortedIsUnique(xs[..|xs| - 1], ys[..|ys| - 1], leq);
      SplitLast(xs);
      SplitLast(ys);
    }
  }

  lemma SplitLast<T>(xs: seq<T>)
    requires xs != []
    ensures xs == xs[..|xs| - 1] + [xs[|xs| - 1]]
  {
  }

  lemma StrictPermutes<T>(xs: seq<T>, ys: seq<T>, leq: (T, T) -> bool)
    requires Strict(xs, leq) && multiset(xs) == multiset(ys)
    ensures Strict(ys, leq)
  {
    forall c | c in ys
      ensures c in xs
    {
      assert c in multiset(ys);
    }
  }

  // ---- strings -------------------------------------------------------------------------------

  predicate LexLess(a: string, b: string) {
    b != [] && (a == [] || a[0] < b[0] || (a[0] == b[0] && LexLess(a[1..], b[1..])))
  }

  lemma {:induction false} LexTrichotomy(a: string, b: string)
    ensures LexLess(a, b) || a == b || LexLess(b, a)
    ensures !(LexLess(a, b) && LexLess(b, a))
    ensures !LexLess(a, a)
  {
    if a != [] {
      LexTrichotomy(a[1..], a[1..]);
      if b != [] {
        LexTrichotomy(a[1..], b[1..]);
        if a[0] == b[0] && a[1..] == b[1..] {
          assert a == [a[0]] + a[1..] && b == [b[0]] + b[1..];
        }
      }
    }
  }

  lemma {:induction false} LexTransitive(a: string, b: string, c: string)
    requires LexLess(a, b) && LexLess(b, c)
    ensures LexLess(a, c)
  {
    if a != [] && a[0] == b[0] && b[0] == c[0] {
      LexTransitive(a[1..], b[1..], c[1..]);
    }
  }
}

/** Sorting strings: the result is ascending, rearranges its input, and is the only such list. */
module Sorting {
  import opened Wrappers
  import opened Text

  predicate NotAfter(a: string, b: string) {
    a == b || Before(a, b)
  }

  ghost predicate Ascending(xs: seq<string>) {
    forall i, j | 0 <= i < j < |xs| :: NotAfter(xs[i], xs[j])
  }

  function Insert(x: string, xs: seq<string>): seq<string> {
    if xs == [] || NotAfter(x, xs[0]) then [x] + xs else [xs[0]] + Insert(x, xs[1..])
  }

  /** sort.Strings. */
  function SortStrings(xs: seq<string>): seq<string> {
    if xs == [] then [] else Insert(xs[0], SortStrings(xs[1..]))
  }

  lemma {:induction false} OrderIsTotal(a: string, b: string)
    ensures NotAfter(a, b) || NotAfter(b, a)
    ensures NotAfter(a, b) && NotAfter(b, a) ==> a == b
  {
    if a != "" && b != "" {
      OrderIsTotal(a[1..], b[1..]);
      assert a == [a[0]] + a[1..] && b == [b[0]] + b[1..];
    }
  }

  lemma {:induction false} OrderIsTransitive(a: string, b: string, c: string)
    requires NotAfter(a, b) && NotAfter(b, c)
    ensures NotAfter(a, c)
  {
    if a != b && b != c && a != "" && a[0] == b[0] && b[0] == c[0] {
      OrderIsTransitive(a[1..], b[1..], c[1..]);
      assert a == [a[0]] + a[1..] && c == [c[0]] + c[1..];
    }
  }

  lemma {:induction false} InsertSorts(x: string, xs: seq<string>)
    requires Ascending(xs)
    ensures Ascending(Insert(x, xs)) && multiset(Insert(x, xs)) == multiset([x]) + multiset(xs)
  {
    if xs == [] {
      assert Insert(x, xs) == [x];
    } else if NotAfter(x, xs[0]) {
      forall j | 0 <= j < |xs| ensures NotAfter(x, xs[j]) {
        OrderIsTransitive(x, xs[0], xs[j]);
      }
    } else {
      var rest := Insert(x, xs[1..]);
      InsertSorts(x, xs[1..]);
      assert xs == [xs[0]] + xs[1..];
      OrderIsTotal(x, xs[0]);
      forall j | 0 <= j < |rest| ensures NotAfter(xs[0], rest[j]) {
        assert rest[j] in multiset(rest);
        if rest[j] != x {
          assert rest[j] in multiset(xs[1..]);
          assert rest[j] in xs[1..];
        }
      }
    }
  }

  lemma {:induction false} SortSorts(xs: seq<string>)
    ensures Ascending(SortStrings(xs)) && multiset(SortStrings(xs)) == multiset(xs)
  {
    if xs != [] {
      SortSorts(xs[1..]);
      InsertSorts(xs[0], SortStrings(xs[1..]));
      assert xs == [xs[0]] + xs[1..];
    }
  }

  /** Two ascending lists of the same strings are the same list. */
  lemma {:induction false} AscendingIsUnique(xs: seq<string>, ys: seq<string>)
    requires Ascending(xs) && Ascending(ys) && multiset(xs) == multiset(ys)
    ensures xs == ys
  {
    if xs == [] {
      assert |multiset(ys)| == 0;
    } else {
      SameHead(xs, ys);
      WithoutHead(xs);
      WithoutHead(ys);
      AscendingIsUnique(xs[1..], ys[1..]);
    }
  }

  lemma SameHead(xs: seq<string>, ys: seq<string>)
    requires Ascending(xs) && Ascending(ys) && multiset(xs) == multiset(ys) && xs != []
    ensures ys != [] && xs[0] == ys[0]
  {
    assert xs[0] in multiset(ys);
    assert ys[0] in multiset(xs);
    OrderIsTotal(xs[0], ys[0]);
  }

  lemma WithoutHead(xs: seq<string>)
    requires xs != []
    ensures multiset(xs[1..]) == multiset(xs) - multiset([xs[0]])
    ensures xs == [xs[0]] + xs[1..]
  {
    assert xs == [xs[0]] + xs[1..];
  }

  lemma {:induction false} NoDuplicatesMultiset(xs: seq<string>)
    ensures NoDuplicates(xs) <==> forall x | x in xs :: multiset(xs)[x] == 1
  {
    if xs != [] {
      var rest := xs[1..];
      NoDuplicatesMultiset(rest);
      assert xs == [xs[0]] + rest;
      assert forall x :: x in xs <==> x == xs[0] || x in rest;
      if NoDuplicates(xs) {
        assert NoDuplicates(rest) && xs[0] !in rest;
        assert forall x | x in xs :: multiset(xs)[x] == 1;
      } else if xs[0] in rest {
        assert multiset(xs)[xs[0]] >= 2;
      } else {
        assert !NoDuplicates(rest);
        var x :| x in rest && multiset(rest)[x] != 1;
        assert x != xs[0] && multiset(xs)[x] != 1;
      }
    }
  }

  lemma SortKeepsDistinct(xs: seq<string>)
    requires NoDuplicates(xs)
    ensures NoDuplicates(SortStrings(xs)) && forall x :: x in SortStrings(xs) <==> x in xs
  {
    var ys := SortStrings(xs);
    SortSorts(xs);
    NoDuplicatesMultiset(xs);
    forall x ensures x in ys <==> x in xs {
      assert x in multiset(ys) <==> x in multiset(xs);
    }
    NoDuplicatesMultiset(ys);
  }
}

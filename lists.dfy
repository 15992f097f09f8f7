/** Order-preserving filtering, the `Array.prototype.filter` every core file uses. */
module Lists {

  /** The elements of `xs` satisfying `p`, in their original order. */
  function Filter<T>(xs: seq<T>, p: T -> bool): seq<T> {
    if xs == [] then []
    else (if p(xs[0]) then [xs[0]] else []) + Filter(xs[1..], p)
  }

  /** The filter is no longer than its input; it keeps exactly the elements
      that pass, and only elements of the input. */
  lemma {:induction false} FilterFacts<T>(xs: seq<T>, p: T -> bool)
    ensures |Filter(xs, p)| <= |xs|
    ensures forall x :: x in Filter(xs, p) <==> x in xs && p(x)
    ensures forall i :: 0 <= i < |Filter(xs, p)| ==> Filter(xs, p)[i] in xs && p(Filter(xs, p)[i])
  {
    if xs != [] {
      FilterFacts(xs[1..], p);
      forall x | x in xs ensures x == xs[0] || x in xs[1..] {
        var i :| 0 <= i < |xs| && xs[i] == x;
        if i > 0 {
          assert xs[1..][i - 1] == x;
        }
      }
    }
  }

  /** Filtering distributes over concatenation, so it keeps the relative order of what it keeps. */
  lemma {:induction false} FilterAppend<T>(a: seq<T>, b: seq<T>, p: T -> bool)
    ensures Filter(a + b, p) == Filter(a, p) + Filter(b, p)
  {
    if a == [] {
      assert a + b == b;
    } else {
      var head := if p(a[0]) then [a[0]] else [];
      assert (a + b)[0] == a[0];
      assert (a + b)[1..] == a[1..] + b;
      FilterAppend(a[1..], b, p);
      calc {
        Filter(a + b, p);
        head + Filter(a[1..] + b, p);
        head + (Filter(a[1..], p) + Filter(b, p));
        (head + Filter(a[1..], p)) + Filter(b, p);
        Filter(a, p) + Filter(b, p);
      }
    }
  }

  /** A single element is kept exactly when it passes. */
  lemma FilterSingle<T>(x: T, p: T -> bool)
    ensures Filter([x], p) == if p(x) then [x] else []
  {
    assert [x][1..] == [];
  }

  /** Filtering five elements, written out. */
  lemma FilterFive<T>(a: T, b: T, c: T, d: T, e: T, p: T -> bool)
    ensures Filter([a, b, c, d, e], p)
      == (if p(a) then [a] else []) + ((if p(b) then [b] else []) + ((if p(c) then [c] else [])
         + ((if p(d) then [d] else []) + (if p(e) then [e] else []))))
  {
    assert [a, b, c, d, e] == [a] + ([b] + ([c] + ([d] + [e])));
    FilterAppend([a], [b] + ([c] + ([d] + [e])), p);
    FilterAppend([b], [c] + ([d] + [e]), p);
    FilterAppend([c], [d] + [e], p);
    FilterAppend([d], [e], p);
    FilterSingle(a, p);
    FilterSingle(b, p);
    FilterSingle(c, p);
    FilterSingle(d, p);
    FilterSingle(e, p);
  }

}

/**
 * Pure functions on sequences that give the meaning of the Collection
 * operations: reversal, element-wise mapping, filtering, the left fold used
 * by `reduce` and `sum`, and one-level flattening. Each comes with the
 * lemmas that say what it computes independently of how it is written.
 */
module Seqs {

  function Min(a: int, b: int): (m: int)
    ensures m <= a && m <= b && (m == a || m == b)
  {
    if a <= b then a else b
  }

  function Id<T>(x: T): T { x }

  /** The negation of a predicate: what `reject` keeps. */
  function Not<T>(p: T -> bool): T -> bool
  {
    x => !p(x)
  }

  // ---------------------------------------------------------------------
  // Reversal (Array.prototype.reverse)

  /** The reverse of `s`, written as a recursion on the first element. */
  function Reversed<T>(s: seq<T>): (r: seq<T>)
    ensures |r| == |s|
    ensures forall i :: 0 <= i < |s| ==> r[i] == s[|s| - 1 - i]
  {
    if s == [] then [] else Reversed(s[1..]) + [s[0]]
  }

  /** Reversing twice gives back the original order. */
  lemma ReversedInvolution<T>(s: seq<T>)
    ensures Reversed(Reversed(s)) == s
  {
    var r := Reversed(Reversed(s));
    forall i | 0 <= i < |s|
      ensures r[i] == s[i]
    {
      assert r[i] == Reversed(s)[|s| - 1 - i];
    }
  }

  /** Reversal turns a concatenation around. */
  lemma {:induction false} ReversedAppend<T>(a: seq<T>, b: seq<T>)
    ensures Reversed(a + b) == Reversed(b) + Reversed(a)
  {
    if a == [] {
      assert a + b == b;
    } else {
      calc {
        Reversed(a + b);
        { assert (a + b)[0] == a[0]; }
        Reversed((a + b)[1..]) + [a[0]];
        { assert (a + b)[1..] == a[1..] + b; }
        Reversed(a[1..] + b) + [a[0]];
        { ReversedAppend(a[1..], b); }
        (Reversed(b) + Reversed(a[1..])) + [a[0]];
        Reversed(b) + (Reversed(a[1..]) + [a[0]]);
      }
    }
  }

  /**
   * The first `m` items of the reversed sequence are the last `m` items of
   * the original, in reverse order.
   */
  lemma {:induction false} ReversedPrefixIsReversedSuffix<T>(s: seq<T>, m: nat)
    requires m <= |s|
    ensures Reversed(s)[..m] == Reversed(s[|s| - m..])
  {
    if m == |s| {
      assert s[|s| - m..] == s;
    } else {
      var tail := s[1..];
      assert Reversed(s) == Reversed(tail) + [s[0]];
      assert Reversed(s)[..m] == Reversed(tail)[..m];
      ReversedPrefixIsReversedSuffix(tail, m);
      assert tail[|tail| - m..] == s[|s| - m..];
    }
  }

  // ---------------------------------------------------------------------
  // Element-wise mapping (Array.prototype.map)

  /** `f` applied to every element, in order. */
  function MapSeq<T, U>(f: T -> U, s: seq<T>): (r: seq<U>)
    ensures |r| == |s|
    ensures forall i :: 0 <= i < |s| ==> r[i] == f(s[i])
  {
    if s == [] then [] else [f(s[0])] + MapSeq(f, s[1..])
  }

  /** Mapping the identity leaves a sequence as it is. */
  lemma MapIdentity<T>(s: seq<T>)
    ensures MapSeq(Id, s) == s
  {
    var r := MapSeq(Id, s);
    assert |r| == |s|;
    forall i | 0 <= i < |s|
      ensures r[i] == s[i]
    {
      assert r[i] == Id(s[i]);
    }
  }

  // ---------------------------------------------------------------------
  // Filtering (Array.prototype.filter)

  /** The elements of `s` that satisfy `p`, in their original order. */
  function Filter<T>(p: T -> bool, s: seq<T>): (r: seq<T>)
    ensures |r| <= |s|
  {
    if s == [] then []
    else (if p(s[0]) then [s[0]] else []) + Filter(p, s[1..])
  }

  /**
   * Filtering distributes over concatenation: together with the value on
   * one element, this says that `Filter` keeps the relative order.
   */
  lemma {:induction false} FilterAppend<T>(p: T -> bool, a: seq<T>, b: seq<T>)
    ensures Filter(p, a + b) == Filter(p, a) + Filter(p, b)
  {
    if a == [] {
      assert a + b == b;
    } else {
      var head := if p(a[0]) then [a[0]] else [];
      calc {
        Filter(p, a + b);
        { assert (a + b)[0] == a[0]; }
        head + Filter(p, (a + b)[1..]);
        { assert (a + b)[1..] == a[1..] + b; }
        head + Filter(p, a[1..] + b);
        { FilterAppend(p, a[1..], b); }
        head + (Filter(p, a[1..]) + Filter(p, b));
        (head + Filter(p, a[1..])) + Filter(p, b);
      }
    }
  }

  /** An element is kept exactly when it occurs in `s` and satisfies `p`. */
  lemma {:induction false} FilterMembership<T>(p: T -> bool, s: seq<T>, x: T)
    ensures x in Filter(p, s) <==> x in s && p(x)
  {
    if s != [] {
      FilterMembership(p, s[1..], x);
      assert s == [s[0]] + s[1..];
    }
  }

  /**
   * `Filter(p, s)` and `Filter(Not(p), s)` split `s`: every element goes to
   * exactly one of them, so their lengths add up to `|s|`.
   */
  lemma {:induction false} FilterPartition<T>(p: T -> bool, s: seq<T>)
    ensures multiset(Filter(p, s)) + multiset(Filter(Not(p), s)) == multiset(s)
    ensures |Filter(p, s)| + |Filter(Not(p), s)| == |s|
  {
    if s != [] {
      FilterPartition(p, s[1..]);
      assert s == [s[0]] + s[1..];
      assert Not(p)(s[0]) == !p(s[0]);
    }
  }

  // ---------------------------------------------------------------------
  // Left fold (Array.prototype.reduce with an initial value)

  /** `f(...f(f(init, s[0]), s[1])..., s[|s|-1])`. */
  function FoldLeft<A, T>(f: (A, T) -> A, init: A, s: seq<T>): A
  {
    if s == [] then init else FoldLeft(f, f(init, s[0]), s[1..])
  }

  /** Folding a concatenation folds the second part from where the first left off. */
  lemma {:induction false} FoldLeftAppend<A, T>(f: (A, T) -> A, init: A, a: seq<T>, b: seq<T>)
    ensures FoldLeft(f, init, a + b) == FoldLeft(f, FoldLeft(f, init, a), b)
  {
    if a == [] {
      assert a + b == b;
    } else {
      assert (a + b)[1..] == a[1..] + b;
      FoldLeftAppend(f, f(init, a[0]), a[1..], b);
    }
  }

  /** The last step of a left fold combines the accumulator with the last item. */
  lemma FoldLeftLast<A, T>(f: (A, T) -> A, init: A, s: seq<T>)
    ensures |s| > 0 ==> FoldLeft(f, init, s) == f(FoldLeft(f, init, s[..|s| - 1]), s[|s| - 1])
  {
    if |s| > 0 {
      var n := |s| - 1;
      assert s == s[..n] + [s[n]];
      FoldLeftAppend(f, init, s[..n], [s[n]]);
      assert FoldLeft(f, f(FoldLeft(f, init, s[..n]), s[n]), []) == f(FoldLeft(f, init, s[..n]), s[n]);
    }
  }

  // ---------------------------------------------------------------------
  // Sums

  /** The reference sum, written as a right recursion. */
  function Total(s: seq<int>): int
  {
    if s == [] then 0 else s[0] + Total(s[1..])
  }

  lemma {:induction false} TotalAppend(a: seq<int>, b: seq<int>)
    ensures Total(a + b) == Total(a) + Total(b)
  {
    if a == [] {
      assert a + b == b;
    } else {
      assert (a + b)[1..] == a[1..] + b;
      TotalAppend(a[1..], b);
    }
  }

  /** Appending one item raises the total of the selected values by that item's value. */
  lemma SumBySnoc<T>(sel: T -> int, s: seq<T>, x: T)
    ensures Total(MapSeq(sel, s + [x])) == Total(MapSeq(sel, s)) + sel(x)
  {
    assert MapSeq(sel, s + [x]) == MapSeq(sel, s) + [sel(x)];
    TotalAppend(MapSeq(sel, s), [sel(x)]);
  }

  /** The reducer of `sum`: `(previous, current) => previous + sel(current)`. */
  function AddBy<T>(sel: T -> int): (int, T) -> int
  {
    (previous, current) => previous + sel(current)
  }

  /** Folding `AddBy(sel)` from `init` adds the total of the selected values to `init`. */
  lemma {:induction false} FoldAddByIsTotal<T>(sel: T -> int, init: int, s: seq<T>)
    ensures FoldLeft(AddBy(sel), init, s) == init + Total(MapSeq(sel, s))
    decreases s
  {
    if s != [] {
      FoldAddByIsTotal(sel, init + sel(s[0]), s[1..]);
      assert MapSeq(sel, s)[1..] == MapSeq(sel, s[1..]);
    }
  }

  // ---------------------------------------------------------------------
  // One-level flattening ([].concat(...items))

  /**
   * An element as `Array.prototype.concat` sees it: an array is spread one
   * level, anything else is appended as it is.
   */
  datatype Element<T> = Scalar(value: T) | Nested(elems: seq<T>)

  function Spread<T>(e: Element<T>): seq<T>
  {
    match e
    case Scalar(v) => [v]
    case Nested(es) => es
  }

  function SpreadLength<T>(e: Element<T>): (n: nat)
  {
    |Spread(e)|
  }

  function AsScalar<T>(x: T): Element<T> { Scalar(x) }

  /** The concatenation of every element's spread, in order. */
  function Flatten<T>(s: seq<Element<T>>): seq<T>
  {
    if s == [] then [] else Spread(s[0]) + Flatten(s[1..])
  }

  lemma {:induction false} FlattenAppend<T>(a: seq<Element<T>>, b: seq<Element<T>>)
    ensures Flatten(a + b) == Flatten(a) + Flatten(b)
  {
    if a == [] {
      assert a + b == b;
    } else {
      assert (a + b)[1..] == a[1..] + b;
      FlattenAppend(a[1..], b);
    }
  }

  /** The flattened length is the sum of the spread lengths. */
  lemma {:induction false} FlattenLength<T>(s: seq<Element<T>>)
    ensures |Flatten(s)| == Total(MapSeq(SpreadLength, s))
  {
    if s != [] {
      FlattenLength(s[1..]);
      assert MapSeq(SpreadLength, s)[1..] == MapSeq(SpreadLength, s[1..]);
    }
  }

  /** A sequence with nothing nested flattens back to its plain values. */
  lemma {:induction false} FlattenScalars<T>(s: seq<T>)
    ensures Flatten(MapSeq(AsScalar, s)) == s
  {
    if s != [] {
      FlattenScalars(s[1..]);
      assert MapSeq(AsScalar, s)[1..] == MapSeq(AsScalar, s[1..]);
    }
  }
}

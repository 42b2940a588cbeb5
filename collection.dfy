/**
 * The Collection class of collectionsjs: a wrapper around a JavaScript array
 * (`items`) with queries, builders that return a new Collection, a left fold,
 * and mutators that change the wrapped array in place.
 *
 * The JavaScript array is an object that several Collections can share, so
 * it is modelled as a class `Buf` of its own: `new Collection(xs)` stores the
 * caller's array itself, and `reverse()` and `take(-k)` reverse that shared
 * array, which every Collection over it then sees reversed.
 */
module Collections {
  import Seqs

  /**
   * What a lookup returns: JavaScript's `undefined` (an index out of range),
   * `null` (what `first`/`last` return on an empty collection), or an element.
   */
  datatype Lookup<T> = Undefined | Null | Found(value: T)

  /** A JavaScript array: a growable sequence that is updated in place. */
  class Buf<T> {
    var elems: seq<T>

    constructor (elems: seq<T>)
      ensures this.elems == elems
    {
      this.elems := elems;
    }

    /** Array.prototype.push with one argument. */
    method Push(x: T)
      modifies this
      ensures elems == old(elems) + [x]
    {
      elems := elems + [x];
    }

    /**
     * Array.prototype.reverse: swaps the items at `lower` and
     * `len - 1 - lower` for every `lower` below the middle.
     */
    method Reverse()
      modifies this
      ensures elems == Seqs.Reversed(old(elems))
    {
      var len := |elems|;
      var lower := 0;
      while lower < len / 2
        invariant 0 <= lower <= len / 2
        invariant |elems| == len
        invariant forall k :: 0 <= k < lower ==> elems[k] == old(elems)[len - 1 - k]
        invariant forall k :: 0 <= k < lower ==> elems[len - 1 - k] == old(elems)[k]
        invariant forall k :: lower <= k < len - lower ==> elems[k] == old(elems)[k]
      {
        var upper := len - 1 - lower;
        var lowerValue, upperValue := elems[lower], elems[upper];
        elems := elems[lower := upperValue][upper := lowerValue];
        lower := lower + 1;
      }
      ghost var before := old(elems);
      forall k | 0 <= k < len
        ensures elems[k] == Seqs.Reversed(before)[k]
      {
        if len - lower <= k {
          assert elems[len - 1 - (len - 1 - k)] == before[len - 1 - k];
        }
      }
    }
  }

  class Collection<T> {
    /** The wrapped array; no operation rebinds it, some change its contents. */
    const items: Buf<T>

    /** `new Collection(items)`: wraps the caller's array itself, not a copy. */
    constructor (items: Buf<T>)
      ensures this.items == items
    {
      this.items := items;
    }

    /** `new Collection()`: the default argument is a fresh empty array. */
    constructor Empty()
      ensures fresh(items) && items.elems == []
    {
      items := new Buf([]);
    }

    /** `getItems()`: the wrapped array by reference. */
    function GetItems(): (b: Buf<T>)
      ensures b == items
    {
      items
    }

    /** `all()`: the same array as `getItems()`. */
    function All(): (b: Buf<T>)
      ensures b == items && b == GetItems()
    {
      GetItems()
    }

    /** `count()`: the length of the wrapped array. */
    function Count(): (n: nat)
      reads items
      ensures n == |items.elems|
    {
      |items.elems|
    }

    /** `find(index)` for a numeric index: `items[index]`, `undefined` when out of range. */
    function Find(index: int): (r: Lookup<T>)
      reads items
      ensures r.Found? <==> 0 <= index < |items.elems|
      ensures r.Found? ==> r.value == items.elems[index]
      ensures !r.Found? ==> r == Undefined
    {
      if 0 <= index < |items.elems| then Found(items.elems[index]) else Undefined
    }

    /** `first()`: `null` on an empty collection, otherwise the first item. */
    function First(): (r: Lookup<T>)
      reads items
      ensures r == Null <==> |items.elems| == 0
      ensures |items.elems| > 0 ==> r == Found(items.elems[0]) && r == Find(0)
    {
      if |items.elems| == 0 then Null else Found(items.elems[0])
    }

    /** `last()`: `null` on an empty collection, otherwise the last item. */
    function Last(): (r: Lookup<T>)
      reads items
      ensures r == Null <==> |items.elems| == 0
      ensures |items.elems| > 0 ==> r == Found(items.elems[|items.elems| - 1]) && r == Find(Count() - 1)
    {
      if |items.elems| == 0 then Null else Found(items.elems[|items.elems| - 1])
    }

    /** `map(callback)`: a new Collection over a new array of the mapped items. */
    method Map<U>(f: T -> U) returns (r: Collection<U>)
      ensures fresh(r) && fresh(r.items)
      ensures |r.items.elems| == |items.elems|
      ensures forall i :: 0 <= i < |items.elems| ==> r.items.elems[i] == f(items.elems[i])
    {
      var mapped := new Buf(Seqs.MapSeq(f, items.elems));
      r := new Collection(mapped);
    }

    /** `filter(callback)`: a new Collection of the items that satisfy `p`, in order. */
    method Filter(p: T -> bool) returns (r: Collection<T>)
      ensures fresh(r) && fresh(r.items)
      ensures r.items.elems == Seqs.Filter(p, items.elems)
    {
      var kept := new Buf(Seqs.Filter(p, items.elems));
      r := new Collection(kept);
    }

    /**
     * `reject(callback)`: walks the items with `forEach` and pushes every
     * item that fails `p` onto a new array.
     */
    method Reject(p: T -> bool) returns (r: Collection<T>)
      ensures fresh(r) && fresh(r.items)
      ensures r.items.elems == Seqs.Filter(Seqs.Not(p), items.elems)
    {
      var kept := new Buf([]);
      var i := 0;
      while i < |items.elems|
        invariant 0 <= i <= |items.elems|
        invariant fresh(kept)
        invariant kept.elems == Seqs.Filter(Seqs.Not(p), items.elems[..i])
      {
        var item := items.elems[i];
        if !p(item) {
          kept.Push(item);
        }
        assert items.elems[..i + 1] == items.elems[..i] + [item];
        Seqs.FilterAppend(Seqs.Not(p), items.elems[..i], [item]);
        i := i + 1;
      }
      assert items.elems[..i] == items.elems;
      r := new Collection(kept);
    }

    /** `reduce(callback, initial)`: the left fold of `f` over the items from `init`. */
    function Reduce<A>(f: (A, T) -> A, init: A): (r: A)
      reads items
      ensures |items.elems| == 0 ==> r == init
      ensures |items.elems| > 0 ==>
        r == f(Seqs.FoldLeft(f, init, items.elems[..|items.elems| - 1]), items.elems[|items.elems| - 1])
    {
      Seqs.FoldLeftLast(f, init, items.elems);
      Seqs.FoldLeft(f, init, items.elems)
    }

    /** `pluck(property)`, with the property access given as a selector: `map(sel)`. */
    method Pluck<U>(sel: T -> U) returns (r: Collection<U>)
      ensures fresh(r) && fresh(r.items)
      ensures |r.items.elems| == |items.elems|
      ensures forall i :: 0 <= i < |items.elems| ==> r.items.elems[i] == sel(items.elems[i])
    {
      r := Map(sel);
    }

    /**
     * `sum(property)` and `sum(callback)`, with the property access given as
     * a selector: `reduce((previous, current) => previous + sel(current), 0)`,
     * which is the total of the selected values.
     */
    function SumBy(sel: T -> int): (r: int)
      reads items
      ensures r == Seqs.Total(Seqs.MapSeq(sel, items.elems))
    {
      Seqs.FoldAddByIsTotal(sel, 0, items.elems);
      Reduce(Seqs.AddBy(sel), 0)
    }

    /**
     * `take(count)`: `[]` for 0; the first `count` items for a positive
     * count; for a negative count the wrapped array is reversed in place and
     * the first `-count` items of the reversed array are taken.
     */
    method Take(count: int) returns (r: Collection<T>)
      modifies items
      ensures fresh(r) && fresh(r.items)
      ensures count >= 0 ==> items.elems == old(items.elems)
      ensures count < 0 ==> items.elems == Seqs.Reversed(old(items.elems))
      ensures count == 0 ==> r.items.elems == []
      ensures count > 0 ==> r.items.elems == old(items.elems)[..Seqs.Min(count, |old(items.elems)|)]
      ensures count < 0 ==> r.items.elems == Seqs.Reversed(old(items.elems))[..Seqs.Min(-count, |old(items.elems)|)]
      decreases if count < 0 then 1 else 0
    {
      if count == 0 {
        r := new Collection.Empty();
      } else if count < 0 {
        items.Reverse();
        var reversed := new Collection(items);
        r := reversed.Take(-count);
      } else {
        var prefix := new Buf(items.elems[..Seqs.Min(count, |items.elems|)]);
        r := new Collection(prefix);
      }
    }

    /** `add(item)`: pushes onto the wrapped array. */
    method Add(x: T)
      modifies items
      ensures items.elems == old(items.elems) + [x]
    {
      items.Push(x);
    }

    /** `push(item)`: the same as `add(item)`. */
    method Push(x: T)
      modifies items
      ensures items.elems == old(items.elems) + [x]
    {
      Add(x);
    }

    /**
     * `reverse()`: reverses the wrapped array in place and returns a new
     * Collection over that same array.
     */
    method Reverse() returns (r: Collection<T>)
      modifies items
      ensures fresh(r) && r.items == items
      ensures items.elems == Seqs.Reversed(old(items.elems))
    {
      items.Reverse();
      r := new Collection(items);
    }
  }

  /** `sum()` with no argument, on a collection of numbers: the total of the items. */
  function Sum(c: Collection<int>): (r: int)
    reads c.items
    ensures r == Seqs.Total(c.items.elems)
    ensures c.items.elems == [] ==> r == 0
  {
    Seqs.MapIdentity(c.items.elems);
    c.SumBy(Seqs.Id)
  }

  /** `flatten()`: a new Collection over the one-level concatenation of the items. */
  method Flatten<T>(c: Collection<Seqs.Element<T>>) returns (r: Collection<T>)
    ensures fresh(r) && fresh(r.items)
    ensures r.items.elems == Seqs.Flatten(c.items.elems)
    ensures |r.items.elems| == Seqs.Total(Seqs.MapSeq(Seqs.SpreadLength, c.items.elems))
  {
    Seqs.FlattenLength(c.items.elems);
    var flat := new Buf(Seqs.Flatten(c.items.elems));
    r := new Collection(flat);
  }

  /**
   * `filter(p)` and `reject(p)` split the receiver: every item lands in
   * exactly one of the two results, so their counts add up to `count()`.
   */
  method FilterAndReject<T>(c: Collection<T>, p: T -> bool) returns (kept: Collection<T>, rejected: Collection<T>)
    ensures fresh(kept.items) && fresh(rejected.items)
    ensures forall x :: x in kept.items.elems <==> x in c.items.elems && p(x)
    ensures forall x :: x in rejected.items.elems <==> x in c.items.elems && !p(x)
    ensures multiset(kept.items.elems) + multiset(rejected.items.elems) == multiset(c.items.elems)
    ensures kept.Count() + rejected.Count() == c.Count()
  {
    kept := c.Filter(p);
    rejected := c.Reject(p);
    Seqs.FilterPartition(p, c.items.elems);
    forall x
      ensures x in kept.items.elems <==> x in c.items.elems && p(x)
      ensures x in rejected.items.elems <==> x in c.items.elems && !p(x)
    {
      Seqs.FilterMembership(p, c.items.elems, x);
      Seqs.FilterMembership(Seqs.Not(p), c.items.elems, x);
    }
  }

  /** After `add(x)`, `sum(sel)` is the old sum plus `sel(x)`. */
  method AddRaisesSumBy<T>(c: Collection<T>, x: T, sel: T -> int)
    modifies c.items
    ensures c.items.elems == old(c.items.elems) + [x]
    ensures c.SumBy(sel) == old(c.SumBy(sel)) + sel(x)
  {
    c.Add(x);
    Seqs.SumBySnoc(sel, old(c.items.elems), x);
  }

  /**
   * Two calls of `reverse()` restore the original order of the shared array,
   * and the second call works on the Collection the first returned.
   */
  method ReverseTwice<T>(c: Collection<T>) returns (r: Collection<T>)
    modifies c.items
    ensures r.items == c.items
    ensures c.items.elems == old(c.items.elems)
  {
    var once := c.Reverse();
    r := once.Reverse();
    Seqs.ReversedInvolution(old(c.items.elems));
  }

  /**
   * `take(-k)` for `k > 0` returns the last `k` items (all when there are
   * fewer) in reverse order and leaves the receiver reversed.
   */
  method TakeFromEnd<T>(c: Collection<T>, k: nat) returns (r: Collection<T>)
    requires k > 0
    modifies c.items
    ensures c.items.elems == Seqs.Reversed(old(c.items.elems))
    ensures r.items.elems == Seqs.Reversed(old(c.items.elems)[|old(c.items.elems)| - Seqs.Min(k, |old(c.items.elems)|)..])
  {
    ghost var before := c.items.elems;
    r := c.Take(-(k as int));
    Seqs.ReversedPrefixIsReversedSuffix(before, Seqs.Min(k, |before|));
  }
}

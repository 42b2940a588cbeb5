# collectionsjs Collection, modelled in Dafny

collectionsjs is a small JavaScript library with one class, `Collection`.
It wraps a JavaScript array (`this.items`) and offers:

- queries: `count`, `find`, `first`, `last`;
- builders that return a new Collection: `map`, `filter`, `reject`, `pluck`, `take`, `flatten`;
- a left fold, `reduce`, and `sum` built on it;
- mutators that change the wrapped array in place: `add`/`push`, `reverse`, and `take` with a negative count.

The model is in two modules:

- `Seqs` (sequences.dfy) holds pure functions on `seq<T>`: `Reversed`, `MapSeq`, `Filter`, `FoldLeft`, `Total` and `Flatten`.
  It also holds the lemmas that say what they compute.
- `Collections` (collection.dfy) holds the classes.
  - `Buf<T>` is a JavaScript array: an object with a `seq<T>` field, updated in place by `Push` and by `Reverse`.
    `Reverse` is the swap loop of `Array.prototype.reverse`.
  - `Collection<T>` holds a reference to a `Buf<T>`.
    The constructor stores the caller's array itself, so two Collections can share one array.
    `Reverse` and `Take` with a negative count reverse that shared array, as the source does, and every Collection over it sees the change.
    `Reverse` returns a new Collection over the same array.

Further modelling decisions:

- Callbacks are Dafny functions (`T -> U`, `T -> bool`, `(A, T) -> A`).
  The index and array arguments that JavaScript also passes to callbacks are not modelled.
- Property names in `pluck(property)` and `sum(property)` become selector functions.
- Numbers are `int`.
- A `Lookup<T>` tells `undefined` (what `find` returns for an index out of range) apart from `null` (what `first` and `last` return on an empty collection).
- `first()` takes no argument, as in the source.
  The test at test/first.js:16-23 passes a predicate and expects the first matching record.
  The source ignores the predicate, so it returns the first record instead.
- `flatten` works on elements of type `Element<T>`: either an array (`Nested`), which `concat` spreads one level, or any other value (`Scalar`), which it keeps as it is.
  The operation does not change the receiver.
- `this.items` is never rebound by any operation of the class, so it is a `const` field.
  Its contents change only through the mutators.

Methods with no `modifies` clause (`Map`, `Filter`, `Reject`, `Pluck`, `Flatten`) cannot change the receiver's array.
The verifier checks this from the frame alone.

## Model

| member | source | states |
|---|---|---|
| `Collections.Collection.constructor` | src/collection.js:3-5 | the new Collection wraps exactly the array it is given (an alias, not a copy) |
| `Collections.Collection.Empty` | src/collection.js:3-5 | with no argument, the Collection wraps a new empty array |
| `Collections.Collection.GetItems` | src/collection.js:11-13 | returns the wrapped array object itself |
| `Collections.Collection.All` | src/collection.js:7-9 | returns the same array object as `getItems()` |
| `Collections.Collection.Count` | src/collection.js:23-25 | is the length of the wrapped array |
| `Collections.Collection.Find` | src/collection.js:32 | finds an element exactly when `0 <= index < count`, and that element is `items[index]`; otherwise returns `undefined` |
| `Collections.Collection.First` | src/collection.js:35-41 | returns `null` exactly when the collection is empty; otherwise returns `items[0]`, which agrees with `find(0)` |
| `Collections.Collection.Last` | src/collection.js:43-49 | returns `null` exactly when the collection is empty; otherwise returns `items[count-1]`, which agrees with `find(count-1)` |
| `Collections.Collection.Map` | src/collection.js:51-53 | returns a new Collection over a new array of the same length whose i-th item is `f(items[i])`; the receiver cannot change |
| `Collections.Collection.Filter` | src/collection.js:55-57 | returns a new Collection over a new array holding the items that satisfy `p`, in their original order |
| `Collections.Collection.Reject` | src/collection.js:59-68 | its loop builds a new array holding the items that fail `p`, in their original order (the filter by the negated predicate) |
| `Collections.FilterAndReject` | src/collection.js:55-68 | an item is in `filter(p)` exactly when it is in the receiver and satisfies `p`, and in `reject(p)` exactly when it fails `p`; the two results are a multiset split of the receiver and their counts add up to `count()` |
| `Collections.Collection.Reduce` | src/collection.js:74-76 | is a left fold from `initial`: `initial` on an empty collection, otherwise `f` applied to the fold of all items but the last, and to the last item |
| `Collections.Collection.Pluck` | src/collection.js:78-80 | is `map` by the selector: same length, i-th item is `sel(items[i])` |
| `Collections.Collection.SumBy` | src/collection.js:83-93 | the fold of `previous + sel(current)` from 0 equals the total of the selected values |
| `Collections.Sum` | src/collection.js:95-97 | the fold of `previous + current` from 0 equals the total of the items, and is 0 on an empty collection |
| `Collections.Collection.Take` | src/collection.js:101-111 | for 0 returns an empty Collection; for `n > 0` returns a new prefix of length `min(n, count)` and leaves the receiver as it was; for `n < 0` reverses the receiver's array in place and returns the first `min(-n, count)` items of the reversed array |
| `Collections.TakeFromEnd` | src/collection.js:106-107 | `take(-k)` returns the last `min(k, count)` items in reverse order and leaves the receiver's array reversed |
| `Collections.Collection.Add` | src/collection.js:121-123 | the array becomes `old + [x]`: one more item, earlier items unchanged |
| `Collections.Collection.Push` | src/collection.js:125-127 | the same effect as `add` |
| `Collections.Flatten` | src/collection.js:129-131 | returns a new Collection over the one-level concatenation of the items; its length is the sum of the spread lengths |
| `Collections.Collection.Reverse` | src/collection.js:133-135 | reverses the wrapped array in place and returns a new Collection over that same array |
| `Collections.ReverseTwice` | src/collection.js:133-135 | two `reverse()` calls, the second on the first's result, restore the original order of the shared array |
| `Collections.Buf.constructor` | src/collection.js:3-5 | an array holds exactly the given items |
| `Collections.Buf.Push` | src/collection.js:122 | `Array.prototype.push` appends one item at the end |
| `Collections.Buf.Reverse` | src/collection.js:134 | the in-place swap loop leaves the array holding the reverse of its old items |
| `Seqs.Reversed` | src/collection.js:133-135 | the reverse has the same length and its i-th item is the item at `len-1-i` |
| `Seqs.ReversedInvolution` | src/collection.js:133-135 | reversing twice gives back the original sequence |
| `Seqs.ReversedAppend` | src/collection.js:106-107 | the reverse of `a + b` is the reverse of `b` followed by the reverse of `a` |
| `Seqs.ReversedPrefixIsReversedSuffix` | src/collection.js:106-107 | for every `m <= len`, the first `m` items of the reverse are the last `m` items of the original, reversed (`take(-k)` uses `m = min(k, len)`) |
| `Seqs.MapSeq` | src/collection.js:51-53 | keeps the length and applies `f` to each item at the same position |
| `Seqs.MapIdentity` | src/collection.js:95-97 | mapping the identity changes nothing, so `sum()` is `sum(x => x)` |
| `Seqs.Filter` | src/collection.js:55-57 | is never longer than its input |
| `Seqs.FilterAppend` | src/collection.js:55-68 | filtering distributes over concatenation, so the kept items stay in their original order |
| `Seqs.FilterMembership` | src/collection.js:55-68 | an item is kept exactly when it occurs in the input and satisfies the predicate |
| `Seqs.FilterPartition` | src/collection.js:55-68 | filtering by `p` and by its negation splits the input as a multiset, and the two lengths add up to the input's |
| `Seqs.FoldLeft` | src/collection.js:75 | no contract; the definition of the left fold that `Array.prototype.reduce` computes from an initial value, specified by the two lemmas below |
| `Seqs.FoldLeftAppend` | src/collection.js:74-76 | folding `a + b` folds `b` from the result of folding `a` |
| `Seqs.FoldLeftLast` | src/collection.js:74-76 | the last step of a non-empty fold applies `f` to the fold of the prefix and the last item |
| `Seqs.TotalAppend` | src/collection.js:82-98 | the total of `a + b` is the total of `a` plus the total of `b` |
| `Seqs.AddBy` | src/collection.js:82-98 | no contract; the reducer `(previous, current) => previous + sel(current)` of the three `sum` branches, specified through `FoldAddByIsTotal` |
| `Seqs.FoldAddByIsTotal` | src/collection.js:82-98 | folding `previous + sel(current)` from `init` gives `init` plus the total of the selected values |
| `Seqs.SumBySnoc` | src/collection.js:121-123 | appending one item raises the total of the selected values by exactly that item's selected value |
| `Collections.AddRaisesSumBy` | src/collection.js:121-123 | after `add(x)` the array is `old + [x]` and `sum(sel)` is the old `sum(sel)` plus `sel(x)` |
| `Seqs.Spread` | src/collection.js:130 | no contract; how `concat` treats one element: an array is spread one level, any other value is kept as one item |
| `Seqs.SpreadLength` | src/collection.js:130 | no contract; the number of items one element contributes to the flattened array |
| `Seqs.Flatten` | src/collection.js:130 | no contract; the one-level concatenation `[].concat(...items)`, specified by the three lemmas below |
| `Seqs.FlattenAppend` | src/collection.js:129-131 | flattening distributes over concatenation |
| `Seqs.FlattenLength` | src/collection.js:129-131 | the flattened length is the sum of the elements' spread lengths |
| `Seqs.FlattenScalars` | src/collection.js:129-131 | a sequence with no nested arrays flattens back to its plain items |

## Left out

- `average`: it divides in floating point and gives NaN on an empty collection; the model has no floating point.
- `toJson`: it only calls `JSON.stringify`, a library outside the class.
- `each`: its only effect is whatever the callback does, and callbacks here are pure functions.
- `find` with a function argument: it calls `where`, which the class does not define, so it throws at runtime.
- `keys`: it spreads the key iterator into the constructor's arguments, so the result wraps `0` (or `[]`) instead of an index list. The model leaves it out.
- Callbacks with side effects, and the index and array arguments JavaScript passes to them, are not modelled.
- `pluck` and `sum` by property name: modelled with a selector function because the model has no dynamic property access.
- JavaScript `+` coercion and string concatenation in `sum`: the model sums integers only.
- Collections.Collection.Take: models only integer counts. A non-integer count truncated by `slice`, and a falsy non-numeric count, are not modelled.
- Collections.Flatten: elements must be either arrays or plain values. Nested Collections and array-like objects are not distinguished.
- Sparse arrays (holes) are not modelled.

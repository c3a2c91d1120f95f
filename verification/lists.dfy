/**
 * `Array.prototype.filter`, the one list operation behind every delete in the
 * pages, the CSV line filter, the day and account toggles and the queue's
 * job removal; and `xs.filter(x => key(x) !== k)`, the delete by id.
 */
module Lists {

  /** `xs.filter(keep)`: the elements that pass, in their order. */
  function Filter<T(!new)>(xs: seq<T>, keep: T -> bool): (r: seq<T>)
    ensures |r| <= |xs|
    ensures forall x :: x in r <==> x in xs && keep(x)
  {
    if xs == [] then []
    else if keep(xs[0]) then [xs[0]] + Filter(xs[1..], keep)
    else Filter(xs[1..], keep)
  }

  /** Filtering commutes with concatenation: the survivors keep their relative order. */
  lemma {:induction false} FilterAppend<T(!new)>(a: seq<T>, b: seq<T>, keep: T -> bool)
    ensures Filter(a + b, keep) == Filter(a, keep) + Filter(b, keep)
  {
    if a == [] {
      assert a + b == b;
    } else {
      assert (a + b)[0] == a[0] && (a + b)[1..] == a[1..] + b;
      FilterAppend(a[1..], b, keep);
    }
  }

  /** One element passes or is dropped. */
  lemma FilterOne<T(!new)>(x: T, keep: T -> bool)
    ensures Filter([x], keep) == if keep(x) then [x] else []
  {
    assert [x][1..] == [];
  }

  /** A list whose elements all pass is its own filter. */
  lemma {:induction false} FilterKeepsAll<T(!new)>(xs: seq<T>, keep: T -> bool)
    requires forall k :: 0 <= k < |xs| ==> keep(xs[k])
    ensures Filter(xs, keep) == xs
  {
    if xs != [] {
      FilterKeepsAll(xs[1..], keep);
    }
  }

  /** Every passing element keeps its number of copies, every other one has none left. */
  lemma {:induction false} FilterCount<T(!new)>(xs: seq<T>, keep: T -> bool, x: T)
    ensures multiset(Filter(xs, keep))[x] == if keep(x) then multiset(xs)[x] else 0
  {
    if xs != [] {
      FilterCount(xs[1..], keep, x);
      assert xs == [xs[0]] + xs[1..];
    }
  }

  /** Filtering twice by the same test removes nothing more. */
  lemma {:induction false} FilterTwice<T(!new)>(xs: seq<T>, keep: T -> bool)
    ensures Filter(Filter(xs, keep), keep) == Filter(xs, keep)
  {
    if xs != [] {
      FilterTwice(xs[1..], keep);
    }
  }

  /** `xs.filter(x => key(x) !== k)` */
  function RemoveKey<T(!new)>(xs: seq<T>, key: T -> string, k: string): (r: seq<T>)
    ensures |r| <= |xs|
    ensures forall x :: x in r <==> x in xs && key(x) != k
  {
    Filter(xs, x => key(x) != k)
  }

  /** Number of elements whose key is k. */
  function CountKey<T>(xs: seq<T>, key: T -> string, k: string): nat
  {
    if xs == [] then 0 else (if key(xs[0]) == k then 1 else 0) + CountKey(xs[1..], key, k)
  }

  /** The delete keeps the survivors in their order: it commutes with concatenation. */
  lemma RemoveKeyAppend<T(!new)>(a: seq<T>, b: seq<T>, key: T -> string, k: string)
    ensures RemoveKey(a + b, key, k) == RemoveKey(a, key, k) + RemoveKey(b, key, k)
  {
    FilterAppend(a, b, x => key(x) != k);
  }

  /** Exactly the elements with key k are dropped. */
  lemma {:induction false} RemoveKeyLength<T(!new)>(xs: seq<T>, key: T -> string, k: string)
    ensures |RemoveKey(xs, key, k)| + CountKey(xs, key, k) == |xs|
  {
    if xs != [] {
      RemoveKeyLength(xs[1..], key, k);
    }
  }
}

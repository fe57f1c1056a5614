/** Collections of stored documents: a document under its `_id`, lookup by
    `_id` as `findById` and the `findByIdAnd…` queries do it, and the
    order-keeping filter a `find` with a condition applies. */
module Collections {
  import opened Wrappers

  /** A stored document and its `_id`. */
  datatype Stored<T> = Stored(id: string, doc: T)

  /** No two documents share an `_id`, as the `_id` index guarantees. */
  predicate DistinctIds<T>(docs: seq<Stored<T>>) {
    forall j, k :: 0 <= j < k < |docs| ==> docs[j].id != docs[k].id
  }

  /** The position of the first document with `_id` `id`, if any. */
  function FindById<T>(docs: seq<Stored<T>>, id: string): (r: Option<nat>)
    ensures r.Some? ==> r.value < |docs| && docs[r.value].id == id
    ensures r.Some? ==> forall j :: 0 <= j < r.value ==> docs[j].id != id
    ensures r.None? ==> forall k :: 0 <= k < |docs| ==> docs[k].id != id
  {
    if |docs| == 0 then None
    else if docs[0].id == id then Some(0)
    else
      match FindById(docs[1..], id)
      case None => None
      case Some(k) => Some(k + 1)
  }

  /** The elements of `s` that satisfy `p`, in the order of `s`. */
  function Filter<T>(s: seq<T>, p: T -> bool): (r: seq<T>)
    ensures |r| <= |s|
    ensures forall k :: 0 <= k < |r| ==> p(r[k])
  {
    if |s| == 0 then []
    else
      var front := s[..|s| - 1];
      var last := s[|s| - 1];
      assert s == front + [last];
      Filter(front, p) + (if p(last) then [last] else [])
  }

  /** The filter keeps the order: filtering a concatenation concatenates the
      filtered parts. With `Filter([x], p)` being `[x]` or `[]` this fixes
      the result completely. */
  lemma {:induction false} FilterAppend<T>(a: seq<T>, b: seq<T>, p: T -> bool)
    ensures Filter(a + b, p) == Filter(a, p) + Filter(b, p)
    decreases |b|
  {
    if |b| > 0 {
      var front := b[..|b| - 1];
      var last := b[|b| - 1];
      var tail := if p(last) then [last] else [];
      var ab := a + b;
      assert ab[..|ab| - 1] == a + front;
      assert ab[|ab| - 1] == last;
      assert Filter(ab, p) == Filter(a + front, p) + tail;
      FilterAppend(a, front, p);
      assert Filter(b, p) == Filter(front, p) + tail;
    } else {
      assert a + b == a;
    }
  }

  /** The filter keeps each element that satisfies the condition as often as
      it occurs, and drops every other one. */
  lemma {:induction false} FilterCounts<T>(s: seq<T>, p: T -> bool, x: T)
    ensures multiset(Filter(s, p))[x] == if p(x) then multiset(s)[x] else 0
    decreases |s|
  {
    if |s| > 0 {
      var front := s[..|s| - 1];
      var last := s[|s| - 1];
      assert s == front + [last];
      FilterCounts(front, p, x);
    }
  }

  /** `FilterCounts` for every element at once. */
  lemma FilterMultiset<T(!new)>(s: seq<T>, p: T -> bool)
    ensures forall x :: multiset(Filter(s, p))[x] == if p(x) then multiset(s)[x] else 0
  {
    forall x {
      FilterCounts(s, p, x);
    }
  }

  /** An element is kept exactly when it occurs and satisfies the condition. */
  lemma FilterMembers<T>(s: seq<T>, p: T -> bool)
    ensures forall x :: x in Filter(s, p) <==> x in s && p(x)
  {
    forall x
      ensures x in Filter(s, p) <==> x in s && p(x)
    {
      FilterCounts(s, p, x);
      assert x in Filter(s, p) <==> multiset(Filter(s, p))[x] > 0;
      assert x in s <==> multiset(s)[x] > 0;
    }
  }

  /** The documents after position `k` move one place forward. */
  lemma SpliceIndices<T>(s: seq<T>, k: nat)
    requires k < |s|
    ensures forall j :: 0 <= j < |s| - 1 ==> (s[..k] + s[k + 1..])[j] == if j < k then s[j] else s[j + 1]
  {
  }

  /** Removing position `k` removes one occurrence of that element. */
  lemma SpliceMultiset<T>(s: seq<T>, k: nat)
    requires k < |s|
    ensures multiset(s) == multiset(s[..k] + s[k + 1..]) + multiset{s[k]}
  {
    assert s == s[..k] + [s[k]] + s[k + 1..];
  }

  /** The elements of `s`, last first. */
  function Reverse<T>(s: seq<T>): (r: seq<T>)
    ensures |r| == |s|
    ensures forall k :: 0 <= k < |s| ==> r[k] == s[|s| - 1 - k]
  {
    if |s| == 0 then [] else [s[|s| - 1]] + Reverse(s[..|s| - 1])
  }

  /** Reversing keeps every element with its multiplicity. */
  lemma {:induction false} ReverseMultiset<T>(s: seq<T>)
    ensures multiset(Reverse(s)) == multiset(s)
  {
    if |s| > 0 {
      ReverseMultiset(s[..|s| - 1]);
      assert s == s[..|s| - 1] + [s[|s| - 1]];
    }
  }
}

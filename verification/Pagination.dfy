/** The paging loop behind every filtered query, and what a client gets by paging through. */
module Pagination {
  import opened Prelude

  const MAX_QUERY_LIMIT: nat := 100

  /** The elements a query keeps, in storage order. */
  function Filter<T>(items: seq<T>, keep: T -> bool): seq<T> {
    if items == [] then []
    else Filter(items[..|items| - 1], keep) + if keep(items[|items| - 1]) then [items[|items| - 1]] else []
  }

  /** The positions, in increasing order, at which a list satisfies a test. */
  predicate Positions<T>(items: seq<T>, keep: T -> bool, at: seq<nat>) {
    && (forall j, k :: 0 <= j < k < |at| ==> at[j] < at[k])
    && (forall j :: 0 <= j < |at| ==> at[j] < |items| && keep(items[at[j]]))
    && (forall i :: 0 <= i < |items| && keep(items[i]) ==> i in at)
  }

  /** Main result: filtering keeps exactly the elements at the positions that satisfy the test, in
      their order: no other element, none twice, none missing. */
  lemma {:induction false} FilterKeepsExactly<T>(items: seq<T>, keep: T -> bool) returns (at: seq<nat>)
    ensures Positions(items, keep, at)
    ensures |Filter(items, keep)| == |at| && forall j :: 0 <= j < |at| ==> Filter(items, keep)[j] == items[at[j]]
  {
    if items == [] {
      at := [];
    } else {
      var n := |items| - 1;
      var front := items[..n];
      at := FilterKeepsExactly(front, keep);
      assert forall i :: 0 <= i < n ==> front[i] == items[i];
      if keep(items[n]) {
        at := at + [n];
      }
    }
  }

  /** Main result: a page holds the elements of the slice and no others: element j of the page is
      element offset + j of the list, and the page is full unless the list ends. */
  lemma SliceHolds<T>(s: seq<T>, offset: nat, limit: nat)
    ensures |Slice(s, offset, limit)| == if offset >= |s| then 0 else Min(limit, |s| - offset)
    ensures forall j :: 0 <= j < |Slice(s, offset, limit)| ==> Slice(s, offset, limit)[j] == s[offset + j]
  {
  }

  function Slice<T>(s: seq<T>, offset: nat, limit: nat): seq<T> {
    if offset >= |s| then []
    else if offset + limit >= |s| then s[offset..]
    else s[offset..offset + limit]
  }

  function Capped(limit: nat): nat {
    if limit < MAX_QUERY_LIMIT then limit else MAX_QUERY_LIMIT
  }

  lemma {:induction false} FilterGrows<T>(items: seq<T>, keep: T -> bool, i: nat)
    requires i <= |items|
    ensures Filter(items[..i], keep) <= Filter(items, keep)
    decreases |items|
  {
    if i == |items| {
      assert items[..i] == items;
    } else {
      assert items[..|items| - 1][..i] == items[..i];
      FilterGrows(items[..|items| - 1], keep, i);
    }
  }

  /** Skips the first `offset` kept elements and collects up to `limit` more. */
  method FilterPage<T>(items: seq<T>, keep: T -> bool, offset: nat, limit: nat) returns (page: seq<T>)
    ensures page == Slice(Filter(items, keep), offset, limit)
  {
    page := [];
    var count, skipped := 0, 0;
    var i := 0;
    while i < |items| && count < limit
      invariant 0 <= i <= |items|
      invariant count == |page| <= limit && skipped <= offset && (count > 0 ==> skipped == offset)
      invariant skipped + count == |Filter(items[..i], keep)|
      invariant page == Filter(items[..i], keep)[skipped..]
    {
      assert items[..i + 1][..i] == items[..i];
      if keep(items[i]) {
        if skipped < offset {
          skipped := skipped + 1;
        } else {
          page := page + [items[i]];
          count := count + 1;
        }
      }
      i := i + 1;
    }
    FilterGrows(items, keep, i);
    assert items[..|items|] == items;
  }

  /** The raw page, by storage position. */
  method RawPage<T>(items: seq<T>, offset: U32, limit: U32) returns (page: seq<T>)
    ensures page == Slice(items, offset, Capped(limit))
  {
    var size := if limit < MAX_QUERY_LIMIT then limit else MAX_QUERY_LIMIT;
    page := [];
    if size == 0 || offset >= |items| {
      return;
    }
    var end := if offset + size < |items| then offset + size else |items|;
    for i := offset to end
      invariant page == items[offset..i]
    {
      page := page + [items[i]];
    }
  }

  /** What a client collects by asking for `k` pages at offsets 0, step, 2 step, ..., of which the
      contract returns at most `size` elements each. */
  function Walk<T>(s: seq<T>, step: nat, size: nat, k: nat): seq<T> {
    if k == 0 then [] else Walk(s, step, size, k - 1) + Slice(s, (k - 1) * step, size)
  }

  lemma {:induction false} WalkBySize<T>(s: seq<T>, size: nat, k: nat)
    ensures Walk(s, size, size, k) == if k * size <= |s| then s[..k * size] else s
  {
    if k == 0 {
    } else {
      WalkBySize(s, size, k - 1);
      assert k * size == (k - 1) * size + size;
    }
  }

  lemma {:induction false} WalkShort<T>(s: seq<T>, step: nat, size: nat, k: nat)
    requires |s| <= size && 0 < k && |s| <= step
    ensures Walk(s, step, size, k) == s
  {
    if k == 1 {
      assert Walk(s, step, size, 0) == [];
    } else {
      WalkShort(s, step, size, k - 1);
      WholeSteps(k - 1, step);
      assert Slice(s, (k - 1) * step, size) == [];
    }
  }

  lemma WholeSteps(k: nat, step: nat)
    requires k > 0
    ensures k * step >= step
  {
  }

  lemma {:induction false} WalkMisses<T>(s: seq<T>, step: nat, size: nat, k: nat)
    requires size < step && size < |s| && 0 < k
    ensures |Walk(s, step, size, k)| < |s| && |Walk(s, step, size, k)| < k * step
  {
    if k == 1 {
      assert Walk(s, step, size, 0) == [];
    } else {
      WalkMisses(s, step, size, k - 1);
      assert k * step == (k - 1) * step + step;
    }
  }

  /** Main result: paging through a capped query in steps of the requested limit rebuilds the filtered
      list, with no gap and no repeat, exactly when the limit does not exceed the cap or the list
      fits one page; a larger limit silently loses what lies between the cap and the next offset. */
  lemma CappedPagesRebuild<T>(items: seq<T>, keep: T -> bool, limit: nat, k: nat)
    requires limit > 0 && k > 0 && k * limit >= |Filter(items, keep)|
    ensures Walk(Filter(items, keep), limit, Capped(limit), k) == Filter(items, keep)
            <==> limit <= 100 || |Filter(items, keep)| <= 100
  {
    var s := Filter(items, keep);
    if limit <= MAX_QUERY_LIMIT {
      WalkBySize(s, limit, k);
    } else if |s| <= MAX_QUERY_LIMIT {
      WalkShort(s, limit, MAX_QUERY_LIMIT, k);
    } else {
      WalkMisses(s, limit, MAX_QUERY_LIMIT, k);
    }
  }

  /** Main result: the uncapped queries can be paged through with any positive limit. */
  lemma UncappedPagesRebuild<T>(items: seq<T>, keep: T -> bool, limit: nat, k: nat)
    requires k * limit >= |Filter(items, keep)|
    ensures Walk(Filter(items, keep), limit, limit, k) == Filter(items, keep)
  {
    WalkBySize(Filter(items, keep), limit, k);
  }
}

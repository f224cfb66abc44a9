/**
 The dedup tracker of `fetch_tweets_v2`: the module-level set of processed ids,
 the comprehension that keeps the fetched posts not yet in it, and the loop that
 then adds the kept ids to it.
 */
module Dedup {
  import opened Items

  /** `a` is `b` with some elements dropped, order kept. */
  predicate IsSubsequence<T(==)>(a: seq<T>, b: seq<T>)
    decreases |b|
  {
    if |a| == 0 then true
    else if |b| == 0 then false
    else if a[0] == b[0] then IsSubsequence(a[1..], b[1..])
    else IsSubsequence(a, b[1..])
  }

  /**
   The posts of `batch` whose id is not in `seen`, in fetched order. Every post
   is tested against the same `seen`, so two copies of one unseen id both pass.
   */
  function FreshItems(batch: seq<Item>, seen: set<int>): (r: seq<Item>)
    ensures IsSubsequence(r, batch)
    ensures forall i :: 0 <= i < |r| ==> r[i].id !in seen
    ensures forall x :: x in batch && x.id !in seen ==> x in r
  {
    if |batch| == 0 then []
    else
      var rest := FreshItems(batch[1..], seen);
      assert batch == [batch[0]] + batch[1..];
      if batch[0].id in seen then
        assert |rest| > 0 ==> rest[0].id !in seen;
        rest
      else
        var r := [batch[0]] + rest;
        assert r[1..] == rest;
        r
  }

  /** How many times `x` occurs in `s`. */
  function Occurrences(s: seq<Item>, x: Item): nat
  {
    if |s| == 0 then 0 else (if s[0] == x then 1 else 0) + Occurrences(s[1..], x)
  }

  /**
   Each post is kept exactly as many times as the response holds it when its
   id is unseen, and not at all otherwise.
   */
  lemma {:induction false} FreshItemsCounts(batch: seq<Item>, seen: set<int>, x: Item)
    ensures Occurrences(FreshItems(batch, seen), x) == (if x.id in seen then 0 else Occurrences(batch, x))
  {
    if |batch| > 0 {
      FreshItemsCounts(batch[1..], seen, x);
      var rest := FreshItems(batch[1..], seen);
      if batch[0].id !in seen {
        assert ([batch[0]] + rest)[1..] == rest;
      }
    }
  }

  /** What one successful fetch leaves behind: the new posts and the grown set. */
  datatype Filtered = Filtered(items: seq<Item>, seen: set<int>)

  /**
   Lines 189-198: an absent or empty response yields nothing and leaves the set
   alone; otherwise the fresh posts are returned and their ids marked processed.
   */
  function ProcessBatch(data: Option<seq<Item>>, seen: set<int>): (r: Filtered)
    ensures data.None? || data.value == [] ==> r == Filtered([], seen)
    ensures data.Some? ==> IsSubsequence(r.items, data.value)
    ensures forall i :: 0 <= i < |r.items| ==> r.items[i].id !in seen
    ensures data.Some? ==> forall x :: x in data.value && x.id !in seen ==> x in r.items
    ensures r.seen == seen + IdsOf(r.items)
  {
    if data.None? || data.value == [] then Filtered([], seen)
    else
      var kept := FreshItems(data.value, seen);
      Filtered(kept, seen + IdsOf(kept))
  }

  /**
   A response is filtered post by post: each post comes back as many times as
   the response holds it when its id is unseen, duplicates included, and never
   otherwise.
   */
  lemma ProcessBatchCounts(data: Option<seq<Item>>, seen: set<int>, x: Item)
    requires data.Some?
    ensures Occurrences(ProcessBatch(data, seen).items, x)
            == (if x.id in seen then 0 else Occurrences(data.value, x))
  {
    FreshItemsCounts(data.value, seen, x);
  }

  /** A post whose id is already in `seen` is never kept. */
  lemma {:induction false} FreshItemsEmptyWhenAllSeen(batch: seq<Item>, seen: set<int>)
    requires forall i :: 0 <= i < |batch| ==> batch[i].id in seen
    ensures FreshItems(batch, seen) == []
  {
    if |batch| > 0 {
      FreshItemsEmptyWhenAllSeen(batch[1..], seen);
    }
  }

  /**
   Idempotence: handing the same response to the filter again straight away
   returns nothing and leaves the set as the first call left it.
   */
  lemma ProcessBatchIdempotent(data: Option<seq<Item>>, seen: set<int>)
    ensures var first := ProcessBatch(data, seen);
            ProcessBatch(data, first.seen) == Filtered([], first.seen)
  {
    var first := ProcessBatch(data, seen);
    if data.Some? && data.value != [] {
      var batch := data.value;
      forall i | 0 <= i < |batch| ensures batch[i].id in first.seen {
        if batch[i].id !in seen {
          assert batch[i] in first.items;
        }
      }
      FreshItemsEmptyWhenAllSeen(batch, first.seen);
    }
  }

  /** A response holding one unseen post returns it and marks its id. */
  lemma SingleNewPost(a: Item, seen: set<int>)
    requires a.id !in seen
    ensures ProcessBatch(Some([a]), seen) == Filtered([a], seen + {a.id})
  {
    assert [a][1..] == [];
    forall x | x in IdsOf([a]) ensures x == a.id {
      var i :| 0 <= i < 1 && [a][i].id == x;
    }
    assert [a][0].id in IdsOf([a]);
    assert forall x :: x in IdsOf([a]) <==> x in {a.id};
  }

  /** Two copies of one unseen id in a single response are both returned. */
  lemma DuplicateInBatchBothPass(a: Item, seen: set<int>)
    requires a.id !in seen
    ensures ProcessBatch(Some([a, a]), seen).items == [a, a]
  {
    assert [a, a][1..] == [a];
    assert FreshItems([a], seen) == [a];
  }
}

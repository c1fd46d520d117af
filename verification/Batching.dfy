/** Splitting a list into consecutive batches, as every enqueueing loop of the system does. */
module Batching {

  function Chunk<T>(items: seq<T>, size: nat): (chunks: seq<seq<T>>)
    requires size > 0
    decreases |items|
  {
    if items == [] then []
    else if |items| <= size then [items]
    else [items[..size]] + Chunk(items[size..], size)
  }

  function Concat<T>(chunks: seq<seq<T>>): seq<T> {
    if chunks == [] then [] else chunks[0] + Concat(chunks[1..])
  }

  /** Chunks lose nothing, keep the order, are never empty, and only the last may be short. */
  lemma {:induction false} ChunkIsExact<T>(items: seq<T>, size: nat)
    requires size > 0
    ensures Concat(Chunk(items, size)) == items
    ensures forall i :: 0 <= i < |Chunk(items, size)| ==> 0 < |Chunk(items, size)[i]| <= size
    ensures forall i :: 0 <= i < |Chunk(items, size)| - 1 ==> |Chunk(items, size)[i]| == size
    decreases |items|
  {
    if items == [] {
    } else if |items| <= size {
      assert Concat([items]) == items + Concat([]);
    } else {
      ChunkIsExact(items[size..], size);
      var rest := Chunk(items[size..], size);
      var chunks := Chunk(items, size);
      assert chunks[1..] == rest && chunks[0] == items[..size];
    }
  }

  lemma {:induction false} ConcatSnoc<T>(chunks: seq<seq<T>>, last: seq<T>)
    ensures Concat(chunks + [last]) == Concat(chunks) + last
  {
    if chunks == [] {
      assert chunks + [last] == [last];
      assert Concat([last]) == last + Concat([]);
    } else {
      assert (chunks + [last])[1..] == chunks[1..] + [last];
      ConcatSnoc(chunks[1..], last);
    }
  }

  lemma {:induction false} ConcatAppend<T>(first: seq<seq<T>>, second: seq<seq<T>>)
    ensures Concat(first + second) == Concat(first) + Concat(second)
  {
    if first == [] {
      assert first + second == second;
    } else {
      assert (first + second)[1..] == first[1..] + second;
      ConcatAppend(first[1..], second);
    }
  }

  /** The batches still to be cut once everything before `start` is done. */
  function Remaining<T>(items: seq<T>, size: nat, start: nat): seq<seq<T>>
    requires size > 0
  {
    if start >= |items| then [] else Chunk(items[start..], size)
  }

  lemma RemainingStep<T>(items: seq<T>, size: nat, start: nat, end: nat)
    requires size > 0 && start < |items|
    requires end == if start + size > |items| then |items| else start + size
    ensures Remaining(items, size, start) == [items[start..end]] + Remaining(items, size, start + size)
  {
    var tail := items[start..];
    if |tail| > size {
      assert tail[..size] == items[start..end] && tail[size..] == items[end..];
    } else {
      assert tail == items[start..end];
    }
  }

  /** Batches for one list; a size that is not positive means one batch holding everything. */
  method Batches<T>(items: seq<T>, size: int) returns (batches: seq<seq<T>>)
    ensures Concat(batches) == items
    ensures size > 0 ==> batches == Chunk(items, size)
    ensures size <= 0 ==> batches == if items == [] then [] else [items]
  {
    if |items| == 0 {
      return [];
    }
    var limit: nat := if size <= 0 then |items| else size;
    ChunkIsExact(items, limit);
    batches := [];
    var start := 0;
    assert items[0..] == items;
    while start < |items|
      invariant 0 <= start
      invariant Chunk(items, limit) == batches + Remaining(items, limit, start)
    {
      var end := if start + limit > |items| then |items| else start + limit;
      RemainingStep(items, limit, start, end);
      batches := batches + [items[start..end]];
      start := start + limit;
    }
    assert batches == Chunk(items, limit);
  }
}

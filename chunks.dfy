/**
 * The file-splitting rule of `TodoistExport.export`: top-level tasks are
 * written one after the other, each with the size of its subtree, and a new
 * part file is started whenever the next task would take the current part
 * over the limit.
 */
module Chunks {

  /** The parts written so far and `n`, the size of the part being written. */
  datatype Layout<T> = Layout(parts: seq<seq<(T, nat)>>, n: nat)

  /** The total size of the items of a part. */
  function Size<T>(part: seq<(T, nat)>): nat
    decreases |part|
  {
    if part == [] then 0 else Size(part[..|part| - 1]) + part[|part| - 1].1
  }

  /** The parts one after the other. */
  function Flatten<T>(parts: seq<seq<(T, nat)>>): seq<(T, nat)>
    decreases |parts|
  {
    if parts == [] then [] else Flatten(parts[..|parts| - 1]) + parts[|parts| - 1]
  }

  /**
   * One turn of the loop: an item whose size added to `n` exceeds the limit
   * opens a new part with `n` reset; then the item is written to the
   * current part and its size added to `n`.
   */
  function Place<T>(prev: Layout<T>, x: (T, nat), limit: nat): (r: Layout<T>)
    requires |prev.parts| >= 1
    ensures |r.parts| >= 1
  {
    var last := |prev.parts| - 1;
    if x.1 + prev.n > limit then Layout(prev.parts + [[x]], x.1)
    else Layout(prev.parts[..last] + [prev.parts[last] + [x]], prev.n + x.1)
  }

  /** The loop of `export` over the top-level tasks of one folder, from one empty part and `n = 0`. */
  function Chunk<T>(items: seq<(T, nat)>, limit: nat): (r: Layout<T>)
    ensures |r.parts| >= 1
    decreases |items|
  {
    if items == [] then Layout([[]], 0)
    else Place(Chunk(items[..|items| - 1], limit), items[|items| - 1], limit)
  }

  lemma ChunkSnoc<T>(init: seq<(T, nat)>, x: (T, nat), limit: nat)
    ensures Chunk(init + [x], limit) == Place(Chunk(init, limit), x, limit)
  {
    assert (init + [x])[..|init|] == init;
  }

  lemma SizeSnoc<T>(part: seq<(T, nat)>, x: (T, nat))
    ensures Size(part + [x]) == Size(part) + x.1
  {
    assert (part + [x])[..|part|] == part;
  }

  lemma FlattenSnoc<T>(parts: seq<seq<(T, nat)>>, p: seq<(T, nat)>)
    ensures Flatten(parts + [p]) == Flatten(parts) + p
  {
    assert (parts + [p])[..|parts|] == parts;
  }

  /** The counter `n` is always the size of the part being written. */
  lemma {:induction false} ChunkCounts<T>(items: seq<(T, nat)>, limit: nat)
    ensures var r := Chunk(items, limit); r.n == Size(r.parts[|r.parts| - 1])
    decreases |items|
  {
    if items != [] {
      var init, x := items[..|items| - 1], items[|items| - 1];
      ChunkCounts(init, limit);
      var prev := Chunk(init, limit);
      var last := |prev.parts| - 1;
      SizeSnoc(prev.parts[last], x);
      SizeSnoc([], x);
    }
  }

  /** Adding an item to the last part adds it to the end of the flattened parts. */
  lemma FlattenExtend<T>(parts: seq<seq<(T, nat)>>, x: (T, nat))
    requires |parts| >= 1
    ensures var last := |parts| - 1;
      Flatten(parts[..last] + [parts[last] + [x]]) == Flatten(parts) + [x]
  {
    var last := |parts| - 1;
    var front, p := parts[..last], parts[last];
    assert Flatten(parts) == Flatten(front) + p;
    FlattenSnoc(front, p + [x]);
  }

  /** Splitting loses, adds and reorders nothing: the parts one after the other are the items. */
  lemma {:induction false} ChunkFlatten<T>(items: seq<(T, nat)>, limit: nat)
    ensures Flatten(Chunk(items, limit).parts) == items
    decreases |items|
  {
    if items != [] {
      var init, x := items[..|items| - 1], items[|items| - 1];
      ChunkFlatten(init, limit);
      var prev := Chunk(init, limit);
      if x.1 + prev.n > limit {
        FlattenSnoc(prev.parts, [x]);
      } else {
        FlattenExtend(prev.parts, x);
      }
      assert init + [x] == items;
    }
  }

  lemma {:induction false} FlattenContains<T>(parts: seq<seq<(T, nat)>>, j: nat, i: nat)
    requires j < |parts| && i < |parts[j]|
    ensures parts[j][i] in Flatten(parts)
    decreases |parts|
  {
    var init := parts[..|parts| - 1];
    if j < |parts| - 1 {
      FlattenContains(init, j, i);
    }
  }

  /** Every item of every part is one of the items. */
  lemma ChunkMembers<T>(items: seq<(T, nat)>, limit: nat)
    ensures var parts := Chunk(items, limit).parts;
      forall j, i :: 0 <= j < |parts| && 0 <= i < |parts[j]| ==> parts[j][i] in items
  {
    var parts := Chunk(items, limit).parts;
    ChunkFlatten(items, limit);
    forall j, i | 0 <= j < |parts| && 0 <= i < |parts[j]|
      ensures parts[j][i] in items
    {
      FlattenContains(parts, j, i);
    }
  }

  /**
   * What the rule guarantees about the parts: every part after the first
   * is non-empty; a part stays within the limit unless it is a single item
   * that alone exceeds it (and the first part always does); and no part was
   * closed early: the first item of each part would have taken the previous
   * part over the limit.
   */
  ghost predicate Greedy<T>(parts: seq<seq<(T, nat)>>, limit: nat) {
    && |parts| >= 1
    && Size(parts[0]) <= limit
    && (forall j :: 0 < j < |parts| ==> parts[j] != [])
    && (forall j :: 0 < j < |parts| ==> Size(parts[j]) <= limit || |parts[j]| == 1)
    && (forall j :: 0 < j < |parts| ==> Size(parts[j - 1]) + parts[j][0].1 > limit)
  }

  lemma OpenGreedy<T>(prev: Layout<T>, x: (T, nat), limit: nat)
    requires Greedy(prev.parts, limit)
    requires prev.n == Size(prev.parts[|prev.parts| - 1])
    requires x.1 + prev.n > limit
    ensures Greedy(Place(prev, x, limit).parts, limit)
  {
    var parts := Place(prev, x, limit).parts;
    assert parts == prev.parts + [[x]];
    SizeSnoc([], x);
    assert [] + [x] == [x];
    assert forall j :: 0 <= j < |prev.parts| ==> parts[j] == prev.parts[j];
  }

  lemma ExtendGreedy<T>(prev: Layout<T>, x: (T, nat), limit: nat)
    requires Greedy(prev.parts, limit)
    requires prev.n == Size(prev.parts[|prev.parts| - 1])
    requires x.1 + prev.n <= limit
    ensures Greedy(Place(prev, x, limit).parts, limit)
  {
    var last := |prev.parts| - 1;
    var parts := Place(prev, x, limit).parts;
    assert parts == prev.parts[..last] + [prev.parts[last] + [x]];
    assert forall j :: 0 <= j < last ==> parts[j] == prev.parts[j];
    SizeSnoc(prev.parts[last], x);
    assert Size(parts[last]) <= limit;
    assert last > 0 ==> parts[last][0] == prev.parts[last][0];
  }

  /** The parts `Chunk` produces satisfy `Greedy`. */
  lemma {:induction false} ChunkGreedy<T>(items: seq<(T, nat)>, limit: nat)
    ensures Greedy(Chunk(items, limit).parts, limit)
    decreases |items|
  {
    if items == [] {
      assert Chunk(items, limit).parts == [[]];
    } else {
      var init, x := items[..|items| - 1], items[|items| - 1];
      ChunkGreedy(init, limit);
      ChunkCounts(init, limit);
      var prev := Chunk(init, limit);
      if x.1 + prev.n > limit {
        OpenGreedy(prev, x, limit);
      } else {
        ExtendGreedy(prev, x, limit);
      }
    }
  }

  /** Items within the limit fill the first part until the next one would overflow it. */
  lemma ChunkExample()
    ensures Chunk([("a", 50), ("b", 60), ("c", 30)], 100).parts == [[("a", 50)], [("b", 60), ("c", 30)]]
  {
    var a: (string, nat), b: (string, nat), c: (string, nat) := ("a", 50), ("b", 60), ("c", 30);
    var e: seq<(string, nat)> := [];
    ChunkSnoc(e, a, 100);
    assert e + [a] == [a];
    assert Chunk([a], 100) == Layout([[a]], 50);
    ChunkSnoc([a], b, 100);
    assert [a] + [b] == [a, b];
    assert Chunk([a, b], 100) == Layout([[a], [b]], 60);
    ChunkSnoc([a, b], c, 100);
    assert [a, b] + [c] == [a, b, c];
    assert [[a], [b]][..1] == [[a]] && [b] + [c] == [b, c];
  }

  /** A first task larger than the limit leaves the first part file empty. */
  lemma ChunkOversizedFirst()
    ensures Chunk([("a", 130)], 120).parts == [[], [("a", 130)]]
  {
    var e: seq<(string, nat)> := [];
    ChunkSnoc(e, ("a", 130), 120);
    assert e + [("a", 130)] == [("a", 130)];
  }
}

/**
 The iterators of a chunked index set: over the ranges stored in chunks, and over the single
 indices in those ranges.
 */
module IndexSet {
  import opened Schema

  datatype Range = Range(first: nat, second: nat)

  datatype Chunk = Chunk(data: seq<Range>)

  // ---- The set a chunked vector stands for ----

  function Flatten(chunks: seq<Chunk>): seq<Range> {
    if chunks == [] then [] else chunks[0].data + Flatten(chunks[1..])
  }

  function Span(r: Range): seq<nat> {
    if r.first <= r.second then seq(r.second - r.first, i requires 0 <= i => r.first + i) else []
  }

  function Expand(ranges: seq<Range>): seq<nat> {
    if ranges == [] then [] else Span(ranges[0]) + Expand(ranges[1..])
  }

  // Chunks and ranges are not empty, and ranges are in ascending order without overlap.
  predicate WellFormed(chunks: seq<Chunk>) {
    && (forall k | 0 <= k < |chunks| :: chunks[k].data != [])
    && Ascending(Flatten(chunks))
  }

  predicate Ascending(ranges: seq<Range>) {
    && (forall i | 0 <= i < |ranges| :: ranges[i].first < ranges[i].second)
    && (forall i, j | 0 <= i < j < |ranges| :: ranges[i].second <= ranges[j].first)
  }

  lemma {:induction false} FlattenSplit(chunks: seq<Chunk>, k: nat)
    requires k <= |chunks|
    ensures Flatten(chunks) == Flatten(chunks[..k]) + Flatten(chunks[k..])
    decreases k
  {
    if k == 0 {
      assert chunks[..0] == [] && chunks[0..] == chunks;
    } else {
      FlattenSplit(chunks[1..], k - 1);
      assert chunks[..k][1..] == chunks[1..][..k - 1];
      assert chunks[1..][k - 1..] == chunks[k..];
    }
  }

  lemma FlattenChunk(chunks: seq<Chunk>, k: nat)
    requires k < |chunks|
    ensures Flatten(chunks[..k + 1]) == Flatten(chunks[..k]) + chunks[k].data
  {
    FlattenSplit(chunks[..k + 1], k);
    assert chunks[..k + 1][..k] == chunks[..k];
    assert chunks[..k + 1][k..] == [chunks[k]];
    assert Flatten([chunks[k]]) == chunks[k].data + Flatten([]);
  }

  lemma FlattenAt(chunks: seq<Chunk>, k: nat, i: nat)
    requires k < |chunks| && i < |chunks[k].data|
    ensures |Flatten(chunks[..k])| + i < |Flatten(chunks)|
        && Flatten(chunks)[|Flatten(chunks[..k])| + i] == chunks[k].data[i]
  {
    FlattenChunk(chunks, k);
    FlattenSplit(chunks, k + 1);
  }

  lemma AppendAssociates<T>(a: seq<T>, b: seq<T>, c: seq<T>)
    ensures a + (b + c) == a + b + c
  {
  }

  lemma {:induction false} ExpandConcat(a: seq<Range>, b: seq<Range>)
    ensures Expand(a + b) == Expand(a) + Expand(b)
    decreases a
  {
    if a == [] {
      assert a + b == b;
    } else {
      ExpandHead(a + b, a[0], a[1..] + b);
      ExpandHead(a, a[0], a[1..]);
      hide Expand, Span;
      ExpandConcat(a[1..], b);
      AppendAssociates(Span(a[0]), Expand(a[1..]), Expand(b));
    }
  }

  lemma ExpandHead(ranges: seq<Range>, head: Range, tail: seq<Range>)
    requires ranges == [head] + tail
    ensures Expand(ranges) == Span(head) + Expand(tail)
  {
    hide Span;
    assert ranges[1..] == tail;
  }

  lemma ExpandOne(r: Range)
    ensures Expand([r]) == Span(r)
  {
    assert [r][1..] == [];
    assert Span(r) + [] == Span(r);
  }

  lemma ExpandUpTo(ranges: seq<Range>, k: nat)
    requires k < |ranges|
    ensures Expand(ranges[..k + 1]) == Expand(ranges[..k]) + Span(ranges[k])
  {
    hide Span, Expand;
    ExpandConcat(ranges[..k], [ranges[k]]);
    ExpandOne(ranges[k]);
    assert ranges[..k + 1] == ranges[..k] + [ranges[k]];
  }

  lemma ExpandRange(ranges: seq<Range>, k: nat)
    requires k < |ranges|
    ensures Expand(ranges[..k + 1]) == Expand(ranges[..k]) + Span(ranges[k])
    ensures Expand(ranges) == Expand(ranges[..k]) + Span(ranges[k]) + Expand(ranges[k + 1..])
  {
    hide Span, Expand;
    ExpandUpTo(ranges, k);
    ExpandConcat(ranges[..k + 1], ranges[k + 1..]);
    assert ranges == ranges[..k + 1] + ranges[k + 1..];
  }

  // ---- Positions ----

  // The end position has no inner pointer.
  datatype Cursor = Cursor(outer: nat, inner: Option<nat>)

  predicate ValidCursor(chunks: seq<Chunk>, p: Cursor) {
    if p.inner.Some? then p.outer < |chunks| && p.inner.value < |chunks[p.outer].data|
    else p.outer == |chunks|
  }

  function Begin(chunks: seq<Chunk>): Cursor {
    if chunks == [] then End(chunks) else Cursor(0, Some(0))
  }

  function End(chunks: seq<Chunk>): Cursor {
    Cursor(|chunks|, None)
  }

  // The number of ranges before a position.
  function Rank(chunks: seq<Chunk>, p: Cursor): nat
    requires ValidCursor(chunks, p)
  {
    if p.inner.Some? then |Flatten(chunks[..p.outer])| + p.inner.value else |Flatten(chunks)|
  }

  lemma RankInRange(chunks: seq<Chunk>, p: Cursor)
    requires ValidCursor(chunks, p) && p.inner.Some?
    ensures Rank(chunks, p) < |Flatten(chunks)|
    ensures Flatten(chunks)[Rank(chunks, p)] == chunks[p.outer].data[p.inner.value]
  {
    FlattenAt(chunks, p.outer, p.inner.value);
  }

  lemma {:induction false} FlattenMonotone(chunks: seq<Chunk>, j: nat, k: nat)
    requires j <= k <= |chunks|
    ensures |Flatten(chunks[..j])| <= |Flatten(chunks[..k])|
    decreases k - j
  {
    if j < k {
      FlattenChunk(chunks, k - 1);
      FlattenMonotone(chunks, j, k - 1);
    }
  }

  lemma RankOrder(chunks: seq<Chunk>, p: Cursor, q: Cursor)
    requires ValidCursor(chunks, p) && ValidCursor(chunks, q) && p.inner.Some? && q.inner.Some? && p.outer < q.outer
    ensures Rank(chunks, p) < Rank(chunks, q)
  {
    FlattenChunk(chunks, p.outer);
    FlattenMonotone(chunks, p.outer + 1, q.outer);
  }

  // A position is determined by its rank.
  lemma RankInjective(chunks: seq<Chunk>, p: Cursor, q: Cursor)
    requires ValidCursor(chunks, p) && ValidCursor(chunks, q) && Rank(chunks, p) == Rank(chunks, q)
    ensures p == q
  {
    hide Flatten;
    if p.inner.Some? {
      RankInRange(chunks, p);
    }
    if q.inner.Some? {
      RankInRange(chunks, q);
    }
    if p.inner.Some? && q.inner.Some? {
      if p.outer < q.outer {
        RankOrder(chunks, p, q);
      } else if q.outer < p.outer {
        RankOrder(chunks, q, p);
      }
    }
  }

  // ---- The iterator over ranges ----

  function Forward(chunks: seq<Chunk>, p: Cursor): Cursor
    requires ValidCursor(chunks, p) && p.inner.Some?
  {
    if p.inner.value + 1 == |chunks[p.outer].data| then
      if p.outer + 1 == |chunks| then End(chunks) else Cursor(p.outer + 1, Some(0))
    else Cursor(p.outer, Some(p.inner.value + 1))
  }

  lemma ForwardRank(chunks: seq<Chunk>, p: Cursor)
    requires WellFormed(chunks) && ValidCursor(chunks, p) && p.inner.Some?
    ensures ValidCursor(chunks, Forward(chunks, p)) && Rank(chunks, Forward(chunks, p)) == Rank(chunks, p) + 1
  {
    FlattenChunk(chunks, p.outer);
    assert chunks[..|chunks|] == chunks;
  }

  function Backward(chunks: seq<Chunk>, p: Cursor): Cursor
    requires WellFormed(chunks) && ValidCursor(chunks, p) && p != Begin(chunks)
  {
    if p.inner.None? || p.inner.value == 0 then Cursor(p.outer - 1, Some(|chunks[p.outer - 1].data| - 1))
    else Cursor(p.outer, Some(p.inner.value - 1))
  }

  lemma BackwardRank(chunks: seq<Chunk>, p: Cursor)
    requires WellFormed(chunks) && ValidCursor(chunks, p) && p != Begin(chunks)
    ensures ValidCursor(chunks, Backward(chunks, p)) && Backward(chunks, p).inner.Some?
    ensures Rank(chunks, Backward(chunks, p)) == Rank(chunks, p) - 1
  {
    if p.inner.None? || p.inner.value == 0 {
      FlattenChunk(chunks, p.outer - 1);
      assert chunks[..|chunks|] == chunks;
    }
  }

  /** Stepping back undoes stepping forward, across chunk boundaries and from the end. */
  lemma BackwardUndoesForward(chunks: seq<Chunk>, p: Cursor)
    requires WellFormed(chunks) && ValidCursor(chunks, p) && p.inner.Some?
    ensures Forward(chunks, p) != Begin(chunks) && Backward(chunks, Forward(chunks, p)) == p
  {
    ForwardRank(chunks, p);
    assert Rank(chunks, Forward(chunks, p)) > 0;
    assert chunks[..0] == [];
    BackwardRank(chunks, Forward(chunks, p));
    RankInjective(chunks, Backward(chunks, Forward(chunks, p)), p);
  }

  /** Stepping forward undoes stepping back. */
  lemma ForwardUndoesBackward(chunks: seq<Chunk>, p: Cursor)
    requires WellFormed(chunks) && ValidCursor(chunks, p) && p != Begin(chunks)
    ensures Forward(chunks, Backward(chunks, p)) == p
  {
    BackwardRank(chunks, p);
    ForwardRank(chunks, Backward(chunks, p));
    RankInjective(chunks, Forward(chunks, Backward(chunks, p)), p);
  }

  class ChunkedRangeVectorIterator {
    const chunks: seq<Chunk>
    var outer: nat
    var inner: Option<nat>

    ghost predicate Valid()
      reads this
    {
      WellFormed(chunks) && ValidCursor(chunks, Position())
    }

    ghost function Position(): Cursor
      reads this
    {
      Cursor(outer, inner)
    }

    constructor (chunks: seq<Chunk>)
      requires WellFormed(chunks)
      ensures Valid() && this.chunks == chunks && Position() == Begin(chunks)
    {
      this.chunks := chunks;
      outer := 0;
      inner := if chunks == [] then None else Some(0);
    }

    method Deref() returns (r: Range)
      requires Valid() && inner.Some?
      ensures Rank(chunks, Position()) < |Flatten(chunks)| && r == Flatten(chunks)[Rank(chunks, Position())]
    {
      RankInRange(chunks, Position());
      r := chunks[outer].data[inner.value];
    }

    method NextChunk()
      requires WellFormed(chunks) && outer < |chunks|
      modifies this
      ensures Valid() && outer == old(outer) + 1
      ensures inner == if outer == |chunks| then None else Some(0)
    {
      outer := outer + 1;
      inner := if outer != |chunks| then Some(0) else None;
    }

    method Next()
      requires Valid() && inner.Some?
      modifies this
      ensures Valid() && Position() == Forward(chunks, old(Position()))
    {
      inner := Some(inner.value + 1);
      if inner.value == |chunks[outer].data| {
        NextChunk();
      }
    }

    method Previous()
      requires Valid() && Position() != Begin(chunks)
      modifies this
      ensures Valid() && Position() == Backward(chunks, old(Position()))
    {
      if inner.None? || inner.value == 0 {
        outer := outer - 1;
        inner := Some(|chunks[outer].data| - 1);
      } else {
        inner := Some(inner.value - 1);
      }
    }
  }

  // ---- The iterator over indices ----

  datatype IndexCursor = IndexCursor(range: Cursor, offset: nat)

  predicate ValidIndex(chunks: seq<Chunk>, p: IndexCursor) {
    && ValidCursor(chunks, p.range)
    && (if p.range.inner.Some? then
          var r := chunks[p.range.outer].data[p.range.inner.value];
          r.first + p.offset < r.second
        else p.offset == 0)
  }

  // The number of indices before a position.
  function IndexRank(chunks: seq<Chunk>, p: IndexCursor): nat
    requires ValidCursor(chunks, p.range)
  {
    var ranges := Flatten(chunks);
    var k := Rank(chunks, p.range);
    (if k <= |ranges| then |Expand(ranges[..k])| else 0) + p.offset
  }

  function Members(chunks: seq<Chunk>): seq<nat> {
    Expand(Flatten(chunks))
  }

  function IndexForward(chunks: seq<Chunk>, p: IndexCursor): IndexCursor
    requires ValidIndex(chunks, p) && p.range.inner.Some?
  {
    var r := chunks[p.range.outer].data[p.range.inner.value];
    if r.first + p.offset + 1 == r.second then IndexCursor(Forward(chunks, p.range), 0)
    else IndexCursor(p.range, p.offset + 1)
  }

  /** One step: the iterator is at the member its rank says, and moves to the next one. */
  lemma IndexStep(chunks: seq<Chunk>, p: IndexCursor)
    requires WellFormed(chunks) && ValidIndex(chunks, p) && p.range.inner.Some?
    ensures IndexRank(chunks, p) < |Members(chunks)|
    ensures Members(chunks)[IndexRank(chunks, p)] == chunks[p.range.outer].data[p.range.inner.value].first + p.offset
    ensures ValidIndex(chunks, IndexForward(chunks, p))
    ensures IndexRank(chunks, IndexForward(chunks, p)) == IndexRank(chunks, p) + 1
  {
    hide Flatten, Expand;
    var ranges := Flatten(chunks);
    var k := Rank(chunks, p.range);
    RankInRange(chunks, p.range);
    ForwardRank(chunks, p.range);
    ExpandRange(ranges, k);
    var next := Forward(chunks, p.range);
    if next.inner.Some? {
      RankInRange(chunks, next);
      assert ranges[k + 1].first < ranges[k + 1].second;
    }
  }

  lemma IndexRankEnds(chunks: seq<Chunk>, p: IndexCursor)
    requires WellFormed(chunks) && ValidIndex(chunks, p)
    ensures IndexRank(chunks, p) == |Members(chunks)| <==> p.range.inner.None?
    ensures p == IndexCursor(Begin(chunks), 0) ==> IndexRank(chunks, p) == 0
  {
    if p.range.inner.Some? {
      IndexStep(chunks, p);
    } else {
      assert Flatten(chunks)[..|Flatten(chunks)|] == Flatten(chunks);
    }
    assert chunks[..0] == [];
    assert Flatten(chunks)[..0] == [];
  }

  class IndexIterator {
    const it: ChunkedRangeVectorIterator
    var offset: nat

    ghost predicate Valid()
      reads this, it
    {
      it.Valid() && ValidIndex(it.chunks, Position())
    }

    ghost function Position(): IndexCursor
      reads this, it
    {
      IndexCursor(it.Position(), offset)
    }

    constructor (chunks: seq<Chunk>)
      requires WellFormed(chunks)
      ensures Valid() && fresh(it) && it.chunks == chunks && Position() == IndexCursor(Begin(chunks), 0)
    {
      it := new ChunkedRangeVectorIterator(chunks);
      offset := 0;
      new;
      if chunks != [] {
        FlattenAt(chunks, 0, 0);
        assert chunks[..0] == [];
        assert Flatten(chunks)[0].first < Flatten(chunks)[0].second;
      }
    }

    method Deref() returns (index: nat)
      requires Valid() && it.inner.Some?
      ensures IndexRank(it.chunks, Position()) < |Members(it.chunks)|
      ensures index == Members(it.chunks)[IndexRank(it.chunks, Position())]
    {
      var r := it.Deref();
      IndexStep(it.chunks, Position());
      RankInRange(it.chunks, it.Position());
      index := r.first + offset;
    }

    method Next()
      requires Valid() && it.inner.Some?
      modifies this, it
      ensures Valid() && Position() == IndexForward(it.chunks, old(Position()))
      ensures IndexRank(it.chunks, Position()) == old(IndexRank(it.chunks, Position())) + 1
    {
      IndexStep(it.chunks, Position());
      var r := it.Deref();
      RankInRange(it.chunks, it.Position());
      offset := offset + 1;
      if r.first + offset == r.second {
        it.Next();
        offset := 0;
      }
    }
  }

  // Walks the set from begin to end.
  method Walk(chunks: seq<Chunk>) returns (visited: seq<nat>)
    requires WellFormed(chunks)
    ensures visited == Members(chunks)
  {
    var i := new IndexIterator(chunks);
    visited := [];
    IndexRankEnds(chunks, i.Position());
    while i.it.inner.Some?
      invariant i.Valid() && fresh(i) && fresh(i.it) && i.it.chunks == chunks
      invariant IndexRank(chunks, i.Position()) <= |Members(chunks)|
      invariant visited == Members(chunks)[..IndexRank(chunks, i.Position())]
      invariant IndexRank(chunks, i.Position()) == |Members(chunks)| <==> i.it.inner.None?
      decreases |Members(chunks)| - IndexRank(chunks, i.Position())
    {
      var index := i.Deref();
      visited := visited + [index];
      i.Next();
      IndexRankEnds(chunks, i.Position());
    }
  }

  // ---- What is enumerated ----

  /** The members come in strictly ascending order, and are exactly the indices in the ranges. */
  lemma MembersAscend(chunks: seq<Chunk>)
    requires WellFormed(chunks)
    ensures forall i, j | 0 <= i < j < |Members(chunks)| :: Members(chunks)[i] < Members(chunks)[j]
    ensures forall n: nat :: n in Members(chunks) <==>
              exists k :: 0 <= k < |chunks| && exists r <- chunks[k].data :: r.first <= n < r.second
  {
    var ranges := Flatten(chunks);
    ExpandAscends(ranges);
    forall n: nat ensures n in Members(chunks) <==>
             exists k :: 0 <= k < |chunks| && exists r <- chunks[k].data :: r.first <= n < r.second {
      ExpandContains(ranges, n);
      if n in Members(chunks) {
        var r :| r in ranges && r.first <= n < r.second;
        var k := FlattenFrom(chunks, r);
        assert r in chunks[k].data;
      }
      if k, r :| 0 <= k < |chunks| && r in chunks[k].data && r.first <= n < r.second {
        var i :| 0 <= i < |chunks[k].data| && chunks[k].data[i] == r;
        FlattenAt(chunks, k, i);
        assert r in ranges;
      }
    }
  }

  lemma {:induction false} FlattenFrom(chunks: seq<Chunk>, r: Range) returns (k: nat)
    requires r in Flatten(chunks)
    ensures k < |chunks| && r in chunks[k].data
    decreases chunks
  {
    if r in chunks[0].data {
      k := 0;
    } else {
      k := FlattenFrom(chunks[1..], r);
      k := k + 1;
    }
  }

  lemma {:induction false} ExpandContains(ranges: seq<Range>, n: nat)
    ensures n in Expand(ranges) <==> exists r <- ranges :: r.first <= n < r.second
    decreases ranges
  {
    if ranges != [] {
      ExpandContains(ranges[1..], n);
      assert ranges == [ranges[0]] + ranges[1..];
      if ranges[0].first <= n < ranges[0].second {
        assert Span(ranges[0])[n - ranges[0].first] == n;
      }
    }
  }

  lemma {:induction false} ExpandAscends(ranges: seq<Range>)
    requires Ascending(ranges)
    ensures forall i, j | 0 <= i < j < |Expand(ranges)| :: Expand(ranges)[i] < Expand(ranges)[j]
    decreases ranges
  {
    if ranges != [] {
      var rest := Expand(ranges[1..]);
      ExpandAscends(ranges[1..]);
      forall n | n in rest ensures ranges[0].second <= n {
        ExpandContains(ranges[1..], n);
      }
      assert forall i | 0 <= i < |rest| :: rest[i] in rest;
    }
  }

  // ---- Comparing iterators ----

  // How two index iterators compare: the offset is not looked at.
  predicate SameIterator(p: IndexCursor, q: IndexCursor) {
    p.range == q.range
  }

  /** Comparing with the end is exact. */
  lemma SameAsEnd(chunks: seq<Chunk>, p: IndexCursor)
    requires WellFormed(chunks) && ValidIndex(chunks, p)
    ensures SameIterator(p, IndexCursor(End(chunks), 0)) <==> IndexRank(chunks, p) == |Members(chunks)|
  {
    IndexRankEnds(chunks, p);
  }

  /** Comparing two iterators tells different positions apart exactly when every range holds a
      single index. */
  lemma SameIsPositionEquality(chunks: seq<Chunk>)
    requires WellFormed(chunks)
    ensures (forall p, q | ValidIndex(chunks, p) && ValidIndex(chunks, q) && SameIterator(p, q) :: p == q)
       <==> (forall r <- Flatten(chunks) :: r.second == r.first + 1)
  {
    if r :| r in Flatten(chunks) && r.second != r.first + 1 {
      var k := FlattenFrom(chunks, r);
      var i :| 0 <= i < |chunks[k].data| && chunks[k].data[i] == r;
      var j :| 0 <= j < |Flatten(chunks)| && Flatten(chunks)[j] == r;
      var p, q := IndexCursor(Cursor(k, Some(i)), 0), IndexCursor(Cursor(k, Some(i)), 1);
      assert ValidIndex(chunks, p) && ValidIndex(chunks, q) && SameIterator(p, q) && p != q;
    } else {
      forall p, q | ValidIndex(chunks, p) && ValidIndex(chunks, q) && SameIterator(p, q) ensures p == q {
        if p.range.inner.Some? {
          RankInRange(chunks, p.range);
          assert Flatten(chunks)[Rank(chunks, p.range)] in Flatten(chunks);
        }
      }
    }
  }

  /** So the first two positions of a range of two are different and compare equal. */
  lemma SameInOneRange()
    ensures var chunks := [Chunk([Range(0, 2)])];
            var p, q := IndexCursor(Cursor(0, Some(0)), 0), IndexCursor(Cursor(0, Some(0)), 1);
            && WellFormed(chunks) && ValidIndex(chunks, p) && ValidIndex(chunks, q)
            && p != q && SameIterator(p, q) && IndexRank(chunks, p) != IndexRank(chunks, q)
  {
  }
}

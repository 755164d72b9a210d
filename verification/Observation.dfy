/**
 The chain of observers of one row: heap nodes linked in both directions, walked from any node.
 */
module Observation {

  class ObservationInfo {
    var next: ObservationInfo?
    var prev: ObservationInfo?

    constructor ()
      ensures next == null && prev == null
    {
      next, prev := null, null;
    }

    // `chain` is the whole chain: each node points to its neighbours, and the ends to nothing.
    static ghost predicate Chain(chain: seq<ObservationInfo>)
      reads chain
    {
      && (forall i {:trigger chain[i].next} | 0 <= i < |chain| :: chain[i].next == NodeAt(chain, i + 1))
      && (forall i {:trigger chain[i].prev} | 0 <= i < |chain| :: chain[i].prev == NodeAt(chain, i - 1))
    }

    // The node at position `i`, or nothing past either end.
    static ghost function NodeAt(chain: seq<ObservationInfo>, i: int): ObservationInfo? {
      if 0 <= i < |chain| then chain[i] else null
    }

    // Calls the function on every node: first backward from the node before this one, then
    // forward from this one. `called` is the order of the calls.
    method ForEach(ghost chain: seq<ObservationInfo>, ghost i: nat) returns (called: seq<ObservationInfo>)
      requires Chain(chain) && i < |chain| && chain[i] == this
      ensures called == Backward(chain, i) + chain[i..]
    {
      hide Backward;
      BackwardFrom(chain, 0, []);
      called := [];
      ghost var k: nat := i;
      var info := prev;
      while info != null
        invariant k <= i && info == NodeAt(chain, k - 1)
        invariant called + Backward(chain, k) == Backward(chain, i)
        decreases k
      {
        assert chain[k - 1].prev == NodeAt(chain, k - 2);
        BackwardFrom(chain, k, called);
        called := called + [info];
        info := info.prev;
        k := k - 1;
      }
      ghost var before := called;
      info := this;
      k := i;
      while info != null
        invariant i <= k <= |chain| && info == NodeAt(chain, k)
        invariant called == before + chain[i..k]
        decreases |chain| - k
      {
        assert chain[k].next == NodeAt(chain, k + 1);
        ForwardFrom(chain, i, k, before);
        called := called + [info];
        info := info.next;
        k := k + 1;
      }
      assert chain[i..k] == chain[i..];
    }
  }

  // The nodes before position `i`, nearest first.
  function Backward<T>(chain: seq<T>, i: nat): seq<T>
    requires i <= |chain|
  {
    if i == 0 then [] else [chain[i - 1]] + Backward(chain, i - 1)
  }

  lemma BackwardFrom<T>(chain: seq<T>, k: nat, called: seq<T>)
    requires k <= |chain|
    ensures called + Backward(chain, k)
            == if k == 0 then called else called + [chain[k - 1]] + Backward(chain, k - 1)
  {
  }

  lemma ForwardFrom<T>(chain: seq<T>, i: nat, k: nat, called: seq<T>)
    requires i <= k < |chain|
    ensures called + chain[i..k] + [chain[k]] == called + chain[i..k + 1]
  {
  }

  lemma OneBefore<T>(x: T, a: seq<T>, b: seq<T>, c: seq<T>)
    requires multiset(a) == multiset(b) && c == b + [x]
    ensures multiset([x] + a) == multiset(c)
  {
    assert multiset([x] + a) == multiset{x} + multiset(a);
    assert multiset(b + [x]) == multiset(b) + multiset{x};
  }

  lemma {:induction false} BackwardCounts<T>(chain: seq<T>, i: nat)
    requires i <= |chain|
    ensures multiset(Backward(chain, i)) == multiset(chain[..i])
    decreases i
  {
    if i == 0 {
      assert chain[..0] == [];
    } else {
      BackwardCounts(chain, i - 1);
      var before, upTo := chain[..i - 1], chain[..i];
      assert upTo == before + [chain[i - 1]];
      var a := Backward(chain, i - 1);
      assert Backward(chain, i) == [chain[i - 1]] + a;
      OneBefore(chain[i - 1], a, before, upTo);
    }
  }

  // A chain cannot loop back: walking on from a node never meets that node again.
  lemma {:induction false} ChainDistinct(chain: seq<ObservationInfo>, i: nat, j: nat)
    requires ObservationInfo.Chain(chain) && i < j < |chain|
    ensures chain[i] != chain[j]
    decreases i
  {
    assert chain[i].prev == ObservationInfo.NodeAt(chain, i - 1);
    assert chain[j].prev == chain[j - 1];
    if i > 0 {
      ChainDistinct(chain, i - 1, j - 1);
    }
  }

  lemma {:induction false} OnceInDistinct<T>(s: seq<T>, k: nat)
    requires k < |s| && forall i, j | 0 <= i < j < |s| :: s[i] != s[j]
    ensures multiset(s)[s[k]] == 1
  {
    assert s == s[..k] + [s[k]] + s[k + 1..];
    assert s[k] !in s[..k] && s[k] !in s[k + 1..];
  }

  /** From whichever node the walk starts, every node of the chain is visited exactly once. */
  lemma EachNodeOnce(chain: seq<ObservationInfo>, i: nat)
    requires ObservationInfo.Chain(chain) && i < |chain|
    ensures var called := Backward(chain, i) + chain[i..];
            && |called| == |chain|
            && forall node <- chain :: multiset(called)[node] == 1
  {
    BackwardCounts(chain, i);
    var called := Backward(chain, i) + chain[i..];
    assert chain == chain[..i] + chain[i..];
    assert multiset(called) == multiset(chain);
    assert |multiset(called)| == |called| && |multiset(chain)| == |chain|;
    forall a, b | 0 <= a < b < |chain| ensures chain[a] != chain[b] {
      ChainDistinct(chain, a, b);
    }
    forall node | node in chain ensures multiset(called)[node] == 1 {
      var k :| 0 <= k < |chain| && chain[k] == node;
      OnceInDistinct(chain, k);
    }
  }
}

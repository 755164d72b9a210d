/**
 How many writes the list diff issues, that no position-wise way needs fewer, and how this compares
 with writing everything.
 */
module Edits {
  import opened Schema
  import opened Store
  import opened Safety
  import opened Accessor
  import opened Runs
  import opened Footprint
  import opened Frame
  import opened Agreement
  import opened Fulfilment
  import opened Economy
  import opened Objects

  // The positions, from `i` on, that both lists have and where they differ.
  function Differing(before: seq<Cell>, after: seq<Cell>, i: nat): set<nat> {
    set j: nat | i <= j < |before| && j < |after| && before[j] != after[j]
  }

  function Excess(a: nat, b: nat): nat {
    if a > b then a - b else 0
  }

  /** The number of edits: one for each differing element, one for each that is missing, and one
      for each left over. */
  lemma {:induction false} EditCount(x: Pos, before: seq<Cell>, after: seq<Cell>, i: nat)
    requires i <= |after|
    ensures |ListEdits(x, before, after, i)|
         == |Differing(before, after, i)| + (if i <= |before| then Excess(|after|, |before|) else |after| - i)
            + Excess(|before|, |after|)
    decreases |after| - i
  {
    if i == |after| {
      assert Differing(before, after, i) == {};
      RemovalCount(x, |after|, |before|);
    } else {
      EditCount(x, before, after, i + 1);
      var here := if i < |before| && before[i] != after[i] then {i} else {};
      assert Differing(before, after, i) == here + Differing(before, after, i + 1);
      assert here !! Differing(before, after, i + 1);
      assert |here + Differing(before, after, i + 1)| == |here| + |Differing(before, after, i + 1)|;
    }
  }

  lemma {:induction false} RemovalCount(x: Pos, keep: nat, sz: nat)
    ensures |Removals(x, keep, sz)| == Excess(sz, keep)
    decreases sz
  {
    if keep < sz {
      RemovalCount(x, keep, sz - 1);
    }
  }

  // ---- The fewest edits ----

  function EditDistance(a: seq<Cell>, b: seq<Cell>): nat {
    |Differing(a, b, 0)| + Excess(|b|, |a|) + Excess(|a|, |b|)
  }

  // Every write to the list sets an element, appends one or removes the last.
  ghost predicate PositionWise(db: Db, log: seq<Write>, x: Pos) {
    log == []
    || (&& (!log[0].NewRow? && log[0].at == x ==>
              || log[0].SetItem? || log[0].AddItem?
              || (log[0].RemoveItem? && log[0].index + 1 == |ItemsAt(db, x)|))
        && PositionWise(Apply(db, log[0]), log[1..], x))
  }

  /** No sequence of writes that sets, appends or removes the last element gets from the old
      elements to the new with fewer writes to the list than the diff issues. */
  lemma {:induction false} FewestEdits(db: Db, log: seq<Write>, x: Pos)
    requires Has(db, x) && Get(db, x).Items? && PositionWise(db, log, x)
    ensures |ListEdits(x, ItemsAt(db, x), ItemsAt(Replay(db, log), x), 0)| <= |WritesAt(log, x)|
    decreases log
  {
    var b := ItemsAt(Replay(db, log), x);
    EditCount(x, ItemsAt(db, x), b, 0);
    if log == [] {
      assert Differing(b, b, 0) == {};
    } else {
      var mid := Apply(db, log[0]);
      OneWriteEdits(db, log[0], x, b);
      FewestEdits(mid, log[1..], x);
      EditCount(x, ItemsAt(mid, x), b, 0);
    }
  }

  lemma OneWriteEdits(db: Db, w: Write, x: Pos, b: seq<Cell>)
    requires Has(db, x) && Get(db, x).Items? && PositionWise(db, [w], x)
    ensures var mid := Apply(db, w);
            && Has(mid, x) && Get(mid, x).Items?
            && EditDistance(ItemsAt(db, x), b)
               <= EditDistance(ItemsAt(mid, x), b) + (if w.NewRow? || w.at != x then 0 else 1)
  {
    hide EditDistance;
    var mid := Apply(db, w);
    if !w.NewRow? {
      GetSet(db, w.at, Get(mid, w.at), x);
      if w.at == x { OneEdit(ItemsAt(db, x), ItemsAt(mid, x), b); }
    }
  }

  // One write brings the list no more than one edit closer.
  lemma OneEdit(a: seq<Cell>, a': seq<Cell>, b: seq<Cell>)
    requires || (|a'| == |a| && exists i | 0 <= i < |a| :: a' == a[i := a'[i]])
             || a' == a
             || (|a'| == |a| + 1 && a'[..|a|] == a)
             || (|a| == |a'| + 1 && a[..|a'|] == a')
    ensures EditDistance(a, b) <= EditDistance(a', b) + 1
  {
    if |a'| == |a| && a' != a {
      var i :| 0 <= i < |a| && a' == a[i := a'[i]];
      OneMore(Differing(a, b, 0), Differing(a', b, 0), i);
    } else if |a'| == |a| + 1 {
      assert forall j | 0 <= j < |a| :: a[j] == a'[..|a|][j];
      OneMore(Differing(a, b, 0), Differing(a', b, 0), |a|);
      Within(Differing(a, b, 0), Differing(a', b, 0));
    } else if |a| == |a'| + 1 {
      assert forall j | 0 <= j < |a'| :: a'[j] == a[..|a'|][j];
      if |a'| < |b| {
        OneMore(Differing(a, b, 0), Differing(a', b, 0), |a'|);
      } else {
        Within(Differing(a, b, 0), Differing(a', b, 0));
      }
    }
  }

  lemma OneMore(a: set<nat>, b: set<nat>, i: nat)
    requires a <= b + {i}
    ensures |a| <= |b| + 1
  {
    Within(a, b + {i});
    assert b + {i} == if i in b then b else b + {i};
  }

  lemma {:induction false} Within<A>(a: set<A>, b: set<A>)
    requires a <= b
    ensures |a| <= |b|
    decreases a
  {
    if x :| x in a {
      Within(a - {x}, b - {x});
    }
  }

  /** The diff is not the shortest way in general: it never moves elements, so dropping the first
      of three takes three writes where removing it would take one. */
  lemma DroppingTheFirst(db: Db, x: Pos, a: Cell, b: Cell, d: Cell)
    requires Has(db, x) && Get(db, x) == Items([a, b, d]) && a != b && b != d
    ensures |ListEdits(x, [a, b, d], [b, d], 0)| == 3
    ensures ItemsAt(Replay(db, [RemoveItem(x, 0)]), x) == [b, d]
  {
    EditCount(x, [a, b, d], [b, d], 0);
    assert Differing([a, b, d], [b, d], 0) == {0, 1};
    var db' := Apply(db, RemoveItem(x, 0));
    assert [a, b, d][..0] + [a, b, d][1..] == [b, d];
    GetSet(db, x, Items([b, d]), x);
    assert [RemoveItem(x, 0)][1..] == [];
    assert Replay(db, [RemoveItem(x, 0)]) == Replay(db', []);
  }

  /** The diff of a list given as a vector writes no more to it than clearing and refilling does,
      if and only if the edits are at most one more than the new elements. That is so whenever the
      list gets at most one element shorter. */
  lemma DiffWritesNoMore(c: Context, db: Db, x: Pos, pt: PropertyType, v: Input)
    requires Apart(c, db, x, pt, InputFeet(c.schemas, pt.elem, v), UpdateModified) && pt.Array? && v.Vector?
    requires UntangledInput(c.schemas, pt.elem, v) && Assign(c, db, x, pt.elem, v, UpdateModified).res.Ok?
    ensures var m := Assign(c, db, x, pt.elem, v, UpdateModified);
            var a := Assign(c, db, x, pt.elem, v, UpdateAll);
            var before, after := ItemsAt(db, x), ItemsAt(m.db, x);
            && |after| == |v.elements|
            && (|WritesAt(m.log, x)| <= |WritesAt(a.log, x)| <==> EditDistance(before, after) <= |after| + 1)
            && (|before| <= |after| + 1 ==> |WritesAt(m.log, x)| <= |WritesAt(a.log, x)|)
  {
    hide WellFormed, RowsKept, LegalLog, Replay, AssignFrom, AddFrom, WritesAt, ListEdits;
    var m := Assign(c, db, x, pt.elem, v, UpdateModified);
    var a := Assign(c, db, x, pt.elem, v, UpdateAll);
    var before, after := ItemsAt(db, x), ItemsAt(m.db, x);
    ListDiff(c, db, x, pt, v);
    CurrentFromCell(c, db, x, pt);
    AssignFromEdits(c, db, x, pt, v, 0, |before|);
    EditCount(x, before, after, 0);
    var cleared := Emit(db, ClearItems(x), ());
    SetKeepsWellFormed(c, db, x, Items([]));
    ApartCleared(c, db, x, pt, InputFeet(c.schemas, pt.elem, v));
    AddFromWrites(c, cleared.db, x, pt, v, 0, UpdateAll);
    WritesAtConcat(cleared.log, AddFrom(c, cleared.db, x, pt.elem, v, 0, UpdateAll).log, x);
    OneWrite([], [ClearItems(x)], x);
    assert [] + [ClearItems(x)] == cleared.log;
    DifferingBound(before, after, 0);
  }

  lemma {:induction false} DifferingBound(a: seq<Cell>, b: seq<Cell>, i: nat)
    ensures |Differing(a, b, i)| <= Excess(|a|, i) && |Differing(a, b, i)| <= Excess(|b|, i)
    decreases Excess(|a|, i)
  {
    if i >= |a| || i >= |b| {
      assert Differing(a, b, i) == {};
    } else {
      DifferingBound(a, b, i + 1);
      assert Differing(a, b, i) == (if a[i] != b[i] then {i} else {}) + Differing(a, b, i + 1);
    }
  }

  lemma ApartCleared(c: Context, db: Db, x: Pos, pt: PropertyType, feet: set<Foot>)
    requires Apart(c, db, x, pt, feet, UpdateModified) && pt.Array?
    ensures Apart(c, Set(db, x, Items([])), x, pt, feet, UpdateModified)
  {
    StoreRetains(c, db, x, pt, Items([]), UpdateModified);
  }

  lemma {:induction false} AddFromWrites(c: Context, db: Db, x: Pos, pt: PropertyType, v: Input, i: nat,
          policy: CreatePolicy)
    requires pt.Array? && v.Vector? && i <= |v.elements|
    requires Apart(c, db, x, pt, TailFeet(c.schemas, pt.elem, v, i), UpdateModified)
    ensures var s := AddFrom(c, db, x, pt.elem, v, i, policy);
            s.res.Ok? ==> |WritesAt(s.log, x)| == |v.elements| - i
    decreases |v.elements| - i
  {
    hide Create, WellFormed, LegalLog, Replay, RowsKept, WritesAt, Unbox, AddOne, Apart;
    if i == |v.elements| {
      WritesAtQuiet([], x);
    } else if AddFrom(c, db, x, pt.elem, v, i, policy).res.Ok? {
      var s := AddOne(c, db, x, pt.elem, v.elements[i], policy);
      AddOneWrites(c, db, x, pt, v, i, policy);
      AddFromWrites(c, s.db, x, pt, v, i + 1, policy);
      WritesAtConcat(s.log, AddFrom(c, s.db, x, pt.elem, v, i + 1, policy).log, x);
    }
  }

  lemma AddOneWrites(c: Context, db: Db, x: Pos, pt: PropertyType, v: Input, i: nat, policy: CreatePolicy)
    requires pt.Array? && v.Vector? && i < |v.elements|
    requires Apart(c, db, x, pt, TailFeet(c.schemas, pt.elem, v, i), UpdateModified)
    ensures var s := AddOne(c, db, x, pt.elem, v.elements[i], policy);
            s.res.Ok? ==>
              && |WritesAt(s.log, x)| == 1
              && Apart(c, s.db, x, pt, TailFeet(c.schemas, pt.elem, v, i + 1), UpdateModified)
  {
    hide Create, WellFormed, LegalLog, Replay, RowsKept, WritesAt, Unbox;
    var e := v.elements[i];
    var s := AddOne(c, db, x, pt.elem, e, policy);
    var u := Unbox(c, db, pt.elem, e, policy, None);
    if s.res.Ok? {
      AddOneRuns(c, db, x, pt, e, policy);
      RunReady(c, db, s);
      TargetKept(c, db, s, x, pt);
      ApartOpen(c, db, x, pt, TailFeet(c.schemas, pt.elem, v, i), UpdateModified);
      OpenKept(c, db, s, x);
      UnboxStill(c, db, x, pt.elem, e, policy, None);
      OneWrite(u.log, [AddItem(x, u.res.value)], x);
    }
  }

  // ---- Against UpdateAll ----

  /** A property that holds a single value is never written more often under UpdateModified than
      under UpdateAll. */
  lemma SingleWritesNoMore(c: Context, db: Db, t: string, value: Input, x: Pos)
    requires Open(c, db, x) && Untangled(c.schemas, t, value) && Consistent(c.schemas, t, value, UpdateModified)
    requires x.col < |c.schemas[x.table].props| && c.schemas[x.table].props[x.col].ptype.Single?
    requires Create(c, db, t, value, UpdateModified, None).res.Ok?
    ensures |WritesAt(Create(c, db, t, value, UpdateModified, None).log, x)|
         <= |WritesAt(Create(c, db, t, value, UpdateAll, None).log, x)|
  {
    hide Untangled, Consistent, LegalLog, Create;
    var a, m := Create(c, db, t, value, UpdateAll, None), Create(c, db, t, value, UpdateModified, None);
    PoliciesAgree(c, db, t, value);
    UpdateModifiedEdits(c, db, t, value, x);
    CreateRuns(c, db, t, value, UpdateAll, None);
    RunReady(c, db, a);
    OpenLoose(c, db, x);
    OpenKept(c, db, a, x);
    OpenLoose(c, a.db, x);
    if WritesAt(a.log, x) == [] {
      UnwrittenSame(db, a.log, x);
    }
  }

  lemma {:induction false} UnwrittenSame(db: Db, log: seq<Write>, x: Pos)
    requires Has(db, x) && WritesAt(log, x) == []
    ensures Get(Replay(db, log), x) == Get(db, x)
    decreases log
  {
    if log != [] {
      if !log[0].NewRow? { GetSet(db, log[0].at, Get(Apply(db, log[0]), log[0].at), x); }
      UnwrittenSame(Apply(db, log[0]), log[1..], x);
    }
  }
}

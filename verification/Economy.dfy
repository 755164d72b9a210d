/**
 What UpdateModified writes: on every cell of the store exactly the position-wise edits that turn
 the old contents into the new ones, also if the input describes the cell more than once.
 */
module Economy {
  import opened Schema
  import opened Store
  import opened Safety
  import opened Accessor
  import opened Runs
  import opened Footprint
  import opened Upsert
  import opened Frame
  import opened Agreement
  import opened Meaning
  import opened Fulfilment
  import opened Repeats

  // ---- Edit scripts ----

  // From position `i` on: overwrite where both lists have an element and they differ, append
  // what is missing, then remove what is left over, last first.
  function ListEdits(x: Pos, before: seq<Cell>, after: seq<Cell>, i: nat): seq<Write>
    decreases |after| - i
  {
    if i < |after| then
      (if i >= |before| then [AddItem(x, after[i])]
       else if before[i] != after[i] then [SetItem(x, i, after[i])]
       else [])
      + ListEdits(x, before, after, i + 1)
    else Removals(x, |after|, |before|)
  }

  function Removals(x: Pos, keep: nat, sz: nat): seq<Write>
    decreases sz
  {
    if keep >= sz then [] else [RemoveItem(x, sz - 1)] + Removals(x, keep, sz - 1)
  }

  function Edits(x: Pos, before: Cell, after: Cell): seq<Write> {
    if before.Items? && after.Items? then ListEdits(x, before.items, after.items, 0)
    else if before == after then []
    else [SetCell(x, after)]
  }

  function WritesAt(log: seq<Write>, x: Pos): seq<Write> {
    if log == [] then []
    else (if !log[0].NewRow? && log[0].at == x then [log[0]] else []) + WritesAt(log[1..], x)
  }

  // A list is cleared whenever it is given as null.
  ghost predicate Economical(log: seq<Write>, x: Pos, before: Cell, after: Cell) {
    WritesAt(log, x) == Edits(x, before, after) || Cleared(log, x, after)
  }

  ghost predicate Cleared(log: seq<Write>, x: Pos, after: Cell) {
    after == Items([]) && forall w <- WritesAt(log, x) :: w == ClearItems(x)
  }

  lemma {:induction false} WritesAtConcat(a: seq<Write>, b: seq<Write>, x: Pos)
    ensures WritesAt(a + b, x) == WritesAt(a, x) + WritesAt(b, x)
    decreases a
  {
    if a == [] {
      assert a + b == b;
    } else {
      assert (a + b)[1..] == a[1..] + b;
      WritesAtConcat(a[1..], b, x);
    }
  }

  lemma {:induction false} WritesAtQuiet(log: seq<Write>, x: Pos)
    requires Quiet(log, x)
    ensures WritesAt(log, x) == []
    decreases log
  {
    if log != [] {
      WritesAtQuiet(log[1..], x);
    }
  }

  lemma {:induction false} NoEdits(x: Pos, items: seq<Cell>, i: nat)
    ensures ListEdits(x, items, items, i) == []
    decreases |items| - i
  {
    if i < |items| {
      NoEdits(x, items, i + 1);
    }
  }

  lemma SameEdits(x: Pos, cell: Cell)
    ensures Edits(x, cell, cell) == []
  {
    if cell.Items? {
      NoEdits(x, cell.items, 0);
    }
  }

  // Edits from `i` on do not depend on what is before `i`.
  lemma {:induction false} EditsFrom(x: Pos, before: seq<Cell>, before': seq<Cell>, after: seq<Cell>, i: nat)
    requires i <= |after|
    requires forall j | i <= j < |before| :: j < |before'| && before'[j] == before[j]
    requires |before'| == |before| || (|before| <= i && |before'| <= i)
    ensures ListEdits(x, before', after, i) == ListEdits(x, before, after, i)
    decreases |after| - i
  {
    if i < |after| {
      EditsFrom(x, before, before', after, i + 1);
    }
  }

  // ---- Composition ----

  // On `x`, the step writes nothing and changes nothing.
  ghost predicate Still<A>(db: Db, s: Step<A>, x: Pos) {
    Quiet(s.log, x) && Get(s.db, x) == Get(db, x)
  }

  ghost predicate Thrifty<A>(db: Db, s: Step<A>, x: Pos) {
    Economical(s.log, x, Get(db, x), Get(s.db, x))
  }

  lemma StillThrifty<A>(db: Db, s: Step<A>, x: Pos)
    requires Still(db, s, x)
    ensures Thrifty(db, s, x)
  {
    WritesAtQuiet(s.log, x);
    SameEdits(x, Get(db, x));
  }

  // The step left `x` alone, or did what one of its claims says of `x` and no more.
  ghost predicate Spent<A>(c: Context, db: Db, s: Step<A>, x: Pos, claims: set<Claim>) {
    Still(db, s, x) || exists v :: SpentOn(c, db, s, x, claims, v)
  }

  ghost predicate SpentOn<A>(c: Context, db: Db, s: Step<A>, x: Pos, claims: set<Claim>, v: Input) {
    Claim(FootAt(c.schemas, db, x), v) in claims && Met(c, db, s, x, v)
  }

  // Afterwards `x` is what `v` says, and no more was written to it than that takes.
  ghost predicate Met<A>(c: Context, db: Db, s: Step<A>, x: Pos, v: Input) {
    && x.table in c.schemas && x.col < |c.schemas[x.table].props|
    && Settled(c.schemas, s.db, x, c.schemas[x.table].props[x.col].ptype, v)
    && (if Clears(c, x, v) then Cleared(s.log, x, Get(s.db, x))
        else WritesAt(s.log, x) == Edits(x, Get(db, x), Get(s.db, x)))
  }

  lemma SpentThrifty<A>(c: Context, db: Db, s: Step<A>, x: Pos, claims: set<Claim>)
    requires Spent(c, db, s, x, claims)
    ensures Thrifty(db, s, x)
  {
    if Still(db, s, x) {
      StillThrifty(db, s, x);
    }
  }

  lemma SpentMore<A>(c: Context, db: Db, s: Step<A>, x: Pos, claims: set<Claim>, more: set<Claim>)
    requires Spent(c, db, s, x, claims) && claims <= more
    ensures Spent(c, db, s, x, more)
  {
    if !Still(db, s, x) {
      var v :| SpentOn(c, db, s, x, claims, v);
      assert SpentOn(c, db, s, x, more, v);
    }
  }

  // A step on `x` after one that left it alone.
  lemma StillThen<A, B>(c: Context, db: Db, s: Step<A>, t: Step<B>, x: Pos, claims: set<Claim>)
    requires Still(db, s, x) && Spent(c, s.db, t, x, claims)
    requires FootAt(c.schemas, s.db, x) == FootAt(c.schemas, db, x)
    ensures Spent(c, db, Then(s, t), x, claims)
  {
    WritesAtConcat(s.log, t.log, x);
    WritesAtQuiet(s.log, x);
    if !Still(s.db, t, x) {
      var v :| SpentOn(c, s.db, t, x, claims, v);
      assert SpentOn(c, db, Then(s, t), x, claims, v);
    }
  }

  lemma DoneThen<A, B>(c: Context, db: Db, s: Step<A>, t: Step<B>, x: Pos, v: Input)
    requires Met(c, db, s, x, v) && Idle(c, s.db, t, x, v)
    requires Settled(c.schemas, t.db, x, c.schemas[x.table].props[x.col].ptype, v)
    ensures Met(c, db, Then(s, t), x, v)
  {
    hide Settled, Edits;
    WritesAtConcat(s.log, t.log, x);
    if Clears(c, x, v) {
      WritesAtIdle(t.log, x);
    } else {
      WritesAtQuiet(t.log, x);
      assert WritesAt(s.log, x) + [] == WritesAt(s.log, x);
    }
  }

  lemma {:induction false} WritesAtIdle(log: seq<Write>, x: Pos)
    requires forall w <- log | !w.NewRow? && w.at == x :: w == ClearItems(x)
    ensures forall w <- WritesAt(log, x) :: w == ClearItems(x)
    decreases log
  {
    if log != [] {
      WritesAtIdle(log[1..], x);
    }
  }

  // A step after one that did what `v` says of `x`, while the second says nothing else of it.
  lemma SpentThen<A, B>(c: Context, db: Db, s: Step<A>, t: Step<B>, x: Pos, first: set<Claim>, second: set<Claim>)
    requires Open(c, db, x) && Run(c, db, s) && Run(c, s.db, t)
    requires Spent(c, db, s, x, first) && Spent(c, s.db, t, x, second)
    requires forall v | SpentOn(c, db, s, x, first, v) :: Idle(c, s.db, t, x, v)
    ensures Spent(c, db, Then(s, t), x, first + second)
  {
    OpenKept(c, db, s, x);
    if Still(db, s, x) {
      StillThen(c, db, s, t, x, second);
      SpentMore(c, db, Then(s, t), x, second, first + second);
    } else {
      var v :| SpentOn(c, db, s, x, first, v);
      SettledKept(c, s.db, t, x, c.schemas[x.table].props[x.col].ptype, v);
      DoneThen(c, db, s, t, x, v);
      assert SpentOn(c, db, Then(s, t), x, first + second, v);
    }
  }

  lemma OpenKept<A>(c: Context, db: Db, s: Step<A>, x: Pos)
    requires Open(c, db, x) && Run(c, db, s)
    ensures Open(c, s.db, x) && FootAt(c.schemas, s.db, x) == FootAt(c.schemas, db, x)
  {
    OpenLoose(c, db, x);
    LooseKept(c, db, s, x, Get(db, x));
  }

  lemma UnboxStill(c: Context, db: Db, x: Pos, et: ElementType, v: Input, policy: CreatePolicy, current: Option<nat>)
    requires Open(c, db, x) && CurrentFits(db, et, current) && Outside(c, db, x, InputFeet(c.schemas, et, v), policy)
    ensures Still(db, Unbox(c, db, et, v, policy, current), x)
  {
    hide Create, LegalLog, Replay;
    var u := Unbox(c, db, et, v, policy, current);
    OpenLoose(c, db, x);
    UnboxRuns(c, db, et, v, policy, current);
    LooseKept(c, db, u, x, Get(db, x));
    SetSame(db, x);
    UnboxFrame(c, db, x, Get(db, x), et, v, policy, current);
    GetSet(u.db, x, Get(db, x), x);
  }

  lemma PopulateStill(c: Context, db: Db, x: Pos, t: string, slot: Slot, value: Input, policy: CreatePolicy, i: nat)
    requires Open(c, db, x) && SlotFits(c, db, t, slot) && value.Dict?
    requires Spares(c.schemas[t], t, slot, value, i, x)
    requires Outside(c, db, x, NestedFeet(c.schemas, c.schemas[t], value, i), policy)
    ensures Still(db, Populate(c, db, t, c.schemas[t], slot, value, policy, i), x)
  {
    hide Create, SetProperty, LegalLog, Replay;
    var s := Populate(c, db, t, c.schemas[t], slot, value, policy, i);
    OpenLoose(c, db, x);
    PopulateSpares(c, db, x, t, slot, value, policy, i);
    PopulateFrame(c, db, x, Get(db, x), t, slot, value, policy, i);
  }

  lemma PopulateOneStill(c: Context, db: Db, x: Pos, t: string, slot: Slot, value: Input, policy: CreatePolicy, i: nat)
    requires Open(c, db, x) && SlotFits(c, db, t, slot) && value.Dict? && i < |c.schemas[t].props|
    requires Pos(t, slot.row, i) != x
    requires Outside(c, db, x, FieldFeet(c.schemas, c.schemas[t], value, i), policy)
    ensures Still(db, PopulateOne(c, db, t, c.schemas[t], slot, value, policy, i), x)
  {
    hide Create, SetProperty, LegalLog, Replay;
    var s := PopulateOne(c, db, t, c.schemas[t], slot, value, policy, i);
    OpenLoose(c, db, x);
    PopulateOneRuns(c, db, t, slot, value, policy, i);
    LooseKept(c, db, s, x, Get(db, x));
    SetSame(db, x);
    PopulateOneFrame(c, db, x, Get(db, x), t, slot, value, policy, i);
    GetSet(s.db, x, Get(db, x), x);
  }

  // ---- Objects ----

  lemma {:induction false} CreateThrifty(c: Context, db: Db, x: Pos, t: string, value: Input, current: Option<nat>)
    requires Open(c, db, x) && Consistent(c.schemas, t, value, UpdateModified)
    requires current.Some? ==> current.value < RowCount(db, t)
    ensures var s := Create(c, db, t, value, UpdateModified, current);
            s.res.Ok? ==> Spent(c, db, s, x, Claims(c.schemas, t, value))
    decreases Weight(value), value, 2, 0
  {
    hide WellFormed, RowsKept, LegalLog, Replay, WritesAt, Edits, Met, Populate, ConsistentFields;
    if !value.Dict? {
      CreateOnlyFromDict(c, db, t, value, UpdateModified, current);
    } else if t in c.schemas {
      var slot := GetOrAddRow(c, db, t, c.schemas[t], value, UpdateModified, current);
      GetOrAddRowRuns(c, db, t, value, UpdateModified, current);
      SlotRetains(c, db, t, value, UpdateModified, current);
      SlotStill(c, db, x, t, value, UpdateModified, current);
      if Create(c, db, t, value, UpdateModified, current).res.Ok? {
        var rest := Populate(c, slot.db, t, c.schemas[t], slot.res.value, value, UpdateModified, 0);
        RunReady(c, db, slot);
        OpenKept(c, db, slot, x);
        PopulateThrifty(c, slot.db, x, t, slot.res.value, value, 0);
        StillThen(c, db, slot, rest, x, Claims(c.schemas, t, value));
        SameSpent(c, db, Then(slot, rest), Create(c, db, t, value, UpdateModified, current), x,
                  Claims(c.schemas, t, value));
      }
    }
  }

  lemma {:induction false} PopulateThrifty(c: Context, db: Db, x: Pos, t: string, slot: Slot, value: Input, i: nat)
    requires Open(c, db, x) && SlotOf(c, db, t, slot, value) && value.Dict?
    requires slot.created ==> x.table != t || x.row != slot.row
    requires ConsistentFields(c.schemas, t, c.schemas[t], value, i, UpdateModified)
    ensures var s := Populate(c, db, t, c.schemas[t], slot, value, UpdateModified, i);
            s.res.Ok? ==>
              Spent(c, db, s, x, OwnClaims(c.schemas[t], t, value) + NestedClaims(c.schemas, c.schemas[t], value, i))
    decreases Weight(value), value, 1, |c.schemas[t].props| + 1 - i
  {
    hide Create, SetProperty, WellFormed, ValidSchemas, LegalLog, Replay, Spent, SpentOn, OwnClaims, Compatible;
    var os := c.schemas[t];
    var own := OwnClaims(os, t, value);
    var claims := own + NestedClaims(c.schemas, os, value, i);
    var all := Populate(c, db, t, os, slot, value, UpdateModified, i);
    if i >= |os.props| {
      StillSpent(c, db, all, x, claims);
    } else if all.res.Ok? {
      var s := PopulateOne(c, db, t, os, slot, value, UpdateModified, i);
      var rest := Populate(c, s.db, t, os, slot, value, UpdateModified, i + 1);
      PopulateOneRuns(c, db, t, slot, value, UpdateModified, i);
      RunReady(c, db, s);
      OpenKept(c, db, s, x);
      SlotOfKept(c, db, s, t, slot, value);
      PopulateRuns(c, s.db, t, slot, value, UpdateModified, i + 1);
      PopulateOneThrifty(c, db, x, t, slot, value, i);
      PopulateThrifty(c, s.db, x, t, slot, value, i + 1);
      OneThenRest(c, db, x, t, slot, value, i);
      SpentThen(c, db, s, rest, x, own + FieldClaims(c.schemas, os, value, i),
                own + NestedClaims(c.schemas, os, value, i + 1));
      assert claims == own + FieldClaims(c.schemas, os, value, i) + (own + NestedClaims(c.schemas, os, value, i + 1));
    }
  }

  lemma StillSpent<A>(c: Context, db: Db, s: Step<A>, x: Pos, claims: set<Claim>)
    requires Still(db, s, x)
    ensures Spent(c, db, s, x, claims)
  {
  }

  // What one property says of a cell, the later ones leave at that.
  lemma OneThenRest(c: Context, db: Db, x: Pos, t: string, slot: Slot, value: Input, i: nat)
    requires Open(c, db, x) && SlotOf(c, db, t, slot, value) && value.Dict? && i < |c.schemas[t].props|
    requires ConsistentFields(c.schemas, t, c.schemas[t], value, i, UpdateModified)
    ensures var os := c.schemas[t];
            var s := PopulateOne(c, db, t, os, slot, value, UpdateModified, i);
            var rest := Populate(c, s.db, t, os, slot, value, UpdateModified, i + 1);
            var first := OwnClaims(os, t, value) + FieldClaims(c.schemas, os, value, i);
            s.res.Ok? ==> forall v | SpentOn(c, db, s, x, first, v) :: Idle(c, s.db, rest, x, v)
  {
    var os := c.schemas[t];
    var s := PopulateOne(c, db, t, os, slot, value, UpdateModified, i);
    var rest := Populate(c, s.db, t, os, slot, value, UpdateModified, i + 1);
    var one := FieldClaims(c.schemas, os, value, i);
    var first := OwnClaims(os, t, value) + one;
    PopulateOneRuns(c, db, t, slot, value, UpdateModified, i);
    RunReady(c, db, s);
    OpenKept(c, db, s, x);
    SlotOfKept(c, db, s, t, slot, value);
    ConsistentElsewhere(c.schemas, t, os, value, i + 1, UpdateModified);
    hide SetProperty, WellFormed, ValidSchemas, RowsKept, LegalLog, Replay, PopulateOne, Settled, Cleared, Edits;
    forall v | SpentOn(c, db, s, x, first, v) ensures Idle(c, s.db, rest, x, v) {
      forall j: nat | i < j < |os.props| && Choose(os, value, slot, j).Put? && Pos(t, slot.row, j) == x
        ensures Choose(os, value, slot, j) == Put(v, false)
      {
        assert FootAt(c.schemas, db, x) == Foot(t, Identity(os, value).value, j);
      }
      PopulateIdle(c, s.db, x, v, t, slot, value, i + 1);
    }
  }

  lemma {:induction false} PopulateOneThrifty(c: Context, db: Db, x: Pos, t: string, slot: Slot, value: Input, i: nat)
    requires Open(c, db, x) && SlotOf(c, db, t, slot, value) && value.Dict? && i < |c.schemas[t].props|
    requires slot.created ==> x.table != t || x.row != slot.row
    requires ConsistentField(c.schemas, t, c.schemas[t], value, i, UpdateModified)
    ensures var os := c.schemas[t];
            var s := PopulateOne(c, db, t, os, slot, value, UpdateModified, i);
            s.res.Ok? ==> Spent(c, db, s, x, OwnClaims(os, t, value) + FieldClaims(c.schemas, os, value, i))
    decreases Weight(value), value, 1, 0
  {
    hide Create, SetProperty, WellFormed, ValidSchemas, LegalLog, Replay, RowsKept, WritesAt, Edits, Met;
    var os := c.schemas[t];
    var y := Pos(t, slot.row, i);
    var s := PopulateOne(c, db, t, os, slot, value, UpdateModified, i);
    var claims := OwnClaims(os, t, value) + FieldClaims(c.schemas, os, value, i);
    match Choose(os, value, slot, i)
    case Put(v, isDefault) =>
      SlotTarget(c, db, t, slot, value, i);
      PutFeet(c, os, value, slot, i);
      if os.props[i].name !in value.fields {
        LeafFeet(c.schemas, os.props[i].ptype.elem, v);
        LeafConsistent(c.schemas, os.props[i].ptype.elem, v, UpdateModified);
      }
      SetPropertyThrifty(c, db, x, y, os.props[i].ptype, v, isDefault);
      if s.res.Ok? && x == y {
        OwnFoot(os, t, value, i);
        assert SpentOn(c, db, s, x, claims, v);
      } else if s.res.Ok? {
        SpentMore(c, db, s, x, InputClaims(c.schemas, os.props[i].ptype.elem, v), claims);
      }
    case _ =>
  }

  // ---- One property ----

  // `y` is the cell being set; `x` is any cell.
  lemma {:induction false} SetPropertyThrifty(c: Context, db: Db, x: Pos, y: Pos, pt: PropertyType, v: Input,
          isDefault: bool)
    requires Open(c, db, x) && Apart(c, db, y, pt, InputFeet(c.schemas, pt.elem, v), UpdateModified)
    requires ConsistentInput(c.schemas, pt.elem, v, UpdateModified) && (x == y ==> !isDefault)
    ensures var s := SetProperty(c, db, y, pt, v, UpdateModified, isDefault);
            s.res.Ok? ==> if x == y then Met(c, db, s, x, v) else Spent(c, db, s, x, InputClaims(c.schemas, pt.elem, v))
    decreases Weight(v), v, 5, 0
  {
    hide Create, WellFormed, ValidSchemas, LegalLog, Replay, RowsKept, HoldsInput, Settled, Retains, Spent, Edits;
    CurrentFromCell(c, db, y, pt);
    var claims := InputClaims(c.schemas, pt.elem, v);
    var s := SetProperty(c, db, y, pt, v, UpdateModified, isDefault);
    if s.res.Ok? {
      if x == y {
        SetPropertyHolds(c, db, y, pt, v, UpdateModified, isDefault);
        HoldsSettled(c, map[], s.db, x, pt, v);
      }
      if pt.Nullable() && v.NullInput? {
        StoreThrifty(db, x, y, Null, s);
        if x != y { StillSpent(c, db, s, x, claims); }
      } else if pt.Array? {
        AssignThrifty(c, db, x, y, pt, v);
      } else {
        StoredThrifty(c, db, x, y, pt, v);
      }
    }
  }

  lemma {:induction false} StoredThrifty(c: Context, db: Db, x: Pos, y: Pos, pt: PropertyType, v: Input)
    requires Open(c, db, x) && Apart(c, db, y, pt, InputFeet(c.schemas, pt.elem, v), UpdateModified)
    requires ConsistentInput(c.schemas, pt.elem, v, UpdateModified) && pt.Single?
    ensures var seen := Get(db, y);
            var u := Unbox(c, db, pt.elem, v, UpdateModified, LinkedRow(seen));
            u.res.Ok? ==>
              var s := Then(u, StoreCell(u.db, y, seen, u.res.value, UpdateModified));
              if x == y then WritesAt(s.log, x) == Edits(x, Get(db, x), Get(s.db, x))
              else Spent(c, db, s, x, InputClaims(c.schemas, pt.elem, v))
    decreases Weight(v), v, 4, 0
  {
    hide Create, WellFormed, ValidSchemas, LegalLog, Replay, RowsKept, Unbox, Spent;
    var seen := Get(db, y);
    var u := Unbox(c, db, pt.elem, v, UpdateModified, LinkedRow(seen));
    CurrentFromCell(c, db, y, pt);
    UnboxSpares(c, db, y, pt, v, UpdateModified, LinkedRow(seen));
    if u.res.Ok? {
      var w := StoreCell(u.db, y, seen, u.res.value, UpdateModified);
      StoreThrifty(u.db, x, y, u.res.value, w);
      if x == y {
        UnboxStill(c, db, x, pt.elem, v, UpdateModified, LinkedRow(seen));
        WritesAtConcat(u.log, w.log, x);
        WritesAtQuiet(u.log, x);
      } else {
        UnboxThrifty(c, db, x, pt.elem, v, LinkedRow(seen));
        StoreCellRuns(c, u.db, y, pt, seen, u.res.value, UpdateModified);
        SpentThenStill(c, db, u, w, x, InputClaims(c.schemas, pt.elem, v));
      }
    }
  }

  lemma SpentThenStill<A, B>(c: Context, db: Db, s: Step<A>, t: Step<B>, x: Pos, claims: set<Claim>)
    requires Spent(c, db, s, x, claims) && Still(s.db, t, x) && Open(c, db, x) && Run(c, db, s) && Run(c, s.db, t)
    ensures Spent(c, db, Then(s, t), x, claims)
  {
    hide Met;
    RunReady(c, db, s);
    SpentThen(c, db, s, t, x, claims, {});
    assert claims + {} == claims;
  }

  // A step that writes a single value into `y`, or nothing.
  lemma StoreThrifty(db: Db, x: Pos, y: Pos, cell: Cell, s: Step<()>)
    requires s == Done(db, ()) || (s == Emit(db, SetCell(y, cell), ()) && Get(db, y) != cell)
    requires !cell.Items? && Has(db, y)
    ensures !Get(db, x).Items? ==> WritesAt(s.log, x) == Edits(x, Get(db, x), Get(s.db, x))
    ensures x != y ==> Still(db, s, x)
  {
    GetSet(db, y, cell, x);
    if s.log == [] || x != y {
      StillThrifty(db, s, x);
    } else {
      assert [SetCell(y, cell)][1..] == [];
      assert WritesAt([SetCell(y, cell)], x) == [SetCell(y, cell)] + [];
    }
  }

  lemma {:induction false} UnboxThrifty(c: Context, db: Db, x: Pos, et: ElementType, v: Input, current: Option<nat>)
    requires Open(c, db, x) && CurrentFits(db, et, current) && ConsistentInput(c.schemas, et, v, UpdateModified)
    ensures var u := Unbox(c, db, et, v, UpdateModified, current);
            u.res.Ok? ==> Spent(c, db, u, x, InputClaims(c.schemas, et, v))
    decreases Weight(v), v, 3, 0
  {
    hide WellFormed, ValidSchemas, LegalLog, Replay, RowsKept, GetOrAddRow, Populate, Met;
    var u := Unbox(c, db, et, v, UpdateModified, current);
    if et.ObjectElement? && !v.RowInput? {
      if v.Dict? {
        CreateThrifty(c, db, x, et.target, v, current);
        if u.res.Ok? {
          SameSpent(c, db, Create(c, db, et.target, v, UpdateModified, current), u, x, InputClaims(c.schemas, et, v));
        }
      } else {
        CreateOnlyFromDict(c, db, et.target, v, UpdateModified, current);
      }
    } else {
      StillSpent(c, db, u, x, InputClaims(c.schemas, et, v));
    }
  }

  // What a step reports besides makes no difference.
  lemma SameSpent<A, B>(c: Context, db: Db, s: Step<A>, t: Step<B>, x: Pos, claims: set<Claim>)
    requires Spent(c, db, s, x, claims) && t.db == s.db && t.log == s.log
    ensures Spent(c, db, t, x, claims)
  {
    if !Still(db, s, x) {
      var v :| SpentOn(c, db, s, x, claims, v);
      assert SpentOn(c, db, t, x, claims, v);
    }
  }

  // ---- Lists ----

  lemma {:induction false} AssignThrifty(c: Context, db: Db, x: Pos, y: Pos, pt: PropertyType, v: Input)
    requires Open(c, db, x) && Apart(c, db, y, pt, InputFeet(c.schemas, pt.elem, v), UpdateModified)
    requires ConsistentInput(c.schemas, pt.elem, v, UpdateModified) && pt.Array?
    ensures var s := Assign(c, db, y, pt.elem, v, UpdateModified);
            s.res.Ok? ==>
              if x != y then Spent(c, db, s, x, InputClaims(c.schemas, pt.elem, v))
              else if v.NullInput? then Cleared(s.log, x, Get(s.db, x))
              else WritesAt(s.log, x) == Edits(x, Get(db, x), Get(s.db, x))
    decreases Weight(v), v, 4, 0
  {
    hide Create, WellFormed, ValidSchemas, LegalLog, Replay, RowsKept, Met;
    var s := Assign(c, db, y, pt.elem, v, UpdateModified);
    CurrentFromCell(c, db, y, pt);
    if v == ListInput(y) {
      SameEdits(x, Get(db, x));
    } else if v.NullInput? {
      GetSet(db, y, Items([]), x);
      assert [ClearItems(y)][1..] == [];
      assert x == y ==> WritesAt([ClearItems(y)], x) == [ClearItems(y)] + [];
    } else if v.Vector? {
      if x == y {
        AssignFromEdits(c, db, x, pt, v, 0, |ItemsAt(db, x)|);
      } else {
        AssignFromThrifty(c, db, x, y, pt, v, 0, |ItemsAt(db, y)|);
      }
    }
  }

  // The edits on the list itself.
  lemma {:induction false} AssignFromEdits(c: Context, db: Db, x: Pos, pt: PropertyType, v: Input, i: nat, sz: nat)
    requires pt.Array? && v.Vector? && i <= |v.elements|
    requires Apart(c, db, x, pt, TailFeet(c.schemas, pt.elem, v, i), UpdateModified)
    requires |ItemsAt(db, x)| == if i < sz then sz else i
    ensures var s := AssignFrom(c, db, x, pt.elem, v, i, sz);
            s.res.Ok? ==>
              && Get(s.db, x).Items? && |ItemsAt(s.db, x)| == |v.elements|
              && ItemsAt(s.db, x)[..i] == ItemsAt(db, x)[..i]
              && WritesAt(s.log, x) == ListEdits(x, ItemsAt(db, x), ItemsAt(s.db, x), i)
    decreases Weight(v), v, 0, |v.elements| - i
  {
    hide Create, WellFormed, ValidSchemas, LegalLog, Replay, RowsKept, WritesAt, AssignOne, Trim, Set;
    var items := ItemsAt(db, x);
    var all := AssignFrom(c, db, x, pt.elem, v, i, sz);
    CurrentFromCell(c, db, x, pt);
    if i == |v.elements| {
      TrimResult(db, x, i, sz);
      GetSet(db, x, Items(items[..i]), x);
      TrimEdits(db, x, i, sz);
    } else if all.res.Ok? {
      var e := v.elements[i];
      var s := AssignOne(c, db, x, pt.elem, e, i, sz);
      var rest := AssignFrom(c, s.db, x, pt.elem, v, i + 1, sz);
      ElementEdit(c, db, x, pt, e, i, sz);
      AssignFromEdits(c, s.db, x, pt, v, i + 1, sz);
      WritesAtConcat(s.log, rest.log, x);
      var after := ItemsAt(rest.db, x);
      assert after[..i + 1][..i] == after[..i];
      assert after[..i + 1][i] == after[i];
      EditsFrom(x, items, ItemsAt(s.db, x), after, i + 1);
    }
  }

  lemma {:induction false} TrimEdits(db: Db, x: Pos, index: nat, sz: nat)
    requires Has(db, x) && Get(db, x).Items? && |ItemsAt(db, x)| == if index < sz then sz else index
    ensures WritesAt(Trim(db, x, index, sz).log, x) == Removals(x, index, sz)
    decreases sz
  {
    if index < sz {
      var s := Emit(db, RemoveItem(x, sz - 1), ());
      GetSet(db, x, Get(s.db, x), x);
      TrimEdits(s.db, x, index, sz - 1);
      assert ([RemoveItem(x, sz - 1)] + Trim(s.db, x, index, sz - 1).log)[1..] == Trim(s.db, x, index, sz - 1).log;
    }
  }

  // One element: at most one edit on the list, at the element's own position.
  lemma {:induction false} ElementEdit(c: Context, db: Db, x: Pos, pt: PropertyType, e: Input, i: nat, sz: nat)
    requires pt.Array? && Apart(c, db, x, pt, InputFeet(c.schemas, pt.elem, e), UpdateModified)
    requires |ItemsAt(db, x)| == if i < sz then sz else i
    ensures var s := AssignOne(c, db, x, pt.elem, e, i, sz);
            var items, items' := ItemsAt(db, x), ItemsAt(s.db, x);
            s.res.Ok? ==>
              && Apart(c, s.db, x, pt, {}, UpdateModified) && FootAt(c.schemas, s.db, x) == FootAt(c.schemas, db, x)
              && |items'| == (if i + 1 < sz then sz else i + 1)
              && items'[..i] == items[..i]
              && (forall j | i < j < |items| :: items'[j] == items[j])
              && WritesAt(s.log, x) == (if i >= |items| then [AddItem(x, items'[i])]
                                        else if items[i] != items'[i] then [SetItem(x, i, items'[i])]
                                        else [])
  {
    hide Create, WellFormed, ValidSchemas, LegalLog, Replay, RowsKept, WritesAt;
    var items := ItemsAt(db, x);
    var current := if i < sz then LinkedRow(items[i]) else None;
    CurrentFromCell(c, db, x, pt);
    var u := Unbox(c, db, pt.elem, e, UpdateModified, current);
    UnboxSpares(c, db, x, pt, e, UpdateModified, current);
    ApartOpen(c, db, x, pt, InputFeet(c.schemas, pt.elem, e), UpdateModified);
    UnboxStill(c, db, x, pt.elem, e, UpdateModified, current);
    if u.res.Ok? {
      ElementStored(c, u.db, x, pt, items, u.res.value, i, sz);
      var w := if i < sz then StoreItem(u.db, x, i, items[i], u.res.value) else Emit(u.db, AddItem(x, u.res.value), ());
      OneWrite(u.log, w.log, x);
      GetSet(u.db, x, Get(w.db, x), x);
    }
  }

  lemma OneWrite(quiet: seq<Write>, log: seq<Write>, x: Pos)
    requires Quiet(quiet, x) && |log| <= 1 && forall w <- log :: !w.NewRow? && w.at == x
    ensures WritesAt(quiet + log, x) == log
  {
    WritesAtConcat(quiet, log, x);
    WritesAtQuiet(quiet, x);
    if log != [] {
      assert log == [log[0]] + log[1..];
    }
  }

  lemma ApartOpen(c: Context, db: Db, x: Pos, pt: PropertyType, feet: set<Foot>, policy: CreatePolicy)
    requires Apart(c, db, x, pt, feet, policy)
    ensures Open(c, db, x)
  {
  }

  // The edits on other cells, made for the objects that the elements describe.
  lemma {:induction false} AssignFromThrifty(c: Context, db: Db, x: Pos, y: Pos, pt: PropertyType, v: Input, i: nat,
          sz: nat)
    requires pt.Array? && v.Vector? && i <= |v.elements| && x != y && Open(c, db, x)
    requires Apart(c, db, y, pt, TailFeet(c.schemas, pt.elem, v, i), UpdateModified)
    requires pt.elem.ObjectElement? ==> ConsistentElements(c.schemas, pt.elem, v, i, UpdateModified)
    requires |ItemsAt(db, y)| == if i < sz then sz else i
    ensures var s := AssignFrom(c, db, y, pt.elem, v, i, sz);
            s.res.Ok? ==> Spent(c, db, s, x, TailClaims(c.schemas, pt.elem, v, i))
    decreases Weight(v), v, 0, |v.elements| - i
  {
    hide Create, WellFormed, ValidSchemas, LegalLog, Replay, RowsKept, WritesAt, Edits, Met, Settled;
    var all := AssignFrom(c, db, y, pt.elem, v, i, sz);
    if i == |v.elements| {
      TrimStill(db, x, y, i, sz);
      StillSpent(c, db, all, x, TailClaims(c.schemas, pt.elem, v, i));
    } else if all.res.Ok? {
      var e := v.elements[i];
      var s := AssignOne(c, db, y, pt.elem, e, i, sz);
      var rest := AssignFrom(c, s.db, y, pt.elem, v, i + 1, sz);
      var one, tail := InputClaims(c.schemas, pt.elem, e), TailClaims(c.schemas, pt.elem, v, i + 1);
      ElementThrifty(c, db, x, y, pt, e, i, sz);
      ElementEdit(c, db, y, pt, e, i, sz);
      if i < sz { SetIfDifferentRuns(c, db, y, pt, e, i); } else { AddOneRuns(c, db, y, pt, e, UpdateModified); }
      AssignFromRuns(c, s.db, y, pt, v, i + 1, sz);
      OpenKept(c, db, s, x);
      AssignFromThrifty(c, s.db, x, y, pt, v, i + 1, sz);
      forall w | SpentOn(c, db, s, x, one, w) ensures Idle(c, s.db, rest, x, w) {
        MetSettled(c, db, s, x, w);
        AssignFromIdle(c, s.db, x, w, y, pt, v, i + 1, sz);
      }
      SpentThen(c, db, s, rest, x, one, tail);
    }
  }

  lemma MetSettled<A>(c: Context, db: Db, s: Step<A>, x: Pos, v: Input)
    requires Met(c, db, s, x, v)
    ensures x.table in c.schemas && x.col < |c.schemas[x.table].props|
    ensures Settled(c.schemas, s.db, x, c.schemas[x.table].props[x.col].ptype, v)
  {
  }

  lemma {:induction false} TrimStill(db: Db, x: Pos, y: Pos, index: nat, sz: nat)
    requires x != y
    ensures Still(db, Trim(db, y, index, sz), x)
    decreases sz
  {
    if index < sz && sz - 1 < |ItemsAt(db, y)| {
      var s := Emit(db, RemoveItem(y, sz - 1), ());
      GetSet(db, y, Get(s.db, y), x);
      TrimStill(s.db, x, y, index, sz - 1);
    }
  }

  lemma {:induction false} ElementThrifty(c: Context, db: Db, x: Pos, y: Pos, pt: PropertyType, e: Input, i: nat,
          sz: nat)
    requires pt.Array? && x != y && Open(c, db, x)
    requires Apart(c, db, y, pt, InputFeet(c.schemas, pt.elem, e), UpdateModified)
    requires ConsistentInput(c.schemas, pt.elem, e, UpdateModified)
    requires |ItemsAt(db, y)| == if i < sz then sz else i
    ensures var s := AssignOne(c, db, y, pt.elem, e, i, sz);
            s.res.Ok? ==> Spent(c, db, s, x, InputClaims(c.schemas, pt.elem, e))
    decreases Weight(e), e, 6, 0
  {
    hide Create, WellFormed, ValidSchemas, LegalLog, Replay, RowsKept, WritesAt, Edits, Met;
    var items := ItemsAt(db, y);
    var current := if i < sz then LinkedRow(items[i]) else None;
    CurrentFromCell(c, db, y, pt);
    var u := Unbox(c, db, pt.elem, e, UpdateModified, current);
    UnboxThrifty(c, db, x, pt.elem, e, current);
    UnboxSpares(c, db, y, pt, e, UpdateModified, current);
    if u.res.Ok? {
      var s := AssignOne(c, db, y, pt.elem, e, i, sz);
      var w := if i < sz then StoreItem(u.db, y, i, items[i], u.res.value) else Emit(u.db, AddItem(y, u.res.value), ());
      GetSet(u.db, y, Get(w.db, y), x);
      if i < sz {
        StoreItemRuns(c, u.db, y, pt, i, items[i], u.res.value);
      } else {
        RunEmit(c, u.db, AddItem(y, u.res.value), ());
      }
      SpentThenStill(c, db, u, w, x, InputClaims(c.schemas, pt.elem, e));
    }
  }
}

/**
 Under UpdateModified a description that is given again says nothing new: setting a cell to what
 it holds already writes nothing, wherever in the input that happens.
 */
module Repeats {
  import opened Schema
  import opened Store
  import opened Safety
  import opened Accessor
  import opened Runs
  import opened Footprint
  import opened Upsert
  import opened Frame
  import opened Meaning
  import opened Fulfilment

  // The cell is what `v` stands for, whatever became of the objects that `v` describes.
  predicate Settled(schemas: Schemas, db: Db, x: Pos, pt: PropertyType, v: Input) {
    var cell := Get(db, x);
    if pt.Nullable() && v.NullInput? then cell == Null
    else if pt.Array? then
      if v == ListInput(x) then true
      else if v.NullInput? then cell == Items([])
      else v.Vector? && cell.Items? && |cell.items| == |v.elements|
           && forall i | 0 <= i < |cell.items| :: SettledItem(schemas, db, pt.elem, v.elements[i], cell.items[i])
    else SettledItem(schemas, db, pt.elem, v, cell)
  }

  predicate SettledItem(schemas: Schemas, db: Db, et: ElementType, v: Input, cell: Cell) {
    match et
    case ScalarElement(ty) => UnboxScalar(ty, v) == Ok(cell)
    case ObjectElement(target) =>
      cell.Link?
      && (if v.RowInput? then v.row == cell.row
          else target in schemas && (KeyedSchema(schemas[target]) ==>
                                       RowFor(schemas, db, target, v) == Some(cell.row)))
  }

  lemma DenotesSettled(c: Context, base: Db, db: Db, et: ElementType, v: Input, cell: Cell)
    requires Denotes(c.schemas, base, db, et, v, cell)
    ensures SettledItem(c.schemas, db, et, v, cell)
  {
  }

  lemma HoldsSettled(c: Context, base: Db, db: Db, x: Pos, pt: PropertyType, v: Input)
    requires HoldsInput(c.schemas, base, db, x, pt, v)
    ensures Settled(c.schemas, db, x, pt, v)
  {
    if pt.Array? && v.Vector? {
      forall i | 0 <= i < |v.elements|
        ensures SettledItem(c.schemas, db, pt.elem, v.elements[i], Get(db, x).items[i])
      {
        ElementSettled(c, base, db, pt.elem, v, Get(db, x).items, 0, i);
      }
    } else if pt.Single? && !(pt.Nullable() && v.NullInput?) {
      DenotesSettled(c, base, db, pt.elem, v, Get(db, x));
    }
  }

  lemma {:induction false} ElementSettled(c: Context, base: Db, db: Db, et: ElementType, v: Input, items: seq<Cell>,
          i: nat, j: nat)
    requires v.Vector? && |items| == |v.elements| && i <= j < |items|
    requires DenotesAll(c.schemas, base, db, et, v, items, i)
    ensures SettledItem(c.schemas, db, et, v.elements[j], items[j])
    decreases j - i
  {
    if i < j {
      ElementSettled(c, base, db, et, v, items, i + 1, j);
    } else {
      DenotesSettled(c, base, db, et, v.elements[j], items[j]);
    }
  }

  lemma SettledItemKept(c: Context, db: Db, db': Db, et: ElementType, v: Input, cell: Cell)
    requires Normal(c, db) && Normal(c, db') && RowsKept(c.schemas, db, db', true)
    requires SettledItem(c.schemas, db, et, v, cell)
    ensures SettledItem(c.schemas, db', et, v, cell)
  {
    if et.ObjectElement? && !v.RowInput? && KeyedSchema(c.schemas[et.target]) {
      RowForKept(c, db, db', et.target, v);
    }
  }

  lemma SettledKept<A>(c: Context, db: Db, s: Step<A>, x: Pos, pt: PropertyType, v: Input)
    requires Normal(c, db) && Run(c, db, s) && Get(s.db, x) == Get(db, x)
    requires Settled(c.schemas, db, x, pt, v)
    ensures Settled(c.schemas, s.db, x, pt, v)
  {
    RunReady(c, db, s);
    hide WellFormed, RowsKept, SettledItem, Get;
    if pt.Array? && v.Vector? {
      forall i | 0 <= i < |v.elements|
        ensures SettledItem(c.schemas, s.db, pt.elem, v.elements[i], Get(s.db, x).items[i])
      {
        SettledItemKept(c, db, s.db, pt.elem, v.elements[i], Get(db, x).items[i]);
      }
    } else if pt.Single? && !(pt.Nullable() && v.NullInput?) {
      SettledItemKept(c, db, s.db, pt.elem, v, Get(db, x));
    }
  }

  // ---- Nothing to do ----

  predicate Clears(c: Context, x: Pos, v: Input) {
    v.NullInput? && x.table in c.schemas && x.col < |c.schemas[x.table].props|
    && c.schemas[x.table].props[x.col].ptype.Array?
  }

  // The step leaves `x` alone, except that it may clear a list that is empty.
  ghost predicate Idle<A>(c: Context, db: Db, s: Step<A>, x: Pos, v: Input) {
    && Get(s.db, x) == Get(db, x)
    && forall w <- s.log | !w.NewRow? && w.at == x :: Clears(c, x, v) && w == ClearItems(x)
  }

  // `x` is a cell that is settled for `v`, and `claims` say nothing else of it.
  ghost predicate SettledFor(c: Context, db: Db, x: Pos, v: Input, claims: set<Claim>) {
    && Open(c, db, x) && x.col < |c.schemas[x.table].props|
    && Settled(c.schemas, db, x, c.schemas[x.table].props[x.col].ptype, v)
    && forall k <- claims | k.foot == FootAt(c.schemas, db, x) :: k.v == v
  }

  lemma SettledStays<A>(c: Context, db: Db, s: Step<A>, x: Pos, v: Input, claims: set<Claim>, fewer: set<Claim>)
    requires SettledFor(c, db, x, v, claims) && Run(c, db, s) && Get(s.db, x) == Get(db, x) && fewer <= claims
    ensures SettledFor(c, s.db, x, v, fewer)
  {
    OpenLoose(c, db, x);
    LooseKept(c, db, s, x, Get(db, x));
    SettledKept(c, db, s, x, c.schemas[x.table].props[x.col].ptype, v);
  }

  lemma IdleThen<A, B>(c: Context, db: Db, s: Step<A>, t: Step<B>, x: Pos, v: Input)
    requires Idle(c, db, s, x, v) && Idle(c, s.db, t, x, v)
    ensures Idle(c, db, Then(s, t), x, v)
  {
  }

  lemma {:induction false} CreateIdle(c: Context, db: Db, x: Pos, v: Input, t: string, value: Input,
          current: Option<nat>)
    requires SettledFor(c, db, x, v, Claims(c.schemas, t, value))
    requires current.Some? ==> current.value < RowCount(db, t)
    ensures Idle(c, db, Create(c, db, t, value, UpdateModified, current), x, v)
    decreases Weight(value), value, 2, 0
  {
    hide WellFormed, ValidSchemas, RowsKept, LegalLog, Replay, Populate, Settled, FindFirst;
    if !value.Dict? {
      NotCreated(c, db, x, v, t, value, current);
    } else if t in c.schemas {
      var slot := GetOrAddRow(c, db, t, c.schemas[t], value, UpdateModified, current);
      GetOrAddRowRuns(c, db, t, value, UpdateModified, current);
      SlotUpserts(c, db, t, value, UpdateModified, current);
      SlotStill(c, db, x, t, value, UpdateModified, current);
      SlotIdle(c, db, x, v, t, value, current);
      if slot.res.Ok? {
        RunReady(c, db, slot);
        SettledStays(c, db, slot, x, v, Claims(c.schemas, t, value), NestedClaims(c.schemas, c.schemas[t], value, 0));
        var rest := Populate(c, slot.db, t, c.schemas[t], slot.res.value, value, UpdateModified, 0);
        PopulateIdle(c, slot.db, x, v, t, slot.res.value, value, 0);
        IdleThen(c, db, slot, Report(rest, slot.res.value.row), x, v);
      }
    }
  }

  lemma NotCreated(c: Context, db: Db, x: Pos, v: Input, t: string, value: Input, current: Option<nat>)
    requires Open(c, db, x) && !value.Dict? && (current.Some? ==> current.value < RowCount(db, t))
    ensures Idle(c, db, Create(c, db, t, value, UpdateModified, current), x, v)
  {
    CreateOnlyFromDict(c, db, t, value, UpdateModified, current);
    OpenLoose(c, db, x);
    CreateSpares(c, db, x, t, value, UpdateModified, current);
    CreateFrame(c, db, x, Get(db, x), t, value, UpdateModified, current);
  }

  // What the loop puts into `x` is `v`.
  ghost predicate PutsOnly(os: ObjectSchema, t: string, slot: Slot, value: Input, i: nat, x: Pos, v: Input) {
    forall j: nat | i <= j < |os.props| && Choose(os, value, slot, j).Put? && Pos(t, slot.row, j) == x ::
      Choose(os, value, slot, j) == Put(v, false)
  }

  lemma SlotStill(c: Context, db: Db, x: Pos, t: string, value: Input, policy: CreatePolicy, current: Option<nat>)
    requires Open(c, db, x) && t in c.schemas
    ensures var s := GetOrAddRow(c, db, t, c.schemas[t], value, policy, current);
            Quiet(s.log, x) && Get(s.db, x) == Get(db, x)
  {
    hide FindFirst, KeyFor;
  }

  lemma SlotIdle(c: Context, db: Db, x: Pos, v: Input, t: string, value: Input, current: Option<nat>)
    requires SettledFor(c, db, x, v, Claims(c.schemas, t, value)) && t in c.schemas && value.Dict?
    requires current.Some? ==> current.value < RowCount(db, t)
    ensures var s := GetOrAddRow(c, db, t, c.schemas[t], value, UpdateModified, current);
            s.res.Ok? ==> PutsOnly(c.schemas[t], t, s.res.value, value, 0, x, v)
  {
    hide Settled, FindFirst, GetOrAddRow, InputClaims, NestedClaims;
    var os := c.schemas[t];
    var s := GetOrAddRow(c, db, t, os, value, UpdateModified, current);
    SlotRetains(c, db, t, value, UpdateModified, current);
    if s.res.Ok? && x.table == t && x.row == s.res.value.row {
      var slot := s.res.value;
      assert !slot.created;
      FootKept(c, db, s.db, x);
      forall j: nat | j < |os.props| && Choose(os, value, slot, j).Put? && Pos(t, slot.row, j) == x
        ensures Choose(os, value, slot, j) == Put(v, false)
      {
        OwnFoot(os, t, value, j);
      }
    }
  }

  lemma {:induction false} PopulateIdle(c: Context, db: Db, x: Pos, v: Input, t: string, slot: Slot, value: Input,
          i: nat)
    requires value.Dict? && SlotFits(c, db, t, slot)
    requires SettledFor(c, db, x, v, NestedClaims(c.schemas, c.schemas[t], value, i))
    requires PutsOnly(c.schemas[t], t, slot, value, i, x, v)
    ensures Idle(c, db, Populate(c, db, t, c.schemas[t], slot, value, UpdateModified, i), x, v)
    decreases Weight(value), value, 1, |c.schemas[t].props| + 1 - i
  {
    hide Create, WellFormed, ValidSchemas, RowsKept, LegalLog, Replay, Settled;
    var os := c.schemas[t];
    if i < |os.props| {
      var s := PopulateOne(c, db, t, os, slot, value, UpdateModified, i);
      PopulateOneRuns(c, db, t, slot, value, UpdateModified, i);
      PopulateOneIdle(c, db, x, v, t, slot, value, i);
      if s.res.Ok? {
        RunReady(c, db, s);
        SettledStays(c, db, s, x, v, NestedClaims(c.schemas, os, value, i), NestedClaims(c.schemas, os, value, i + 1));
        PopulateIdle(c, s.db, x, v, t, slot, value, i + 1);
        IdleThen(c, db, s, Populate(c, s.db, t, os, slot, value, UpdateModified, i + 1), x, v);
      }
    }
  }

  lemma {:induction false} PopulateOneIdle(c: Context, db: Db, x: Pos, v: Input, t: string, slot: Slot, value: Input,
          i: nat)
    requires value.Dict? && SlotFits(c, db, t, slot) && i < |c.schemas[t].props|
    requires SettledFor(c, db, x, v, FieldClaims(c.schemas, c.schemas[t], value, i))
    requires PutsOnly(c.schemas[t], t, slot, value, i, x, v)
    ensures Idle(c, db, PopulateOne(c, db, t, c.schemas[t], slot, value, UpdateModified, i), x, v)
    decreases Weight(value), value, 1, 0
  {
    hide Create, WellFormed, ValidSchemas, RowsKept, LegalLog, Replay, Settled;
    var os := c.schemas[t];
    match Choose(os, value, slot, i)
    case Put(w, isDefault) =>
      SlotTarget(c, db, t, slot, value, i);
      PutFeet(c, os, value, slot, i);
      SetPropertyIdle(c, db, x, v, Pos(t, slot.row, i), os.props[i].ptype, w, isDefault);
    case _ =>
  }

  lemma {:induction false} SetPropertyIdle(c: Context, db: Db, x: Pos, v: Input, y: Pos, pt: PropertyType, w: Input,
          isDefault: bool)
    requires Target(c, db, y, pt) && SettledFor(c, db, x, v, InputClaims(c.schemas, pt.elem, w))
    requires x == y ==> w == v && !isDefault
    ensures Idle(c, db, SetProperty(c, db, y, pt, w, UpdateModified, isDefault), x, v)
    decreases Weight(w), w, 5, 0
  {
    hide Create, WellFormed, ValidSchemas, RowsKept, LegalLog, Replay;
    CurrentFromCell(c, db, y, pt);
    if pt.Nullable() && w.NullInput? {
      GetSet(db, y, Null, x);
    } else if pt.Array? {
      AssignIdle(c, db, x, v, y, pt, w);
    } else {
      var seen := Get(db, y);
      var u := Unbox(c, db, pt.elem, w, UpdateModified, LinkedRow(seen));
      UnboxIdle(c, db, x, v, pt.elem, w, LinkedRow(seen));
      if x == y { UnboxSettled(c, db, pt.elem, w, seen); }
      if u.res.Ok? {
        GetSet(u.db, y, u.res.value, x);
        IdleThen(c, db, u, StoreCell(u.db, y, seen, u.res.value, UpdateModified), x, v);
      }
    }
  }

  lemma {:induction false} UnboxIdle(c: Context, db: Db, x: Pos, v: Input, et: ElementType, w: Input,
          current: Option<nat>)
    requires CurrentFits(db, et, current) && SettledFor(c, db, x, v, InputClaims(c.schemas, et, w))
    ensures Idle(c, db, Unbox(c, db, et, w, UpdateModified, current), x, v)
    decreases Weight(w), w, 3, 0
  {
    hide Create, WellFormed, ValidSchemas, RowsKept, LegalLog, Replay, Settled;
    if et.ObjectElement? && !w.RowInput? {
      if w.Dict? {
        CreateIdle(c, db, x, v, et.target, w, current);
      } else {
        NotCreated(c, db, x, v, et.target, w, current);
      }
    }
  }

  // Unboxing what a cell stands for gives the cell.
  lemma UnboxSettled(c: Context, db: Db, et: ElementType, w: Input, cell: Cell)
    requires SettledItem(c.schemas, db, et, w, cell)
    ensures var u := Unbox(c, db, et, w, UpdateModified, LinkedRow(cell));
            u.res.Ok? ==> u.res.value == cell
  {
    hide Populate, FindFirst;
  }

  // ---- Lists ----

  lemma {:induction false} AssignIdle(c: Context, db: Db, x: Pos, v: Input, y: Pos, pt: PropertyType, w: Input)
    requires Target(c, db, y, pt) && pt.Array? && SettledFor(c, db, x, v, InputClaims(c.schemas, pt.elem, w))
    requires x == y ==> w == v
    ensures Idle(c, db, Assign(c, db, y, pt.elem, w, UpdateModified), x, v)
    decreases Weight(w), w, 4, 0
  {
    hide Create, WellFormed, ValidSchemas, RowsKept, LegalLog, Replay;
    GetSet(db, y, Items([]), x);
    if w.Vector? {
      AssignFromIdle(c, db, x, v, y, pt, w, 0, |ItemsAt(db, y)|);
    }
  }

  lemma {:induction false} AssignFromIdle(c: Context, db: Db, x: Pos, v: Input, y: Pos, pt: PropertyType, w: Input,
          i: nat, sz: nat)
    requires Target(c, db, y, pt) && pt.Array? && w.Vector?
    requires SettledFor(c, db, x, v, TailClaims(c.schemas, pt.elem, w, i))
    requires x == y ==> w == v && sz == |w.elements| && i <= sz
    ensures Idle(c, db, AssignFrom(c, db, y, pt.elem, w, i, sz), x, v)
    decreases Weight(w), w, 0, |w.elements| - i
  {
    hide Create, WellFormed, ValidSchemas, RowsKept, LegalLog, Replay, Settled, SetIfDifferent, AddOne;
    if i >= |w.elements| {
      if x != y { TrimIdle(c, db, x, v, y, i, sz); }
    } else {
      var e := w.elements[i];
      var s := AssignOne(c, db, y, pt.elem, e, i, sz);
      if i < sz { SetIfDifferentRuns(c, db, y, pt, e, i); } else { AddOneRuns(c, db, y, pt, e, UpdateModified); }
      ElementIdle(c, db, x, v, y, pt, w, i, sz);
      if s.res.Ok? {
        RunReady(c, db, s);
        TargetKept(c, db, s, y, pt);
        SettledStays(c, db, s, x, v, TailClaims(c.schemas, pt.elem, w, i), TailClaims(c.schemas, pt.elem, w, i + 1));
        AssignFromIdle(c, s.db, x, v, y, pt, w, i + 1, sz);
        IdleThen(c, db, s, AssignFrom(c, s.db, y, pt.elem, w, i + 1, sz), x, v);
      }
    }
  }

  lemma {:induction false} TrimIdle(c: Context, db: Db, x: Pos, v: Input, y: Pos, index: nat, sz: nat)
    requires x != y
    ensures Idle(c, db, Trim(db, y, index, sz), x, v)
    decreases sz
  {
    if index < sz && sz - 1 < |ItemsAt(db, y)| {
      var s := Emit(db, RemoveItem(y, sz - 1), ());
      GetSet(db, y, Get(s.db, y), x);
      TrimIdle(c, s.db, x, v, y, index, sz - 1);
    }
  }

  lemma {:induction false} ElementIdle(c: Context, db: Db, x: Pos, v: Input, y: Pos, pt: PropertyType, w: Input,
          i: nat, sz: nat)
    requires Target(c, db, y, pt) && pt.Array? && w.Vector? && i < |w.elements|
    requires SettledFor(c, db, x, v, InputClaims(c.schemas, pt.elem, w.elements[i]))
    requires x == y ==> w == v && sz == |w.elements|
    ensures Idle(c, db, AssignOne(c, db, y, pt.elem, w.elements[i], i, sz), x, v)
    decreases Weight(w.elements[i]), w.elements[i], 6, 0
  {
    hide Create, WellFormed, ValidSchemas, RowsKept, LegalLog, Replay;
    var items := ItemsAt(db, y);
    var current := if i < sz && i < |items| then LinkedRow(items[i]) else None;
    CurrentFromCell(c, db, y, pt);
    var u := Unbox(c, db, pt.elem, w.elements[i], UpdateModified, current);
    UnboxIdle(c, db, x, v, pt.elem, w.elements[i], current);
    if x == y { UnboxSettled(c, db, pt.elem, w.elements[i], items[i]); }
    if u.res.Ok? && x != y {
      var s := AssignOne(c, db, y, pt.elem, w.elements[i], i, sz);
      GetSet(u.db, y, Get(s.db, y), x);
    }
  }
}

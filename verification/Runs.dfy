/**
 Every accessor operation is a run of legal writes, whatever the input and wherever it
 stops with an error.
 */
module Runs {
  import opened Schema
  import opened Store
  import opened Safety
  import opened Accessor

  ghost predicate Run<A>(c: Context, db: Db, s: Step<A>) {
    LegalLog(c, db, s.log) && s.db == Replay(db, s.log)
  }

  ghost predicate Ready(c: Context, db: Db) {
    ValidSchemas(c.schemas) && WellFormed(c.schemas, db)
  }

  lemma RunReady<A>(c: Context, db: Db, s: Step<A>)
    requires Ready(c, db) && Run(c, db, s)
    ensures Ready(c, s.db) && RowsKept(c.schemas, db, s.db, !c.inMigration)
  {
    LogKeepsRows(c, db, s.log);
  }

  lemma RunThen<A, B>(c: Context, db: Db, s: Step<A>, t: Step<B>)
    requires Run(c, db, s) && Run(c, s.db, t)
    ensures Run(c, db, Then(s, t))
  {
    LegalConcat(c, db, s.log, t.log);
    ReplayConcat(db, s.log, t.log);
  }

  lemma RunDone<A>(c: Context, db: Db, s: Step<A>)
    requires s.db == db && s.log == []
    ensures Run(c, db, s)
  {
  }

  lemma RunEmit<A>(c: Context, db: Db, w: Write, a: A)
    requires LegalWrite(c, db, w)
    ensures Run(c, db, Emit(db, w, a))
  {
    assert [w][1..] == [];
    assert Replay(db, [w]) == Replay(Apply(db, w), []);
  }

  // The cell at `x` belongs to a property of type `pt` that may be written.
  ghost predicate Target(c: Context, db: Db, x: Pos, pt: PropertyType) {
    Column(c, db, x, pt.Array?) && c.schemas[x.table].props[x.col].ptype == pt
  }

  lemma TargetKept<A>(c: Context, db: Db, s: Step<A>, x: Pos, pt: PropertyType)
    requires Ready(c, db) && Run(c, db, s) && Target(c, db, x, pt)
    ensures Target(c, s.db, x, pt)
  {
    RunReady(c, db, s);
    assert RowCount(db, x.table) <= RowCount(s.db, x.table);
    assert RowFits(s.db, c.schemas[x.table], s.db[x.table][x.row]);
    assert RowFits(db, c.schemas[x.table], db[x.table][x.row]);
  }

  // The row `current` that a link or list element holds is a row of the linked type.
  ghost predicate CurrentFits(db: Db, et: ElementType, current: Option<nat>) {
    et.ObjectElement? && current.Some? ==> current.value < RowCount(db, et.target)
  }

  lemma GetOrAddRowRuns(c: Context, db: Db, t: string, value: Input, policy: CreatePolicy, current: Option<nat>)
    requires Ready(c, db) && t in c.schemas && (current.Some? ==> current.value < RowCount(db, t))
    ensures var s := GetOrAddRow(c, db, t, c.schemas[t], value, policy, current);
            && Run(c, db, s)
            && (s.res.Ok? ==> SlotFits(c, s.db, t, s.res.value))
  {
    var os := c.schemas[t];
    var s := GetOrAddRow(c, db, t, os, value, policy, current);
    if s.log == [] {
      RunDone(c, db, s);
    } else {
      if os.primary.Some? {
        KeyFits(c, db, os, value);
        FreshKeyFromSearch(c, db, t, os.primary.value, KeyFor(os, value).value);
      }
      RunEmit(c, db, s.log[0], s.res.value);
    }
  }

  ghost predicate SlotFits(c: Context, db: Db, t: string, slot: Slot) {
    t in c.schemas && slot.row < RowCount(db, t) && (c.schemas[t].primary.Some? && !slot.skipPrimary ==> c.inMigration)
  }

  // Whatever the loop puts somewhere, it puts into a cell it may write.
  lemma SlotTarget(c: Context, db: Db, t: string, slot: Slot, value: Input, i: nat)
    requires Ready(c, db) && SlotFits(c, db, t, slot) && i < |c.schemas[t].props|
    requires Choose(c.schemas[t], value, slot, i).Put?
    ensures Target(c, db, Pos(t, slot.row, i), c.schemas[t].props[i].ptype)
  {
    assert RowFits(db, c.schemas[t], db[t][slot.row]);
  }

  lemma KeyFits(c: Context, db: Db, os: ObjectSchema, value: Input)
    requires ValidObjectSchema(c.schemas, os) && os.primary.Some?
    ensures KeyFor(os, value).Ok? ==> CellFits(db, os.props[os.primary.value].ptype, KeyFor(os, value).value)
  {
  }

  lemma FreshKeyFromSearch(c: Context, db: Db, t: string, pk: nat, key: Cell)
    requires Ready(c, db) && t in c.schemas && pk < |c.schemas[t].props|
    ensures FindFirst(db[t], pk, key).None? <==> FreshKey(db, t, pk, key)
  {
    forall r: nat | r < |db[t]| ensures pk < |db[t][r]| && Get(db, Pos(t, r, pk)) == db[t][r][pk] {
      assert RowFits(db, c.schemas[t], db[t][r]);
    }
  }

  lemma {:induction false} CreateRuns(c: Context, db: Db, t: string, value: Input, policy: CreatePolicy,
          current: Option<nat>)
    requires Ready(c, db) && (current.Some? ==> current.value < RowCount(db, t))
    ensures var s := Create(c, db, t, value, policy, current);
            && Run(c, db, s)
            && (s.res.Ok? ==> s.res.value < RowCount(s.db, t))
    decreases Weight(value), value, 2, 0
  {
    var s := Create(c, db, t, value, policy, current);
    if t !in c.schemas {
      RunDone(c, db, s);
    } else {
      var slot := GetOrAddRow(c, db, t, c.schemas[t], value, policy, current);
      GetOrAddRowRuns(c, db, t, value, policy, current);
      if slot.res.Ok? {
        RunReady(c, db, slot);
        var rest := Populate(c, slot.db, t, c.schemas[t], slot.res.value, value, policy, 0);
        PopulateRuns(c, slot.db, t, slot.res.value, value, policy, 0);
        RunReady(c, slot.db, rest);
        RunThen(c, db, slot, Report(rest, slot.res.value.row));
      }
    }
  }

  lemma {:induction false} PopulateRuns(c: Context, db: Db, t: string, slot: Slot, value: Input, policy: CreatePolicy,
          i: nat)
    requires Ready(c, db) && SlotFits(c, db, t, slot)
    ensures Run(c, db, Populate(c, db, t, c.schemas[t], slot, value, policy, i))
    decreases Weight(value), value, 1, |c.schemas[t].props| + 1 - i
  {
    var os := c.schemas[t];
    if i >= |os.props| {
      RunDone(c, db, Populate(c, db, t, os, slot, value, policy, i));
    } else {
      var s := PopulateOne(c, db, t, os, slot, value, policy, i);
      PopulateOneRuns(c, db, t, slot, value, policy, i);
      if s.res.Ok? {
        RunReady(c, db, s);
        PopulateRuns(c, s.db, t, slot, value, policy, i + 1);
        RunThen(c, db, s, Populate(c, s.db, t, os, slot, value, policy, i + 1));
      }
    }
  }

  lemma {:induction false} PopulateOneRuns(c: Context, db: Db, t: string, slot: Slot, value: Input,
          policy: CreatePolicy, i: nat)
    requires Ready(c, db) && SlotFits(c, db, t, slot) && i < |c.schemas[t].props|
    ensures Run(c, db, PopulateOne(c, db, t, c.schemas[t], slot, value, policy, i))
    decreases Weight(value), value, 1, 0
  {
    var os := c.schemas[t];
    match Choose(os, value, slot, i)
    case Put(v, isDefault) =>
      SlotTarget(c, db, t, slot, value, i);
      SetPropertyRuns(c, db, Pos(t, slot.row, i), os.props[i].ptype, v, policy, isDefault);
    case _ =>
      RunDone(c, db, PopulateOne(c, db, t, os, slot, value, policy, i));
  }

  lemma {:induction false} SetPropertyRuns(c: Context, db: Db, x: Pos, pt: PropertyType, v: Input,
          policy: CreatePolicy, isDefault: bool)
    requires Ready(c, db) && Target(c, db, x, pt)
    ensures Run(c, db, SetProperty(c, db, x, pt, v, policy, isDefault))
    decreases Weight(v), v, 5, 0
  {
    var s := SetProperty(c, db, x, pt, v, policy, isDefault);
    if pt.Nullable() && v.NullInput? {
      if s.log == [] { RunDone(c, db, s); } else { RunEmit(c, db, SetCell(x, Null), ()); }
    } else if pt.Array? {
      AssignRuns(c, db, x, pt, v, policy);
    } else {
      var seen := Get(db, x);
      CurrentFromCell(c, db, x, pt);
      var u := Unbox(c, db, pt.elem, v, policy, LinkedRow(seen));
      UnboxRuns(c, db, pt.elem, v, policy, LinkedRow(seen));
      if u.res.Ok? {
        TargetKept(c, db, u, x, pt);
        StoreCellRuns(c, u.db, x, pt, seen, u.res.value, policy);
        RunThen(c, db, u, StoreCell(u.db, x, seen, u.res.value, policy));
      }
    }
  }

  lemma StoreCellRuns(c: Context, db: Db, x: Pos, pt: PropertyType, seen: Cell, cell: Cell, policy: CreatePolicy)
    requires Target(c, db, x, pt) && pt.Single? && CellFits(db, pt, cell)
    ensures Run(c, db, StoreCell(db, x, seen, cell, policy))
  {
    if policy.UpdateModified? && seen == cell {
      RunDone(c, db, StoreCell(db, x, seen, cell, policy));
    } else {
      RunEmit(c, db, SetCell(x, cell), ());
    }
  }

  lemma StoreItemRuns(c: Context, db: Db, x: Pos, pt: PropertyType, i: nat, seen: Cell, cell: Cell)
    requires Target(c, db, x, pt) && pt.Array? && ItemFits(db, pt.elem, cell)
    ensures Run(c, db, StoreItem(db, x, i, seen, cell))
  {
    if seen != cell && i < |ItemsAt(db, x)| {
      RunEmit(c, db, SetItem(x, i, cell), ());
    } else {
      RunDone(c, db, StoreItem(db, x, i, seen, cell));
    }
  }

  lemma CurrentFromCell(c: Context, db: Db, x: Pos, pt: PropertyType)
    requires Ready(c, db) && Target(c, db, x, pt)
    ensures CellFits(db, pt, Get(db, x))
    ensures pt.Single? ==> CurrentFits(db, pt.elem, LinkedRow(Get(db, x)))
    ensures forall i | 0 <= i < |ItemsAt(db, x)| :: pt.Array? ==> ItemFits(db, pt.elem, ItemsAt(db, x)[i])
  {
    assert RowFits(db, c.schemas[x.table], db[x.table][x.row]);
  }

  lemma {:induction false} UnboxRuns(c: Context, db: Db, et: ElementType, v: Input, policy: CreatePolicy,
          current: Option<nat>)
    requires Ready(c, db) && CurrentFits(db, et, current)
    ensures var u := Unbox(c, db, et, v, policy, current);
            && Run(c, db, u)
            && (u.res.Ok? ==> ItemFits(u.db, et, u.res.value))
    decreases Weight(v), v, 3, 0
  {
    var u := Unbox(c, db, et, v, policy, current);
    if et.ObjectElement? && !v.RowInput? && !policy.Skip? {
      CreateRuns(c, db, et.target, v, policy, current);
    } else {
      RunDone(c, db, u);
    }
  }

  lemma {:induction false} AssignRuns(c: Context, db: Db, x: Pos, pt: PropertyType, v: Input, policy: CreatePolicy)
    requires Ready(c, db) && Target(c, db, x, pt) && pt.Array?
    ensures Run(c, db, Assign(c, db, x, pt.elem, v, policy))
    decreases Weight(v), v, 4, 0
  {
    var s := Assign(c, db, x, pt.elem, v, policy);
    var cleared := Emit(db, ClearItems(x), ());
    RunEmit(c, db, ClearItems(x), ());
    if v == ListInput(x) {
      RunDone(c, db, s);
    } else if v.NullInput? {
    } else if policy.UpdateModified? {
      if v.Vector? { AssignFromRuns(c, db, x, pt, v, 0, |ItemsAt(db, x)|); } else { RunDone(c, db, s); }
    } else {
      RunReady(c, db, cleared);
      TargetKept(c, db, cleared, x, pt);
      if v.Vector? {
        AddFromRuns(c, cleared.db, x, pt, v, 0, policy);
        RunThen(c, db, cleared, AddFrom(c, cleared.db, x, pt.elem, v, 0, policy));
      } else {
        RunDone(c, cleared.db, Fail<()>(cleared.db, BadCast));
        RunThen(c, db, cleared, Fail<()>(cleared.db, BadCast));
      }
    }
  }

  lemma {:induction false} AssignFromRuns(c: Context, db: Db, x: Pos, pt: PropertyType, v: Input, i: nat, sz: nat)
    requires Ready(c, db) && Target(c, db, x, pt) && pt.Array? && v.Vector?
    ensures Run(c, db, AssignFrom(c, db, x, pt.elem, v, i, sz))
    decreases Weight(v), v, 0, |v.elements| - i
  {
    if i >= |v.elements| {
      TrimRuns(c, db, x, pt, i, sz);
    } else {
      var e := v.elements[i];
      var s := AssignOne(c, db, x, pt.elem, e, i, sz);
      if i < sz {
        SetIfDifferentRuns(c, db, x, pt, e, i);
      } else {
        AddOneRuns(c, db, x, pt, e, UpdateModified);
      }
      if s.res.Ok? {
        RunReady(c, db, s);
        TargetKept(c, db, s, x, pt);
        AssignFromRuns(c, s.db, x, pt, v, i + 1, sz);
        RunThen(c, db, s, AssignFrom(c, s.db, x, pt.elem, v, i + 1, sz));
      }
    }
  }

  lemma {:induction false} SetIfDifferentRuns(c: Context, db: Db, x: Pos, pt: PropertyType, e: Input, i: nat)
    requires Ready(c, db) && Target(c, db, x, pt) && pt.Array?
    ensures Run(c, db, SetIfDifferent(c, db, x, pt.elem, e, i))
    decreases Weight(e), e, 6, 0
  {
    var s := SetIfDifferent(c, db, x, pt.elem, e, i);
    if i >= |ItemsAt(db, x)| {
      RunDone(c, db, s);
    } else {
      CurrentFromCell(c, db, x, pt);
      var u := Unbox(c, db, pt.elem, e, UpdateModified, LinkedRow(ItemsAt(db, x)[i]));
      UnboxRuns(c, db, pt.elem, e, UpdateModified, LinkedRow(ItemsAt(db, x)[i]));
      if u.res.Ok? {
        TargetKept(c, db, u, x, pt);
        StoreItemRuns(c, u.db, x, pt, i, ItemsAt(db, x)[i], u.res.value);
        RunThen(c, db, u, StoreItem(u.db, x, i, ItemsAt(db, x)[i], u.res.value));
      }
    }
  }

  lemma {:induction false} AddOneRuns(c: Context, db: Db, x: Pos, pt: PropertyType, e: Input, policy: CreatePolicy)
    requires Ready(c, db) && Target(c, db, x, pt) && pt.Array?
    ensures Run(c, db, AddOne(c, db, x, pt.elem, e, policy))
    decreases Weight(e), e, 6, 0
  {
    var u := Unbox(c, db, pt.elem, e, policy, None);
    UnboxRuns(c, db, pt.elem, e, policy, None);
    if u.res.Ok? {
      TargetKept(c, db, u, x, pt);
      RunEmit(c, u.db, AddItem(x, u.res.value), ());
      RunThen(c, db, u, Emit(u.db, AddItem(x, u.res.value), ()));
    }
  }

  lemma {:induction false} AddFromRuns(c: Context, db: Db, x: Pos, pt: PropertyType, v: Input, i: nat,
          policy: CreatePolicy)
    requires Ready(c, db) && Target(c, db, x, pt) && pt.Array? && v.Vector?
    ensures Run(c, db, AddFrom(c, db, x, pt.elem, v, i, policy))
    decreases Weight(v), v, 0, |v.elements| - i
  {
    if i >= |v.elements| {
      RunDone(c, db, AddFrom(c, db, x, pt.elem, v, i, policy));
    } else {
      var s := AddOne(c, db, x, pt.elem, v.elements[i], policy);
      AddOneRuns(c, db, x, pt, v.elements[i], policy);
      if s.res.Ok? {
        RunReady(c, db, s);
        TargetKept(c, db, s, x, pt);
        AddFromRuns(c, s.db, x, pt, v, i + 1, policy);
        RunThen(c, db, s, AddFrom(c, s.db, x, pt.elem, v, i + 1, policy));
      }
    }
  }

  lemma {:induction false} TrimRuns(c: Context, db: Db, x: Pos, pt: PropertyType, index: nat, sz: nat)
    requires Ready(c, db) && Target(c, db, x, pt) && pt.Array?
    ensures Run(c, db, Trim(db, x, index, sz))
    decreases sz
  {
    var s := Trim(db, x, index, sz);
    if index >= sz || sz - 1 >= |ItemsAt(db, x)| {
      RunDone(c, db, s);
    } else {
      var r := Emit(db, RemoveItem(x, sz - 1), ());
      RunEmit(c, db, RemoveItem(x, sz - 1), ());
      RunReady(c, db, r);
      TargetKept(c, db, r, x, pt);
      TrimRuns(c, r.db, x, pt, index, sz - 1);
      RunThen(c, db, r, Trim(r.db, x, index, sz - 1));
    }
  }

  // ---- Entry points ----

  lemma WritableTarget(c: Context, db: Db, t: string, row: nat, name: string)
    requires Ready(c, db) && t in c.schemas && row < RowCount(db, t)
    ensures var i := WritableProperty(c, c.schemas[t], name);
            i.Ok? ==>
              && i.value < |c.schemas[t].props|
              && Target(c, db, Pos(t, row, i.value), c.schemas[t].props[i.value].ptype)
  {
    assert RowFits(db, c.schemas[t], db[t][row]);
  }

  lemma SetPropertyValueRuns(c: Context, db: Db, t: string, row: nat, name: string, v: Input, policy: CreatePolicy)
    requires Ready(c, db)
    ensures Run(c, db, SetPropertyValue(c, db, t, row, name, v, policy))
  {
    var s := SetPropertyValue(c, db, t, row, name, v, policy);
    if t in c.schemas && row < RowCount(db, t) && WritableProperty(c, c.schemas[t], name).Ok? {
      var i := WritableProperty(c, c.schemas[t], name).value;
      WritableTarget(c, db, t, row, name);
      SetPropertyRuns(c, db, Pos(t, row, i), c.schemas[t].props[i].ptype, v, policy, false);
    } else {
      RunDone(c, db, s);
    }
  }

  lemma {:induction false} SetEachRuns(c: Context, db: Db, t: string, rows: seq<nat>, j: nat, col: nat,
          pt: PropertyType, v: Input)
    requires Ready(c, db) && t in c.schemas
    requires forall r <- rows :: r < RowCount(db, t)
    requires forall r: nat | r < RowCount(db, t) :: Target(c, db, Pos(t, r, col), pt)
    ensures Run(c, db, SetEach(c, db, t, rows, j, col, pt, v))
    decreases |rows| - j
  {
    var s := SetEach(c, db, t, rows, j, col, pt, v);
    if j >= |rows| {
      RunDone(c, db, s);
    } else {
      var p := SetProperty(c, db, Pos(t, rows[j], col), pt, v, ForceCreate, false);
      assert rows[j] in rows;
      SetPropertyRuns(c, db, Pos(t, rows[j], col), pt, v, ForceCreate, false);
      if p.res.Ok? {
        RunReady(c, db, p);
        assert RowCount(db, t) <= RowCount(p.db, t);
        forall r: nat | r < RowCount(p.db, t) ensures Target(c, p.db, Pos(t, r, col), pt) {
          assert Target(c, db, Pos(t, rows[j], col), pt);
          assert RowFits(p.db, c.schemas[t], p.db[t][r]);
          assert RowFits(db, c.schemas[t], db[t][rows[j]]);
        }
        SetEachRuns(c, p.db, t, rows, j + 1, col, pt, v);
        RunThen(c, db, p, SetEach(c, p.db, t, rows, j + 1, col, pt, v));
      }
    }
  }

  lemma SetAllRuns(c: Context, db: Db, t: string, query: Query, name: string, v: Input)
    requires Ready(c, db)
    ensures Run(c, db, SetAll(c, db, t, query, name, v))
  {
    var s := SetAll(c, db, t, query, name, v);
    if t in c.schemas && WritableProperty(c, c.schemas[t], name).Ok? {
      var i := WritableProperty(c, c.schemas[t], name).value;
      var rows := Matching(db, t, query, 0);
      forall r: nat | r < RowCount(db, t) ensures Target(c, db, Pos(t, r, i), c.schemas[t].props[i].ptype) {
        WritableTarget(c, db, t, r, name);
      }
      SetEachRuns(c, db, t, rows, 0, i, c.schemas[t].props[i].ptype, v);
    } else {
      RunDone(c, db, s);
    }
  }
}

/**
 Object identity: which rows a create adds, and that no key is ever shared or changed.
 */
module Upsert {
  import opened Schema
  import opened Store
  import opened Safety
  import opened Accessor
  import opened Runs
  import opened Footprint

  predicate HasKey(schemas: Schemas, db: Db, t: string, key: Cell) {
    exists r: nat | r < RowCount(db, t) :: KeyAt(schemas, db, t, r) == key
  }

  // The objects of a footprint that have a primary key all exist.
  ghost predicate Present(schemas: Schemas, db: Db, feet: set<Foot>) {
    forall f <- feet | f.table in schemas && schemas[f.table].primary.Some? :: HasKey(schemas, db, f.table, f.key)
  }

  // Every keyed row the log adds is an object of the footprint.
  ghost predicate AddsOnly(schemas: Schemas, log: seq<Write>, feet: set<Foot>) {
    forall w <- log | w.NewRow? && w.table in schemas && schemas[w.table].primary.Some? ::
      schemas[w.table].primary.value < |w.cells|
      && Foot(w.table, w.cells[schemas[w.table].primary.value], schemas[w.table].primary.value) in feet
  }

  lemma PresentKept(c: Context, db: Db, db': Db, feet: set<Foot>)
    requires RowsKept(c.schemas, db, db', true) && Present(c.schemas, db, feet)
    ensures Present(c.schemas, db', feet)
  {
    forall f <- feet | f.table in c.schemas && c.schemas[f.table].primary.Some?
      ensures HasKey(c.schemas, db', f.table, f.key)
    {
      var r: nat :| r < RowCount(db, f.table) && KeyAt(c.schemas, db, f.table, r) == f.key;
      assert RowCount(db, f.table) <= RowCount(db', f.table);
      assert KeyAt(c.schemas, db', f.table, r) == f.key;
    }
  }

  // What one operation does to the set of objects: it adds none outside `feet`, and if it
  // succeeds all of `feet` exist.
  ghost predicate Upserts<A>(c: Context, s: Step<A>, feet: set<Foot>) {
    && AddsOnly(c.schemas, s.log, feet)
    && (s.res.Ok? ==> Present(c.schemas, s.db, feet))
  }

  ghost predicate Normal(c: Context, db: Db) {
    Ready(c, db) && !c.inMigration
  }

  lemma UpsertsThen<A, B>(c: Context, db: Db, s: Step<A>, f: set<Foot>, t: Step<B>, g: set<Foot>, h: set<Foot>)
    requires Ready(c, s.db) && !c.inMigration && Run(c, s.db, t) && s.res.Ok?
    requires Upserts(c, s, f) && Upserts(c, t, g) && h == f + g
    ensures Upserts(c, Then(s, t), h)
  {
    RunReady(c, s.db, t);
    PresentKept(c, s.db, t.db, f);
  }

  lemma SlotUpserts(c: Context, db: Db, t: string, value: Input, policy: CreatePolicy, current: Option<nat>)
    requires Normal(c, db) && t in c.schemas && (current.Some? ==> current.value < RowCount(db, t))
    ensures var s := GetOrAddRow(c, db, t, c.schemas[t], value, policy, current);
            && Upserts(c, s, OwnFeet(c.schemas[t], t, value))
            && (s.res.Ok? && c.schemas[t].primary.Some? ==>
                  KeyFor(c.schemas[t], value).Ok? && s.res.value.row < RowCount(s.db, t)
                  && KeyAt(c.schemas, s.db, t, s.res.value.row) == KeyFor(c.schemas[t], value).value)
  {
    var os := c.schemas[t];
    var s := GetOrAddRow(c, db, t, os, value, policy, current);
    if os.primary.Some? && KeyFor(os, value).Ok? {
      var key := KeyFor(os, value).value;
      assert value.Dict?;
      OwnFoot(os, t, value, os.primary.value);
      if s.res.Ok? {
        assert s.res.value.row < RowCount(s.db, t) && KeyAt(c.schemas, s.db, t, s.res.value.row) == key;
      }
    }
  }

  lemma {:induction false} CreateUpserts(c: Context, db: Db, t: string, value: Input, policy: CreatePolicy,
          current: Option<nat>)
    requires Normal(c, db) && (current.Some? ==> current.value < RowCount(db, t))
    ensures Upserts(c, Create(c, db, t, value, policy, current), Feet(c.schemas, t, value))
    decreases Weight(value), value, 2, 0
  {
    if t in c.schemas {
      var os := c.schemas[t];
      var slot := GetOrAddRow(c, db, t, os, value, policy, current);
      GetOrAddRowRuns(c, db, t, value, policy, current);
      SlotUpserts(c, db, t, value, policy, current);
      if slot.res.Ok? {
        RunReady(c, db, slot);
        var rest := Populate(c, slot.db, t, os, slot.res.value, value, policy, 0);
        PopulateRuns(c, slot.db, t, slot.res.value, value, policy, 0);
        if value.Dict? {
          PopulateUpserts(c, slot.db, t, slot.res.value, value, policy, 0);
          UpsertsThen(c, db, slot, OwnFeet(os, t, value), Report(rest, slot.res.value.row),
                      NestedFeet(c.schemas, os, value, 0), Feet(c.schemas, t, value));
        } else {
          PopulateNothing(c, slot.db, t, os, slot.res.value, value, policy, 0);
        }
      }
    }
  }

  lemma {:induction false} PopulateNothing(c: Context, db: Db, t: string, os: ObjectSchema, slot: Slot, value: Input,
          policy: CreatePolicy, i: nat)
    requires !value.Dict?
    ensures Populate(c, db, t, os, slot, value, policy, i).log == []
    decreases |os.props| - i
  {
    if i < |os.props| {
      PopulateNothing(c, db, t, os, slot, value, policy, i + 1);
    }
  }

  lemma {:induction false} PopulateUpserts(c: Context, db: Db, t: string, slot: Slot, value: Input,
          policy: CreatePolicy, i: nat)
    requires Normal(c, db) && SlotFits(c, db, t, slot) && value.Dict?
    ensures Upserts(c, Populate(c, db, t, c.schemas[t], slot, value, policy, i),
                    NestedFeet(c.schemas, c.schemas[t], value, i))
    decreases Weight(value), value, 1, |c.schemas[t].props| + 1 - i
  {
    hide Create, WellFormed, ValidSchemas, RowsKept, LegalLog, Replay;
    var os := c.schemas[t];
    if i < |os.props| {
      var s := PopulateOne(c, db, t, os, slot, value, policy, i);
      PopulateOneRuns(c, db, t, slot, value, policy, i);
      PopulateOneUpserts(c, db, t, slot, value, policy, i);
      if s.res.Ok? {
        RunReady(c, db, s);
        PopulateRuns(c, s.db, t, slot, value, policy, i + 1);
        PopulateUpserts(c, s.db, t, slot, value, policy, i + 1);
        UpsertsThen(c, db, s, FieldFeet(c.schemas, os, value, i), Populate(c, s.db, t, os, slot, value, policy, i + 1),
                    NestedFeet(c.schemas, os, value, i + 1), NestedFeet(c.schemas, os, value, i));
      }
    }
  }

  lemma {:induction false} PopulateOneUpserts(c: Context, db: Db, t: string, slot: Slot, value: Input,
          policy: CreatePolicy, i: nat)
    requires Normal(c, db) && SlotFits(c, db, t, slot) && value.Dict? && i < |c.schemas[t].props|
    ensures Upserts(c, PopulateOne(c, db, t, c.schemas[t], slot, value, policy, i),
                    FieldFeet(c.schemas, c.schemas[t], value, i))
    decreases Weight(value), value, 1, 0
  {
    var os := c.schemas[t];
    match Choose(os, value, slot, i)
    case Refuse(_) =>
    case Ignore => IgnoredFeet(c, os, value, slot, i);
    case Put(v, isDefault) =>
      SlotTarget(c, db, t, slot, value, i);
      PutFeet(c, os, value, slot, i);
      SetPropertyUpserts(c, db, Pos(t, slot.row, i), os.props[i].ptype, v, policy, isDefault);
  }

  // A primary key is a scalar, so the loop loses no object by skipping it.
  lemma IgnoredFeet(c: Context, os: ObjectSchema, value: Input, slot: Slot, i: nat)
    requires value.Dict? && i < |os.props| && ValidObjectSchema(c.schemas, os) && Choose(os, value, slot, i).Ignore?
    ensures FieldClaims(c.schemas, os, value, i) == {} && FieldFeet(c.schemas, os, value, i) == {}
  {
    assert FieldClaims(c.schemas, os, value, i) == {};
  }

  lemma PutFeet(c: Context, os: ObjectSchema, value: Input, slot: Slot, i: nat)
    requires value.Dict? && i < |os.props| && Choose(os, value, slot, i).Put?
    ensures var v, et := Choose(os, value, slot, i).v, os.props[i].ptype.elem;
            && FieldClaims(c.schemas, os, value, i) == InputClaims(c.schemas, et, v)
            && FieldFeet(c.schemas, os, value, i) == InputFeet(c.schemas, et, v)
  {
    if os.props[i].name !in value.fields {
      LeafFeet(c.schemas, os.props[i].ptype.elem, Choose(os, value, slot, i).v);
    }
  }

  lemma {:induction false} SetPropertyUpserts(c: Context, db: Db, x: Pos, pt: PropertyType, v: Input,
          policy: CreatePolicy, isDefault: bool)
    requires Normal(c, db) && Target(c, db, x, pt)
    ensures Upserts(c, SetProperty(c, db, x, pt, v, policy, isDefault), InputFeet(c.schemas, pt.elem, v))
    decreases Weight(v), v, 5, 0
  {
    hide Create, WellFormed, ValidSchemas, RowsKept, LegalLog, Replay;
    if pt.Nullable() && v.NullInput? {
    } else if pt.Array? {
      AssignUpserts(c, db, x, pt, v, policy);
    } else {
      var seen := Get(db, x);
      CurrentFromCell(c, db, x, pt);
      var u := Unbox(c, db, pt.elem, v, policy, LinkedRow(seen));
      UnboxRuns(c, db, pt.elem, v, policy, LinkedRow(seen));
      UnboxUpserts(c, db, pt.elem, v, policy, LinkedRow(seen));
      if u.res.Ok? {
        RunReady(c, db, u);
        TargetKept(c, db, u, x, pt);
        var w := StoreCell(u.db, x, seen, u.res.value, policy);
        StoreCellRuns(c, u.db, x, pt, seen, u.res.value, policy);
        UpsertsThen(c, db, u, InputFeet(c.schemas, pt.elem, v), w, {}, InputFeet(c.schemas, pt.elem, v));
      }
    }
  }

  lemma {:induction false} UnboxUpserts(c: Context, db: Db, et: ElementType, v: Input, policy: CreatePolicy,
          current: Option<nat>)
    requires Normal(c, db) && CurrentFits(db, et, current)
    ensures Upserts(c, Unbox(c, db, et, v, policy, current), InputFeet(c.schemas, et, v))
    decreases Weight(v), v, 3, 0
  {
    if et.ObjectElement? && !v.RowInput? && !policy.Skip? {
      CreateUpserts(c, db, et.target, v, policy, current);
      if !v.Dict? { CreateOnlyFromDict(c, db, et.target, v, policy, current); }
    }
  }

  // Only a dictionary describes an object.
  lemma CreateOnlyFromDict(c: Context, db: Db, t: string, v: Input, policy: CreatePolicy, current: Option<nat>)
    requires ValidSchemas(c.schemas) && !c.inMigration && !v.Dict?
    ensures Create(c, db, t, v, policy, current).res == Err(if t in c.schemas then BadCast else InvalidProperty)
    ensures AddsOnly(c.schemas, Create(c, db, t, v, policy, current).log, {})
  {
    if t in c.schemas {
      var os := c.schemas[t];
      assert os.props != [] && (os.primary.Some? ==> KeyedSchema(os));
      hide ValidSchemas, SetProperty, PopulateOne, FindFirst, EmptyRow;
      var slot := GetOrAddRow(c, db, t, os, v, policy, current);
      if slot.res.Ok? {
        assert os.primary.None?;
        NothingToPopulate(c, slot.db, t, os, slot.res.value, v, policy);
      }
    }
  }

  lemma NothingToPopulate(c: Context, db: Db, t: string, os: ObjectSchema, slot: Slot, v: Input, policy: CreatePolicy)
    requires !v.Dict? && os.props != [] && os.primary.None?
    ensures Populate(c, db, t, os, slot, v, policy, 0) == Fail(db, BadCast)
  {
    assert PopulateOne(c, db, t, os, slot, v, policy, 0) == Fail(db, BadCast);
  }

  lemma {:induction false} AssignUpserts(c: Context, db: Db, x: Pos, pt: PropertyType, v: Input, policy: CreatePolicy)
    requires Normal(c, db) && Target(c, db, x, pt) && pt.Array?
    ensures Upserts(c, Assign(c, db, x, pt.elem, v, policy), InputFeet(c.schemas, pt.elem, v))
    decreases Weight(v), v, 4, 0
  {
    hide Create, WellFormed, ValidSchemas, RowsKept, LegalLog, Replay;
    var cleared := Emit(db, ClearItems(x), ());
    RunEmit(c, db, ClearItems(x), ());
    if v.Vector? && policy.UpdateModified? {
      AssignFromUpserts(c, db, x, pt, v, 0, |ItemsAt(db, x)|);
    } else if v.Vector? {
      RunReady(c, db, cleared);
      TargetKept(c, db, cleared, x, pt);
      AddFromRuns(c, cleared.db, x, pt, v, 0, policy);
      AddFromUpserts(c, cleared.db, x, pt, v, 0, policy);
      UpsertsThen(c, db, cleared, {}, AddFrom(c, cleared.db, x, pt.elem, v, 0, policy),
                  InputFeet(c.schemas, pt.elem, v), InputFeet(c.schemas, pt.elem, v));
    }
  }

  lemma {:induction false} AssignFromUpserts(c: Context, db: Db, x: Pos, pt: PropertyType, v: Input, i: nat, sz: nat)
    requires Normal(c, db) && Target(c, db, x, pt) && pt.Array? && v.Vector?
    ensures Upserts(c, AssignFrom(c, db, x, pt.elem, v, i, sz), TailFeet(c.schemas, pt.elem, v, i))
    decreases Weight(v), v, 0, |v.elements| - i
  {
    hide Create, WellFormed, ValidSchemas, RowsKept, LegalLog, Replay;
    if i >= |v.elements| {
      TrimAddsNothing(c, db, x, i, sz);
    } else {
      var e := v.elements[i];
      var s := AssignOne(c, db, x, pt.elem, e, i, sz);
      if i < sz {
        SetIfDifferentRuns(c, db, x, pt, e, i);
        SetIfDifferentUpserts(c, db, x, pt, e, i);
      } else {
        AddOneRuns(c, db, x, pt, e, UpdateModified);
        AddOneUpserts(c, db, x, pt, e, UpdateModified);
      }
      if s.res.Ok? {
        RunReady(c, db, s);
        TargetKept(c, db, s, x, pt);
        AssignFromRuns(c, s.db, x, pt, v, i + 1, sz);
        AssignFromUpserts(c, s.db, x, pt, v, i + 1, sz);
        UpsertsThen(c, db, s, InputFeet(c.schemas, pt.elem, e), AssignFrom(c, s.db, x, pt.elem, v, i + 1, sz),
                    TailFeet(c.schemas, pt.elem, v, i + 1), TailFeet(c.schemas, pt.elem, v, i));
      }
    }
  }

  lemma {:induction false} TrimAddsNothing(c: Context, db: Db, x: Pos, index: nat, sz: nat)
    ensures AddsOnly(c.schemas, Trim(db, x, index, sz).log, {})
    decreases sz
  {
    if index < sz && sz - 1 < |ItemsAt(db, x)| {
      TrimAddsNothing(c, Apply(db, RemoveItem(x, sz - 1)), x, index, sz - 1);
    }
  }

  lemma {:induction false} SetIfDifferentUpserts(c: Context, db: Db, x: Pos, pt: PropertyType, e: Input, i: nat)
    requires Normal(c, db) && Target(c, db, x, pt) && pt.Array?
    ensures Upserts(c, SetIfDifferent(c, db, x, pt.elem, e, i), InputFeet(c.schemas, pt.elem, e))
    decreases Weight(e), e, 6, 0
  {
    hide Create, WellFormed, ValidSchemas, RowsKept, LegalLog, Replay;
    if i < |ItemsAt(db, x)| {
      CurrentFromCell(c, db, x, pt);
      var current := LinkedRow(ItemsAt(db, x)[i]);
      var u := Unbox(c, db, pt.elem, e, UpdateModified, current);
      UnboxRuns(c, db, pt.elem, e, UpdateModified, current);
      UnboxUpserts(c, db, pt.elem, e, UpdateModified, current);
      if u.res.Ok? {
        RunReady(c, db, u);
        TargetKept(c, db, u, x, pt);
        var w := StoreItem(u.db, x, i, ItemsAt(db, x)[i], u.res.value);
        StoreItemRuns(c, u.db, x, pt, i, ItemsAt(db, x)[i], u.res.value);
        UpsertsThen(c, db, u, InputFeet(c.schemas, pt.elem, e), w, {}, InputFeet(c.schemas, pt.elem, e));
      }
    }
  }

  lemma {:induction false} AddOneUpserts(c: Context, db: Db, x: Pos, pt: PropertyType, e: Input, policy: CreatePolicy)
    requires Normal(c, db) && Target(c, db, x, pt) && pt.Array?
    ensures Upserts(c, AddOne(c, db, x, pt.elem, e, policy), InputFeet(c.schemas, pt.elem, e))
    decreases Weight(e), e, 6, 0
  {
    hide Create, WellFormed, ValidSchemas, RowsKept, LegalLog, Replay;
    var u := Unbox(c, db, pt.elem, e, policy, None);
    UnboxRuns(c, db, pt.elem, e, policy, None);
    UnboxUpserts(c, db, pt.elem, e, policy, None);
    if u.res.Ok? {
      RunReady(c, db, u);
      TargetKept(c, db, u, x, pt);
      var w := Emit(u.db, AddItem(x, u.res.value), ());
      RunEmit(c, u.db, AddItem(x, u.res.value), ());
      UpsertsThen(c, db, u, InputFeet(c.schemas, pt.elem, e), w, {}, InputFeet(c.schemas, pt.elem, e));
    }
  }

  lemma {:induction false} AddFromUpserts(c: Context, db: Db, x: Pos, pt: PropertyType, v: Input, i: nat,
          policy: CreatePolicy)
    requires Normal(c, db) && Target(c, db, x, pt) && pt.Array? && v.Vector?
    ensures Upserts(c, AddFrom(c, db, x, pt.elem, v, i, policy), TailFeet(c.schemas, pt.elem, v, i))
    decreases Weight(v), v, 0, |v.elements| - i
  {
    hide Create, WellFormed, ValidSchemas, RowsKept, LegalLog, Replay;
    if i < |v.elements| {
      var e := v.elements[i];
      var s := AddOne(c, db, x, pt.elem, e, policy);
      AddOneRuns(c, db, x, pt, e, policy);
      AddOneUpserts(c, db, x, pt, e, policy);
      if s.res.Ok? {
        RunReady(c, db, s);
        TargetKept(c, db, s, x, pt);
        AddFromRuns(c, s.db, x, pt, v, i + 1, policy);
        AddFromUpserts(c, s.db, x, pt, v, i + 1, policy);
        UpsertsThen(c, db, s, InputFeet(c.schemas, pt.elem, e), AddFrom(c, s.db, x, pt.elem, v, i + 1, policy),
                    TailFeet(c.schemas, pt.elem, v, i + 1), TailFeet(c.schemas, pt.elem, v, i));
      }
    }
  }
}

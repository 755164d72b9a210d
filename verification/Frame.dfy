/**
 Independence: an operation whose input does not name a cell neither reads nor writes it.
 */
module Frame {
  import opened Schema
  import opened Store
  import opened Safety
  import opened Accessor
  import opened Runs
  import opened Footprint
  import opened Upsert

  function FootAt(schemas: Schemas, db: Db, x: Pos): Foot {
    Foot(x.table, KeyAt(schemas, db, x.table, x.row), x.col)
  }

  // `x` is not in the footprint. Objects without primary key that cannot be found are always
  // new, so no footprint names a cell of them that is there already.
  ghost predicate Outside(c: Context, db: Db, x: Pos, feet: set<Foot>, policy: CreatePolicy) {
    Shared(c.schemas, x.table, policy) ==> FootAt(c.schemas, db, x) !in feet
  }

  // `x` is a cell other than a primary key, and `cell` is a value it can hold.
  ghost predicate Loose(c: Context, db: Db, x: Pos, cell: Cell) {
    && Normal(c, db)
    && x.table in c.schemas && x.col < |c.schemas[x.table].props|
    && Column(c, db, x, c.schemas[x.table].props[x.col].ptype.Array?)
    && CellFits(db, c.schemas[x.table].props[x.col].ptype, cell)
  }

  // An existing cell other than a primary key.
  ghost predicate Open(c: Context, db: Db, x: Pos) {
    Normal(c, db) && Has(db, x) && !c.schemas[x.table].IsPrimary(x.col)
  }

  lemma OpenLoose(c: Context, db: Db, x: Pos)
    requires Open(c, db, x)
    ensures Loose(c, db, x, Get(db, x))
  {
    assert RowFits(db, c.schemas[x.table], db[x.table][x.row]);
  }

  // The operation does the same in both stores, which differ in `x` only, and leaves `x` alone.
  ghost predicate Commutes<A>(s: Step<A>, s': Step<A>, x: Pos, cell: Cell) {
    s'.log == s.log && s'.res == s.res && s'.db == Set(s.db, x, cell) && Quiet(s.log, x)
  }

  ghost predicate Quiet(log: seq<Write>, x: Pos) {
    forall w <- log :: w.NewRow? || w.at != x
  }

  lemma LooseKept<A>(c: Context, db: Db, s: Step<A>, x: Pos, cell: Cell)
    requires Loose(c, db, x, cell) && Run(c, db, s)
    ensures Loose(c, s.db, x, cell) && FootAt(c.schemas, s.db, x) == FootAt(c.schemas, db, x)
  {
    RunReady(c, db, s);
    TargetKept(c, db, s, x, c.schemas[x.table].props[x.col].ptype);
    CellFitsGrows(db, s.db, c.schemas[x.table].props[x.col].ptype, cell);
  }

  lemma CommutesThen<A, B>(s: Step<A>, s': Step<A>, t: Step<B>, t': Step<B>, x: Pos, cell: Cell)
    requires Commutes(s, s', x, cell) && Commutes(t, t', x, cell)
    ensures Commutes(Then(s, t), Then(s', t'), x, cell)
  {
  }

  lemma ApplySwap(db: Db, x: Pos, cell: Cell, w: Write)
    requires w.NewRow? || w.at != x
    requires Has(db, x)
    ensures Apply(Set(db, x, cell), w) == Set(Apply(db, w), x, cell)
  {
    match w
    case NewRow(t, cells) =>
      if t in db && t == x.table {
        assert db[t][x.row := db[t][x.row][x.col := cell]] + [cells]
            == (db[t] + [cells])[x.row := db[t][x.row][x.col := cell]];
      }
    case _ =>
      GetSet(db, x, cell, w.at);
      SetSwap(db, x, cell, w.at, Get(Apply(db, w), w.at));
  }

  lemma SearchSame(db: Db, x: Pos, cell: Cell, t: string, pk: nat, key: Cell)
    requires Has(db, x) && t in db && (t == x.table ==> pk != x.col)
    ensures FindFirst(Set(db, x, cell)[t], pk, key) == FindFirst(db[t], pk, key)
  {
    var db' := Set(db, x, cell);
    assert |db'[t]| == |db[t]|;
    assert forall r | 0 <= r < |db[t]| ::
             |db'[t][r]| == |db[t][r]|
             && (pk < |db[t][r]| && (t != x.table || pk != x.col) ==> db'[t][r][pk] == db[t][r][pk]);
  }

  lemma SlotFrame(c: Context, db: Db, x: Pos, cell: Cell, t: string, value: Input, policy: CreatePolicy,
          current: Option<nat>)
    requires Loose(c, db, x, cell) && t in c.schemas
    ensures var s := GetOrAddRow(c, db, t, c.schemas[t], value, policy, current);
            Commutes(s, GetOrAddRow(c, Set(db, x, cell), t, c.schemas[t], value, policy, current), x, cell)
  {
    var os := c.schemas[t];
    var s := GetOrAddRow(c, db, t, os, value, policy, current);
    var db' := Set(db, x, cell);
    if KeyedSchema(os) && KeyFor(os, value).Ok? {
      SearchSame(db, x, cell, t, os.primary.value, KeyFor(os, value).value);
    }
    assert t in db && t in db' && RowCount(db', t) == RowCount(db, t);
    if s.log != [] {
      ApplySwap(db, x, cell, s.log[0]);
    }
    SlotCommutes(c, db, db', x, cell, t, os, value, policy, current);
  }

  lemma SlotCommutes(c: Context, db: Db, db': Db, x: Pos, cell: Cell, t: string, os: ObjectSchema, value: Input,
          policy: CreatePolicy, current: Option<nat>)
    requires t in db && t in db' && RowCount(db', t) == RowCount(db, t) && db' == Set(db, x, cell)
    requires KeyedSchema(os) && KeyFor(os, value).Ok? ==>
               FindFirst(db'[t], os.primary.value, KeyFor(os, value).value)
               == FindFirst(db[t], os.primary.value, KeyFor(os, value).value)
    requires var s := GetOrAddRow(c, db, t, os, value, policy, current);
             s.log != [] ==> Apply(db', s.log[0]) == Set(Apply(db, s.log[0]), x, cell)
    ensures Commutes(GetOrAddRow(c, db, t, os, value, policy, current),
                     GetOrAddRow(c, db', t, os, value, policy, current), x, cell)
  {
    hide Set, Apply, FindFirst, EmptyRow, KeyFor;
  }

  // Where the populating loop writes, given the slot.
  ghost predicate Spares(os: ObjectSchema, t: string, slot: Slot, value: Input, i: nat, x: Pos) {
    forall j: nat | i <= j < |os.props| && Choose(os, value, slot, j).Put? :: Pos(t, slot.row, j) != x
  }

  lemma SlotSpares(c: Context, db: Db, x: Pos, cell: Cell, t: string, value: Input, policy: CreatePolicy,
          current: Option<nat>)
    requires Loose(c, db, x, cell) && t in c.schemas
    requires Outside(c, db, x, Feet(c.schemas, t, value), policy)
    ensures var s := GetOrAddRow(c, db, t, c.schemas[t], value, policy, current);
            s.res.Ok? ==> Spares(c.schemas[t], t, s.res.value, value, 0, x)
  {
    var os := c.schemas[t];
    var s := GetOrAddRow(c, db, t, os, value, policy, current);
    if s.res.Ok? && x.table == t && s.res.value.row == x.row {
      var slot := s.res.value;
      assert !slot.created;
      forall j: nat | j < |os.props| && Choose(os, value, slot, j).Put? ensures Pos(t, slot.row, j) != x {
        OwnFoot(os, t, value, j);
      }
    }
  }

  lemma {:induction false} CreateFrame(c: Context, db: Db, x: Pos, cell: Cell, t: string, value: Input,
          policy: CreatePolicy, current: Option<nat>)
    requires Loose(c, db, x, cell) && (current.Some? ==> current.value < RowCount(db, t))
    requires Outside(c, db, x, Feet(c.schemas, t, value), policy)
    ensures Commutes(Create(c, db, t, value, policy, current),
                     Create(c, Set(db, x, cell), t, value, policy, current), x, cell)
    decreases Weight(value), value, 2, 0
  {
    if t in c.schemas {
      var os := c.schemas[t];
      var slot := GetOrAddRow(c, db, t, os, value, policy, current);
      GetOrAddRowRuns(c, db, t, value, policy, current);
      SlotFrame(c, db, x, cell, t, value, policy, current);
      SlotSpares(c, db, x, cell, t, value, policy, current);
      if slot.res.Ok? {
        LooseKept(c, db, slot, x, cell);
        PopulateFrame(c, slot.db, x, cell, t, slot.res.value, value, policy, 0);
        var slot' := GetOrAddRow(c, Set(db, x, cell), t, os, value, policy, current);
        CommutesThen(slot, slot',
                     Report(Populate(c, slot.db, t, os, slot.res.value, value, policy, 0), slot.res.value.row),
                     Report(Populate(c, slot'.db, t, os, slot.res.value, value, policy, 0), slot.res.value.row),
                     x, cell);
      }
    }
  }

  lemma {:induction false} PopulateFrame(c: Context, db: Db, x: Pos, cell: Cell, t: string, slot: Slot, value: Input,
          policy: CreatePolicy, i: nat)
    requires Loose(c, db, x, cell) && SlotFits(c, db, t, slot) && Spares(c.schemas[t], t, slot, value, i, x)
    requires value.Dict? ==> Outside(c, db, x, NestedFeet(c.schemas, c.schemas[t], value, i), policy)
    ensures var os := c.schemas[t];
            Commutes(Populate(c, db, t, os, slot, value, policy, i),
                     Populate(c, Set(db, x, cell), t, os, slot, value, policy, i), x, cell)
    decreases Weight(value), value, 1, |c.schemas[t].props| + 1 - i
  {
    hide Create, WellFormed, ValidSchemas, RowsKept, LegalLog, Replay;
    var os := c.schemas[t];
    if i < |os.props| {
      var s := PopulateOne(c, db, t, os, slot, value, policy, i);
      var s' := PopulateOne(c, Set(db, x, cell), t, os, slot, value, policy, i);
      PopulateOneRuns(c, db, t, slot, value, policy, i);
      PopulateOneFrame(c, db, x, cell, t, slot, value, policy, i);
      if s.res.Ok? {
        RunReady(c, db, s);
        LooseKept(c, db, s, x, cell);
        PopulateFrame(c, s.db, x, cell, t, slot, value, policy, i + 1);
        CommutesThen(s, s', Populate(c, s.db, t, os, slot, value, policy, i + 1),
                     Populate(c, s'.db, t, os, slot, value, policy, i + 1), x, cell);
      }
    }
  }

  lemma {:induction false} PopulateOneFrame(c: Context, db: Db, x: Pos, cell: Cell, t: string, slot: Slot,
          value: Input, policy: CreatePolicy, i: nat)
    requires Loose(c, db, x, cell) && SlotFits(c, db, t, slot) && i < |c.schemas[t].props|
    requires Choose(c.schemas[t], value, slot, i).Put? ==> Pos(t, slot.row, i) != x
    requires value.Dict? ==> Outside(c, db, x, FieldFeet(c.schemas, c.schemas[t], value, i), policy)
    ensures var os := c.schemas[t];
            Commutes(PopulateOne(c, db, t, os, slot, value, policy, i),
                     PopulateOne(c, Set(db, x, cell), t, os, slot, value, policy, i), x, cell)
    decreases Weight(value), value, 1, 0
  {
    hide Create, WellFormed, ValidSchemas, RowsKept, LegalLog, Replay;
    var os := c.schemas[t];
    match Choose(os, value, slot, i)
    case Put(v, isDefault) =>
      SlotTarget(c, db, t, slot, value, i);
      PutFeet(c, os, value, slot, i);
      SetPropertyFrame(c, db, x, cell, Pos(t, slot.row, i), os.props[i].ptype, v, policy, isDefault);
    case _ =>
  }

  lemma {:induction false} SetPropertyFrame(c: Context, db: Db, x: Pos, cell: Cell, y: Pos, pt: PropertyType,
          v: Input, policy: CreatePolicy, isDefault: bool)
    requires Loose(c, db, x, cell) && Target(c, db, y, pt) && x != y
    requires Outside(c, db, x, InputFeet(c.schemas, pt.elem, v), policy)
    ensures Commutes(SetProperty(c, db, y, pt, v, policy, isDefault),
                     SetProperty(c, Set(db, x, cell), y, pt, v, policy, isDefault), x, cell)
    decreases Weight(v), v, 5, 0
  {
    hide Create, WellFormed, ValidSchemas, RowsKept, LegalLog, Replay;
    GetSet(db, x, cell, y);
    if pt.Nullable() && v.NullInput? {
      ApplySwap(db, x, cell, SetCell(y, Null));
    } else if pt.Array? {
      AssignFrame(c, db, x, cell, y, pt, v, policy);
    } else {
      var current := LinkedRow(Get(db, y));
      CurrentFromCell(c, db, y, pt);
      var u := Unbox(c, db, pt.elem, v, policy, current);
      UnboxRuns(c, db, pt.elem, v, policy, current);
      UnboxFrame(c, db, x, cell, pt.elem, v, policy, current);
      if u.res.Ok? {
        LooseKept(c, db, u, x, cell);
        ApplySwap(u.db, x, cell, SetCell(y, u.res.value));
        var u' := Unbox(c, Set(db, x, cell), pt.elem, v, policy, current);
        CommutesThen(u, u', StoreCell(u.db, y, Get(db, y), u.res.value, policy),
                     StoreCell(u'.db, y, Get(db, y), u.res.value, policy), x, cell);
      }
    }
  }

  lemma {:induction false} UnboxFrame(c: Context, db: Db, x: Pos, cell: Cell, et: ElementType, v: Input,
          policy: CreatePolicy, current: Option<nat>)
    requires Loose(c, db, x, cell) && CurrentFits(db, et, current)
    requires Outside(c, db, x, InputFeet(c.schemas, et, v), policy)
    ensures Commutes(Unbox(c, db, et, v, policy, current), Unbox(c, Set(db, x, cell), et, v, policy, current), x, cell)
    decreases Weight(v), v, 3, 0
  {
    hide Create, WellFormed, ValidSchemas, RowsKept, LegalLog, Replay;
    if et.ObjectElement? && !v.RowInput? && !policy.Skip? {
      assert v.Vector? ==> Feet(c.schemas, et.target, v) == {};
      CreateFrame(c, db, x, cell, et.target, v, policy, current);
    }
  }

  lemma {:induction false} AssignFrame(c: Context, db: Db, x: Pos, cell: Cell, y: Pos, pt: PropertyType, v: Input,
          policy: CreatePolicy)
    requires Loose(c, db, x, cell) && Target(c, db, y, pt) && pt.Array? && x != y
    requires Outside(c, db, x, InputFeet(c.schemas, pt.elem, v), policy)
    ensures Commutes(Assign(c, db, y, pt.elem, v, policy), Assign(c, Set(db, x, cell), y, pt.elem, v, policy), x, cell)
    decreases Weight(v), v, 4, 0
  {
    hide Create, WellFormed, ValidSchemas, RowsKept, LegalLog, Replay;
    GetSet(db, x, cell, y);
    ApplySwap(db, x, cell, ClearItems(y));
    if v.Vector? && policy.UpdateModified? {
      AssignFromFrame(c, db, x, cell, y, pt, v, 0, |ItemsAt(db, y)|);
    } else if v.Vector? {
      var cleared := Emit(db, ClearItems(y), ());
      RunEmit(c, db, ClearItems(y), ());
      RunReady(c, db, cleared);
      TargetKept(c, db, cleared, y, pt);
      LooseKept(c, db, cleared, x, cell);
      AddFromFrame(c, cleared.db, x, cell, y, pt, v, 0, policy);
    }
  }

  lemma {:induction false} AssignFromFrame(c: Context, db: Db, x: Pos, cell: Cell, y: Pos, pt: PropertyType, v: Input,
          i: nat, sz: nat)
    requires Loose(c, db, x, cell) && Target(c, db, y, pt) && pt.Array? && x != y && v.Vector?
    requires Outside(c, db, x, TailFeet(c.schemas, pt.elem, v, i), UpdateModified)
    ensures Commutes(AssignFrom(c, db, y, pt.elem, v, i, sz),
                     AssignFrom(c, Set(db, x, cell), y, pt.elem, v, i, sz), x, cell)
    decreases Weight(v), v, 0, |v.elements| - i
  {
    hide Create, WellFormed, ValidSchemas, RowsKept, LegalLog, Replay;
    if i >= |v.elements| {
      TrimFrame(db, x, cell, y, i, sz);
    } else {
      var e := v.elements[i];
      var s := AssignOne(c, db, y, pt.elem, e, i, sz);
      if i < sz {
        SetIfDifferentRuns(c, db, y, pt, e, i);
        SetIfDifferentFrame(c, db, x, cell, y, pt, e, i);
      } else {
        AddOneRuns(c, db, y, pt, e, UpdateModified);
        AddOneFrame(c, db, x, cell, y, pt, e, UpdateModified);
      }
      if s.res.Ok? {
        TargetKept(c, db, s, y, pt);
        LooseKept(c, db, s, x, cell);
        AssignFromFrame(c, s.db, x, cell, y, pt, v, i + 1, sz);
      }
    }
  }

  lemma {:induction false} TrimFrame(db: Db, x: Pos, cell: Cell, y: Pos, index: nat, sz: nat)
    requires Has(db, x) && x != y
    ensures Commutes(Trim(db, y, index, sz), Trim(Set(db, x, cell), y, index, sz), x, cell)
    decreases sz
  {
    GetSet(db, x, cell, y);
    if index < sz && sz - 1 < |ItemsAt(db, y)| {
      ApplySwap(db, x, cell, RemoveItem(y, sz - 1));
      TrimFrame(Apply(db, RemoveItem(y, sz - 1)), x, cell, y, index, sz - 1);
    }
  }

  lemma {:induction false} SetIfDifferentFrame(c: Context, db: Db, x: Pos, cell: Cell, y: Pos, pt: PropertyType,
          e: Input, i: nat)
    requires Loose(c, db, x, cell) && Target(c, db, y, pt) && pt.Array? && x != y
    requires Outside(c, db, x, InputFeet(c.schemas, pt.elem, e), UpdateModified)
    ensures Commutes(SetIfDifferent(c, db, y, pt.elem, e, i),
                     SetIfDifferent(c, Set(db, x, cell), y, pt.elem, e, i), x, cell)
    decreases Weight(e), e, 6, 0
  {
    hide Create, WellFormed, ValidSchemas, RowsKept, LegalLog, Replay;
    GetSet(db, x, cell, y);
    if i < |ItemsAt(db, y)| {
      CurrentFromCell(c, db, y, pt);
      var current := LinkedRow(ItemsAt(db, y)[i]);
      var u := Unbox(c, db, pt.elem, e, UpdateModified, current);
      UnboxRuns(c, db, pt.elem, e, UpdateModified, current);
      UnboxFrame(c, db, x, cell, pt.elem, e, UpdateModified, current);
      if u.res.Ok? {
        LooseKept(c, db, u, x, cell);
        GetSet(u.db, x, cell, y);
        ApplySwap(u.db, x, cell, SetItem(y, i, u.res.value));
        var u' := Unbox(c, Set(db, x, cell), pt.elem, e, UpdateModified, current);
        CommutesThen(u, u', StoreItem(u.db, y, i, ItemsAt(db, y)[i], u.res.value),
                     StoreItem(u'.db, y, i, ItemsAt(db, y)[i], u.res.value), x, cell);
      }
    }
  }

  lemma {:induction false} AddOneFrame(c: Context, db: Db, x: Pos, cell: Cell, y: Pos, pt: PropertyType, e: Input,
          policy: CreatePolicy)
    requires Loose(c, db, x, cell) && Target(c, db, y, pt) && pt.Array? && x != y
    requires Outside(c, db, x, InputFeet(c.schemas, pt.elem, e), policy)
    ensures Commutes(AddOne(c, db, y, pt.elem, e, policy), AddOne(c, Set(db, x, cell), y, pt.elem, e, policy), x, cell)
    decreases Weight(e), e, 6, 0
  {
    hide Create, WellFormed, ValidSchemas, RowsKept, LegalLog, Replay;
    var u := Unbox(c, db, pt.elem, e, policy, None);
    UnboxRuns(c, db, pt.elem, e, policy, None);
    UnboxFrame(c, db, x, cell, pt.elem, e, policy, None);
    if u.res.Ok? {
      LooseKept(c, db, u, x, cell);
      ApplySwap(u.db, x, cell, AddItem(y, u.res.value));
      var u' := Unbox(c, Set(db, x, cell), pt.elem, e, policy, None);
      CommutesThen(u, u', Emit(u.db, AddItem(y, u.res.value), ()), Emit(u'.db, AddItem(y, u.res.value), ()), x, cell);
    }
  }

  lemma {:induction false} AddFromFrame(c: Context, db: Db, x: Pos, cell: Cell, y: Pos, pt: PropertyType, v: Input,
          i: nat, policy: CreatePolicy)
    requires Loose(c, db, x, cell) && Target(c, db, y, pt) && pt.Array? && x != y && v.Vector?
    requires Outside(c, db, x, TailFeet(c.schemas, pt.elem, v, i), policy)
    ensures Commutes(AddFrom(c, db, y, pt.elem, v, i, policy),
                     AddFrom(c, Set(db, x, cell), y, pt.elem, v, i, policy), x, cell)
    decreases Weight(v), v, 0, |v.elements| - i
  {
    hide Create, WellFormed, ValidSchemas, RowsKept, LegalLog, Replay;
    if i < |v.elements| {
      var e := v.elements[i];
      var s := AddOne(c, db, y, pt.elem, e, policy);
      AddOneRuns(c, db, y, pt, e, policy);
      AddOneFrame(c, db, x, cell, y, pt, e, policy);
      if s.res.Ok? {
        TargetKept(c, db, s, y, pt);
        LooseKept(c, db, s, x, cell);
        AddFromFrame(c, s.db, x, cell, y, pt, v, i + 1, policy);
        var s' := AddOne(c, Set(db, x, cell), y, pt.elem, v.elements[i], policy);
        CommutesThen(s, s', AddFrom(c, s.db, y, pt.elem, v, i + 1, policy),
                     AddFrom(c, s'.db, y, pt.elem, v, i + 1, policy), x, cell);
      }
    }
  }

  // A cell the input does not name keeps its value, whatever the policy and the outcome.
  lemma CreateSpares(c: Context, db: Db, x: Pos, t: string, value: Input, policy: CreatePolicy, current: Option<nat>)
    requires Normal(c, db) && (current.Some? ==> current.value < RowCount(db, t))
    requires Has(db, x) && Outside(c, db, x, Feet(c.schemas, t, value), policy)
    ensures Get(Create(c, db, t, value, policy, current).db, x) == Get(db, x)
  {
    var s := Create(c, db, t, value, policy, current);
    CreateRuns(c, db, t, value, policy, current);
    RunReady(c, db, s);
    assert RowFits(db, c.schemas[x.table], db[x.table][x.row]);
    if c.schemas[x.table].IsPrimary(x.col) {
      assert KeyAt(c.schemas, s.db, x.table, x.row) == KeyAt(c.schemas, db, x.table, x.row);
    } else {
      SetSame(db, x);
      CreateFrame(c, db, x, Get(db, x), t, value, policy, current);
      LooseKept(c, db, s, x, Get(db, x));
      GetSet(s.db, x, Get(db, x), x);
    }
  }

  lemma PopulateSpares(c: Context, db: Db, x: Pos, t: string, slot: Slot, value: Input, policy: CreatePolicy, i: nat)
    requires Open(c, db, x) && SlotFits(c, db, t, slot) && value.Dict?
    requires Spares(c.schemas[t], t, slot, value, i, x)
    requires Outside(c, db, x, NestedFeet(c.schemas, c.schemas[t], value, i), policy)
    ensures Get(Populate(c, db, t, c.schemas[t], slot, value, policy, i).db, x) == Get(db, x)
  {
    hide Create, SetProperty, LegalLog, Replay;
    var s := Populate(c, db, t, c.schemas[t], slot, value, policy, i);
    OpenLoose(c, db, x);
    PopulateRuns(c, db, t, slot, value, policy, i);
    LooseKept(c, db, s, x, Get(db, x));
    SetSame(db, x);
    PopulateFrame(c, db, x, Get(db, x), t, slot, value, policy, i);
    GetSet(s.db, x, Get(db, x), x);
  }
}

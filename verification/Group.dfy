/**
 The accessor code in its imperative form: the tables of an open file, changed in place.
 Each method does what the function of the same purpose in `Accessor` says.
 */
module Group {
  import opened Schema
  import opened Store
  import opened Accessor

  lemma ThenAssociates<A, B, C>(a: Step<A>, b: Step<B>, d: Step<C>)
    ensures Then(Then(a, b), d) == Then(a, Then(b, d))
  {
    assert (a.log + b.log) + d.log == a.log + (b.log + d.log);
  }

  // One turn of each loop.
  lemma PopulateTurn(c: Context, db: Db, t: string, os: ObjectSchema, slot: Slot, value: Input, policy: CreatePolicy,
          i: nat)
    requires i < |os.props|
    ensures var s := PopulateOne(c, db, t, os, slot, value, policy, i);
            Populate(c, db, t, os, slot, value, policy, i)
            == if s.res.Err? then s else Then(s, Populate(c, s.db, t, os, slot, value, policy, i + 1))
  {
  }

  lemma AddTurn(c: Context, db: Db, x: Pos, et: ElementType, v: Input, i: nat, policy: CreatePolicy)
    requires v.Vector? && i < |v.elements|
    ensures var s := AddOne(c, db, x, et, v.elements[i], policy);
            AddFrom(c, db, x, et, v, i, policy)
            == if s.res.Err? then s else Then(s, AddFrom(c, s.db, x, et, v, i + 1, policy))
  {
  }

  lemma AddEnd(c: Context, db: Db, x: Pos, et: ElementType, v: Input, policy: CreatePolicy)
    requires v.Vector?
    ensures AddFrom(c, db, x, et, v, |v.elements|, policy) == Done(db, ())
  {
  }

  lemma SetEachTurn(c: Context, db: Db, t: string, rows: seq<nat>, j: nat, col: nat, pt: PropertyType, v: Input)
    requires j < |rows|
    ensures var s := SetProperty(c, db, Pos(t, rows[j], col), pt, v, ForceCreate, false);
            SetEach(c, db, t, rows, j, col, pt, v)
            == if s.res.Err? then s else Then(s, SetEach(c, s.db, t, rows, j + 1, col, pt, v))
  {
  }

  lemma SetEachEnd(c: Context, db: Db, t: string, rows: seq<nat>, col: nat, pt: PropertyType, v: Input)
    ensures SetEach(c, db, t, rows, |rows|, col, pt, v) == Done(db, ())
  {
  }

  lemma PopulateEnd(c: Context, db: Db, t: string, os: ObjectSchema, slot: Slot, value: Input, policy: CreatePolicy,
          i: nat)
    requires i >= |os.props|
    ensures Populate(c, db, t, os, slot, value, policy, i) == Done(db, ())
  {
  }

  lemma AssignEnd(c: Context, db: Db, x: Pos, et: ElementType, v: Input, i: nat, sz: nat)
    requires v.Vector? && i >= |v.elements|
    ensures AssignFrom(c, db, x, et, v, i, sz) == Trim(db, x, i, sz)
  {
  }

  lemma AssignTurn(c: Context, db: Db, x: Pos, et: ElementType, v: Input, i: nat, sz: nat)
    requires v.Vector? && i < |v.elements|
    ensures var s := AssignOne(c, db, x, et, v.elements[i], i, sz);
            AssignFrom(c, db, x, et, v, i, sz)
            == if s.res.Err? then s else Then(s, AssignFrom(c, s.db, x, et, v, i + 1, sz))
  {
  }

  class Group {
    const c: Context
    var tables: Db
    ghost var log: seq<Write>

    constructor (c: Context, tables: Db)
      ensures this.c == c && this.tables == tables && log == []
    {
      this.c, this.tables, log := c, tables, [];
    }

    // The state since `before` is what `s` describes, and `res` is its result.
    ghost predicate Did<A(!new)>(before: seq<Write>, s: Step<A>, res: Result<A>)
      reads this
    {
      tables == s.db && log == before + s.log && res == s.res
    }

    // ---- Rows ----

    method FindFirstRow(t: string, col: nat, key: Cell) returns (r: Option<nat>)
      requires t in tables
      ensures r == FindFirst(tables[t], col, key)
    {
      var rows := tables[t];
      var i := 0;
      while i < |rows|
        invariant i <= |rows|
        invariant FindFirst(rows, col, key) == FindFrom(rows, col, key, i)
      {
        if col < |rows[i]| && rows[i][col] == key {
          return Some(i);
        }
        i := i + 1;
      }
      r := None;
    }

    method AddEmptyRow(t: string, os: ObjectSchema, key: Option<Cell>) returns (row: nat)
      requires t in tables && (key.Some? ==> KeyedSchema(os))
      modifies this
      ensures var cells := if key.Some? then EmptyRow(os)[os.primary.value := key.value] else EmptyRow(os);
              && row == RowCount(old(tables), t)
              && tables == Apply(old(tables), NewRow(t, cells)) && log == old(log) + [NewRow(t, cells)]
    {
      row := |tables[t]|;
      var cells := EmptyRow(os);
      if key.Some? {
        cells := cells[os.primary.value := key.value];
      }
      tables := tables[t := tables[t] + [cells]];
      log := log + [NewRow(t, cells)];
    }

    method GetOrAdd(t: string, os: ObjectSchema, value: Input, policy: CreatePolicy, current: Option<nat>)
      returns (res: Result<Slot>)
      requires t in tables
      modifies this
      ensures Did(old(log), GetOrAddRow(c, old(tables), t, os, value, policy, current), res)
    {
      var row;
      if KeyedSchema(os) {
        var key := KeyFor(os, value);
        if key.Err? {
          return Err(key.error);
        }
        var found := FindFirstRow(t, os.primary.value, key.value);
        if found.None? {
          row := AddEmptyRow(t, os, Some(key.value));
          res := Ok(Slot(row, true, true));
        } else if policy.ForceCreate? {
          if c.inMigration {
            row := AddEmptyRow(t, os, None);
            res := Ok(Slot(row, true, false));
          } else {
            res := Err(DuplicateKey);
          }
        } else {
          res := Ok(Slot(found.value, false, true));
        }
      } else if policy.UpdateModified? && current.Some? {
        res := Ok(Slot(current.value, false, true));
      } else {
        row := AddEmptyRow(t, os, None);
        res := Ok(Slot(row, true, true));
      }
    }

    // ---- Objects ----

    method CreateObject(t: string, value: Input, policy: CreatePolicy, current: Option<nat>) returns (res: Result<nat>)
      requires tables.Keys == c.schemas.Keys
      modifies this
      ensures Did(old(log), Create(c, old(tables), t, value, policy, current), res)
      ensures tables.Keys == c.schemas.Keys
      decreases Weight(value), value, 2, 0
    {
      hide Populate, GetOrAddRow;
      if t !in c.schemas {
        return Err(InvalidProperty);
      }
      var os := c.schemas[t];
      GetOrAddKeys(c, tables, t, os, value, policy, current);
      var slot := GetOrAdd(t, os, value, policy, current);
      if slot.Err? {
        return Err(slot.error);
      }
      var r := PopulateObject(t, os, slot.value, value, policy);
      res := if r.Ok? then Ok(slot.value.row) else Err(r.error);
    }

    method PopulateObject(t: string, os: ObjectSchema, slot: Slot, value: Input,
            policy: CreatePolicy) returns (res: Result<()>)
      requires tables.Keys == c.schemas.Keys
      modifies this
      ensures Did(old(log), Populate(c, old(tables), t, os, slot, value, policy, 0), res)
      ensures tables.Keys == c.schemas.Keys
      decreases Weight(value), value, 1, 1
    {
      hide PopulateOne, Populate;
      ghost var whole := Populate(c, tables, t, os, slot, value, policy, 0);
      ghost var done: Step<()> := Done(tables, ());
      ghost var start := log;
      var i := 0;
      while i < |os.props|
        invariant i <= |os.props| && tables.Keys == c.schemas.Keys
        invariant done.db == tables && log == start + done.log
        invariant whole == Then(done, Populate(c, tables, t, os, slot, value, policy, i))
      {
        ghost var s := PopulateOne(c, tables, t, os, slot, value, policy, i);
        PopulateTurn(c, tables, t, os, slot, value, policy, i);
        var r := PopulateProperty(t, os, slot, value, policy, i);
        ThenAssociates(done, s, Populate(c, s.db, t, os, slot, value, policy, i + 1));
        done := Then(done, s);
        if r.Err? {
          return r;
        }
        i := i + 1;
      }
      PopulateEnd(c, tables, t, os, slot, value, policy, i);
      res := Ok(());
    }

    lemma GetOrAddKeys(c: Context, db: Db, t: string, os: ObjectSchema, value: Input, policy: CreatePolicy,
            current: Option<nat>)
      ensures GetOrAddRow(c, db, t, os, value, policy, current).db.Keys == db.Keys
    {
    }

    method PopulateProperty(t: string, os: ObjectSchema, slot: Slot, value: Input, policy: CreatePolicy, i: nat)
      returns (res: Result<()>)
      requires tables.Keys == c.schemas.Keys && i < |os.props|
      modifies this
      ensures Did(old(log), PopulateOne(c, old(tables), t, os, slot, value, policy, i), res)
      ensures tables.Keys == c.schemas.Keys
      decreases Weight(value), value, 1, 0
    {
      hide SetProperty;
      match Choose(os, value, slot, i) {
        case Ignore => res := Ok(());
        case Refuse(e) => res := Err(e);
        case Put(v, isDefault) =>
          res := SetPropertyValueImpl(Pos(t, slot.row, i), os.props[i].ptype, v, policy, isDefault);
      }
    }

    // ---- Properties ----

    method SetCellAt(x: Pos, cell: Cell)
      modifies this
      ensures tables == Apply(old(tables), SetCell(x, cell)) && log == old(log) + [SetCell(x, cell)]
      ensures tables.Keys == old(tables).Keys
    {
      tables := Set(tables, x, cell);
      log := log + [SetCell(x, cell)];
    }

    method SetPropertyValueImpl(x: Pos, pt: PropertyType, v: Input, policy: CreatePolicy, isDefault: bool)
      returns (res: Result<()>)
      requires tables.Keys == c.schemas.Keys
      modifies this
      ensures Did(old(log), SetProperty(c, old(tables), x, pt, v, policy, isDefault), res)
      ensures tables.Keys == c.schemas.Keys
      decreases Weight(v), v, 5, 0
    {
      hide Create;
      if pt.Nullable() && v.NullInput? {
        if !policy.UpdateModified? || Get(tables, x) != Null {
          if !(pt.elem.ObjectElement? && isDefault) {
            SetCellAt(x, Null);
          }
        }
        return Ok(());
      }
      if pt.Array? {
        res := AssignList(x, pt.elem, v, policy);
        return;
      }
      var seen := Get(tables, x);
      var u := UnboxValue(pt.elem, v, policy, LinkedRow(seen));
      if u.Err? {
        return Err(u.error);
      }
      if !policy.UpdateModified? || seen != u.value {
        SetCellAt(x, u.value);
      }
      res := Ok(());
    }

    method UnboxValue(et: ElementType, v: Input, policy: CreatePolicy, current: Option<nat>) returns (res: Result<Cell>)
      requires tables.Keys == c.schemas.Keys
      modifies this
      ensures Did(old(log), Unbox(c, old(tables), et, v, policy, current), res)
      ensures tables.Keys == c.schemas.Keys
      decreases Weight(v), v, 3, 0
    {
      hide GetOrAddRow, Populate;
      match et {
        case ScalarElement(ty) => res := UnboxScalar(ty, v);
        case ObjectElement(target) =>
          if v.RowInput? {
            res := if v.table == target && v.row < RowCount(tables, target) then Ok(Link(v.row)) else Err(DetachedRow);
          } else if policy.Skip? {
            res := Err(DetachedRow);
          } else {
            var r := CreateObject(target, v, policy, current);
            res := if r.Ok? then Ok(Link(r.value)) else Err(r.error);
          }
      }
    }

    // ---- Lists ----

    method RemoveAll(x: Pos)
      modifies this
      ensures tables == Apply(old(tables), ClearItems(x)) && log == old(log) + [ClearItems(x)]
      ensures tables.Keys == old(tables).Keys
    {
      tables := Set(tables, x, Items([]));
      log := log + [ClearItems(x)];
    }

    method RemoveAt(x: Pos, i: nat)
      requires i < |ItemsAt(tables, x)|
      modifies this
      ensures tables == Apply(old(tables), RemoveItem(x, i)) && log == old(log) + [RemoveItem(x, i)]
      ensures tables.Keys == old(tables).Keys
    {
      var items := ItemsAt(tables, x);
      tables := Set(tables, x, Items(items[..i] + items[i + 1..]));
      log := log + [RemoveItem(x, i)];
    }

    method AddElement(x: Pos, et: ElementType, e: Input, policy: CreatePolicy) returns (res: Result<()>)
      requires tables.Keys == c.schemas.Keys
      modifies this
      ensures Did(old(log), AddOne(c, old(tables), x, et, e, policy), res)
      ensures tables.Keys == c.schemas.Keys
      decreases Weight(e), e, 6, 0
    {
      hide Create;
      var u := UnboxValue(et, e, policy, None);
      if u.Err? {
        return Err(u.error);
      }
      tables := Set(tables, x, Items(ItemsAt(tables, x) + [u.value]));
      log := log + [AddItem(x, u.value)];
      res := Ok(());
    }

    method SetElementIfDifferent(x: Pos, et: ElementType, e: Input, i: nat) returns (res: Result<()>)
      requires tables.Keys == c.schemas.Keys
      modifies this
      ensures Did(old(log), SetIfDifferent(c, old(tables), x, et, e, i), res)
      ensures tables.Keys == c.schemas.Keys
      decreases Weight(e), e, 6, 0
    {
      hide Create;
      if i >= |ItemsAt(tables, x)| {
        return Err(OutOfBoundsIndex);
      }
      var seen := ItemsAt(tables, x)[i];
      var u := UnboxValue(et, e, UpdateModified, LinkedRow(seen));
      if u.Err? {
        return Err(u.error);
      }
      if seen != u.value {
        var items := ItemsAt(tables, x);
        if i >= |items| {
          return Err(OutOfBoundsIndex);
        }
        tables := Set(tables, x, Items(items[i := u.value]));
        log := log + [SetItem(x, i, u.value)];
      }
      res := Ok(());
    }

    method AssignList(x: Pos, et: ElementType, v: Input, policy: CreatePolicy) returns (res: Result<()>)
      requires tables.Keys == c.schemas.Keys
      modifies this
      ensures Did(old(log), Assign(c, old(tables), x, et, v, policy), res)
      ensures tables.Keys == c.schemas.Keys
      decreases Weight(v), v, 4, 0
    {
      hide SetIfDifferent, AddOne, AssignFrom, AddFrom;
      if v == ListInput(x) {
        return Ok(());
      }
      if v.NullInput? {
        RemoveAll(x);
        return Ok(());
      }
      if policy.UpdateModified? {
        if !v.Vector? {
          return Err(BadCast);
        }
        res := AssignOver(x, et, v);
      } else {
        RemoveAll(x);
        if !v.Vector? {
          return Err(BadCast);
        }
        res := AddAll(x, et, v, policy);
      }
    }

    method AddAll(x: Pos, et: ElementType, v: Input, policy: CreatePolicy) returns (res: Result<()>)
      requires tables.Keys == c.schemas.Keys && v.Vector?
      modifies this
      ensures Did(old(log), AddFrom(c, old(tables), x, et, v, 0, policy), res)
      ensures tables.Keys == c.schemas.Keys
      decreases Weight(v), v, 0, |v.elements| + 1
    {
      hide AddOne, AddFrom;
      ghost var whole := AddFrom(c, tables, x, et, v, 0, policy);
      ghost var done: Step<()> := Done(tables, ());
      ghost var start := log;
      var i := 0;
      while i < |v.elements|
        invariant i <= |v.elements| && tables.Keys == c.schemas.Keys
        invariant done.db == tables && log == start + done.log
        invariant whole == Then(done, AddFrom(c, tables, x, et, v, i, policy))
      {
        ghost var s := AddOne(c, tables, x, et, v.elements[i], policy);
        AddTurn(c, tables, x, et, v, i, policy);
        var r := AddElement(x, et, v.elements[i], policy);
        ThenAssociates(done, s, AddFrom(c, s.db, x, et, v, i + 1, policy));
        done := Then(done, s);
        if r.Err? {
          return r;
        }
        i := i + 1;
      }
      AddEnd(c, tables, x, et, v, policy);
      res := Ok(());
    }

    method AssignElement(x: Pos, et: ElementType, e: Input, index: nat, sz: nat) returns (res: Result<()>)
      requires tables.Keys == c.schemas.Keys
      modifies this
      ensures Did(old(log), AssignOne(c, old(tables), x, et, e, index, sz), res)
      ensures tables.Keys == c.schemas.Keys
      decreases Weight(e), e, 7, 0
    {
      hide AddOne, SetIfDifferent;
      if index < sz {
        res := SetElementIfDifferent(x, et, e, index);
      } else {
        res := AddElement(x, et, e, UpdateModified);
      }
    }

    method AssignOver(x: Pos, et: ElementType, v: Input) returns (res: Result<()>)
      requires tables.Keys == c.schemas.Keys && v.Vector?
      modifies this
      ensures Did(old(log), AssignFrom(c, old(tables), x, et, v, 0, |ItemsAt(old(tables), x)|), res)
      ensures tables.Keys == c.schemas.Keys
      decreases Weight(v), v, 0, |v.elements| + 1
    {
      hide AssignOne, Trim, AssignFrom, ItemsAt;
      var sz := |ItemsAt(tables, x)|;
      var index: nat := 0;
      ghost var whole := AssignFrom(c, tables, x, et, v, 0, sz);
      ghost var done: Step<()> := Done(tables, ());
      ghost var start := log;
      while index < |v.elements|
        invariant index <= |v.elements| && tables.Keys == c.schemas.Keys
        invariant done.db == tables && log == start + done.log
        invariant whole == Then(done, AssignFrom(c, tables, x, et, v, index, sz))
      {
        ghost var s := AssignOne(c, tables, x, et, v.elements[index], index, sz);
        AssignTurn(c, tables, x, et, v, index, sz);
        var r := AssignElement(x, et, v.elements[index], index, sz);
        ThenAssociates(done, s, AssignFrom(c, s.db, x, et, v, index + 1, sz));
        assert (start + done.log) + s.log == start + (done.log + s.log);
        done := Then(done, s);
        if r.Err? {
          return r;
        }
        index := index + 1;
      }
      AssignEnd(c, tables, x, et, v, index, sz);
      res := TrimTo(x, index, sz);
      ghost var t := Trim(done.db, x, index, sz);
      assert (start + done.log) + t.log == start + (done.log + t.log);
    }

    method TrimTo(x: Pos, index: nat, size: nat) returns (res: Result<()>)
      modifies this
      ensures Did(old(log), Trim(old(tables), x, index, size), res)
      ensures tables.Keys == old(tables).Keys
      decreases 0
    {
      ghost var whole := Trim(tables, x, index, size);
      ghost var done: Step<()> := Done(tables, ());
      ghost var start := log;
      var sz: nat := size;
      while index < sz
        invariant tables.Keys == old(tables).Keys
        invariant done.db == tables && log == start + done.log
        invariant whole == Then(done, Trim(tables, x, index, sz))
      {
        sz := sz - 1;
        if sz >= |ItemsAt(tables, x)| {
          return Err(OutOfBoundsIndex);
        }
        ghost var s := Emit(tables, RemoveItem(x, sz), ());
        ThenAssociates(done, s, Trim(s.db, x, index, sz));
        done := Then(done, s);
        RemoveAt(x, sz);
      }
      res := Ok(());
    }

    // ---- Entry points ----

    method FindProperty(os: ObjectSchema, name: string) returns (r: Option<nat>)
      ensures r == PropertyNamed(os, name, 0)
    {
      var i := 0;
      while i < |os.props|
        invariant i <= |os.props|
        invariant PropertyNamed(os, name, 0) == PropertyNamed(os, name, i)
      {
        if os.props[i].name == name {
          return Some(i);
        }
        i := i + 1;
      }
      r := None;
    }

    method SetObjectProperty(t: string, row: nat, name: string, v: Input,
            policy: CreatePolicy) returns (res: Result<()>)
      requires tables.Keys == c.schemas.Keys
      modifies this
      ensures Did(old(log), SetPropertyValue(c, old(tables), t, row, name, v, policy), res)
      ensures tables.Keys == c.schemas.Keys
    {
      hide SetProperty;
      if t !in c.schemas || row >= RowCount(tables, t) {
        return Err(InvalidatedObject);
      }
      var os := c.schemas[t];
      var i := FindProperty(os, name);
      if i.None? {
        return Err(if name in os.computed then ReadOnlyProperty else InvalidProperty);
      }
      if os.IsPrimary(i.value) && !c.inMigration {
        return Err(ModifyPrimaryKey);
      }
      res := SetPropertyValueImpl(Pos(t, row, i.value), os.props[i.value].ptype, v, policy, false);
    }

    // The rows that match now, last first, so that the result is in table order.
    method Snapshot(t: string, query: Query) returns (rows: seq<nat>)
      ensures rows == Matching(tables, t, query, 0)
    {
      rows := [];
      var from: nat := RowCount(tables, t);
      while from > 0
        invariant from <= RowCount(tables, t)
        invariant rows == Matching(tables, t, query, from)
      {
        from := from - 1;
        if query(tables, from) {
          rows := [from] + rows;
        }
      }
    }

    method SetResultsProperty(t: string, query: Query, name: string, v: Input) returns (res: Result<()>)
      requires tables.Keys == c.schemas.Keys
      modifies this
      ensures Did(old(log), SetAll(c, old(tables), t, query, name, v), res)
      ensures tables.Keys == c.schemas.Keys
    {
      hide SetProperty, SetEach, Matching;
      if t !in c.schemas {
        return Err(InvalidProperty);
      }
      var os := c.schemas[t];
      var found := FindProperty(os, name);
      if found.None? && name !in os.computed {
        return Err(InvalidProperty);
      }
      if found.Some? && os.IsPrimary(found.value) && !c.inMigration {
        return Err(ModifyPrimaryKey);
      }
      var snapshot := Snapshot(t, query);
      if found.None? {
        return if snapshot == [] then Ok(()) else Err(ReadOnlyProperty);
      }
      res := SetRows(t, snapshot, found.value, os.props[found.value].ptype, v);
    }

    method SetRows(t: string, rows: seq<nat>, col: nat, pt: PropertyType, v: Input) returns (res: Result<()>)
      requires tables.Keys == c.schemas.Keys
      modifies this
      ensures Did(old(log), SetEach(c, old(tables), t, rows, 0, col, pt, v), res)
      ensures tables.Keys == c.schemas.Keys
    {
      hide SetProperty, SetEach;
      ghost var whole := SetEach(c, tables, t, rows, 0, col, pt, v);
      ghost var done: Step<()> := Done(tables, ());
      ghost var start := log;
      var i := 0;
      while i < |rows|
        invariant i <= |rows| && tables.Keys == c.schemas.Keys
        invariant done.db == tables && log == start + done.log
        invariant whole == Then(done, SetEach(c, tables, t, rows, i, col, pt, v))
      {
        ghost var s := SetProperty(c, tables, Pos(t, rows[i], col), pt, v, ForceCreate, false);
        SetEachTurn(c, tables, t, rows, i, col, pt, v);
        var r := SetPropertyValueImpl(Pos(t, rows[i], col), pt, v, ForceCreate, false);
        ThenAssociates(done, s, SetEach(c, s.db, t, rows, i + 1, col, pt, v));
        done := Then(done, s);
        if r.Err? {
          return r;
        }
        i := i + 1;
      }
      SetEachEnd(c, tables, t, rows, col, pt, v);
      res := Ok(());
    }
  }
}

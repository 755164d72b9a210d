/**
 The accessor code as functions of the store: creating or updating an object from an input
 value, setting one property, and assigning to a list.

 Every function returns the new store, the writes it issued in order, and a value or an
 error. After an error the writes issued so far stand, as they do in a transaction that
 has not been cancelled yet.
 */
module Accessor {
  import opened Schema
  import opened Store

  datatype Step<+A> = Step(db: Db, log: seq<Write>, res: Result<A>)

  function Done<A>(db: Db, a: A): Step<A> {
    Step(db, [], Ok(a))
  }

  function Fail<A>(db: Db, e: Error): Step<A> {
    Step(db, [], Err(e))
  }

  function Emit<A>(db: Db, w: Write, a: A): Step<A> {
    Step(Apply(db, w), [w], Ok(a))
  }

  // `t` carried on from where `s` stopped.
  function Then<A, B>(s: Step<A>, t: Step<B>): Step<B> {
    Step(t.db, s.log + t.log, t.res)
  }

  function Stop<A, B>(s: Step<A>): Step<B>
    requires s.res.Err?
  {
    Step(s.db, s.log, Err(s.res.error))
  }

  // The same run, reporting `b` if it succeeded.
  function Report<A, B>(s: Step<A>, b: B): Step<B> {
    Step(s.db, s.log, if s.res.Ok? then Ok(b) else Err(s.res.error))
  }

  // ---- Reading the input ----

  function ValueFor(value: Input, name: string): (r: Result<Option<Input>>)
    ensures r.Ok? ==> value.Dict?
    ensures r.Ok? && r.value.Some? ==> name in value.fields && value.fields[name] == r.value.value
  {
    if !value.Dict? then Err(BadCast)
    else if name in value.fields then Ok(Some(value.fields[name]))
    else Ok(None)
  }

  function UnboxScalar(ty: ScalarType, v: Input): Result<Cell> {
    if v.ScalarInput? && TypeOf(v.scalar) == ty then Ok(Value(v.scalar)) else Err(BadCast)
  }

  // The primary key that `value` asks for: given, else the default, else null.
  function KeyFor(os: ObjectSchema, value: Input): Result<Cell>
    requires os.primary.Some? && os.primary.value < |os.props|
  {
    var prop := os.props[os.primary.value];
    var given := ValueFor(value, prop.name);
    if given.Err? then Err(given.error)
    else
      var v := if given.value.Some? then given.value else prop.default;
      if v.None? && !prop.ptype.Nullable() then Err(MissingPropertyValue)
      else if v.None? || v.value.NullInput? then
        if prop.ptype.Nullable() then Ok(Null) else Err(InvalidNullKey)
      else if prop.ptype.elem.ScalarElement? then UnboxScalar(prop.ptype.elem.ty, v.value)
      else Err(BadCast)
  }

  // ---- Finding or adding the row ----

  datatype Slot = Slot(row: nat, created: bool, skipPrimary: bool)

  function AddRow(db: Db, t: string, cells: Row, skipPrimary: bool): Step<Slot> {
    Emit(db, NewRow(t, cells), Slot(RowCount(db, t), true, skipPrimary))
  }

  predicate KeyedSchema(os: ObjectSchema) {
    os.primary.Some? && os.primary.value < |os.props|
  }

  function GetOrAddRow(c: Context, db: Db, t: string, os: ObjectSchema, value: Input,
                       policy: CreatePolicy, current: Option<nat>): Step<Slot>
  {
    if KeyedSchema(os) then
      var pk := os.primary.value;
      var key := KeyFor(os, value);
      if key.Err? then Fail(db, key.error)
      else
        var found := FindFirst(if t in db then db[t] else [], pk, key.value);
        if found.None? then AddRow(db, t, EmptyRow(os)[pk := key.value], true)
        else if policy.ForceCreate? then
          if c.inMigration then AddRow(db, t, EmptyRow(os), false)
          else Fail(db, DuplicateKey)
        else Done(db, Slot(found.value, false, true))
    else if policy.UpdateModified? && current.Some? then
      Done(db, Slot(current.value, false, true))
    else AddRow(db, t, EmptyRow(os), true)
  }

  // What the populating loop does with one property.
  datatype Choice = Ignore | Refuse(error: Error) | Put(v: Input, isDefault: bool)

  function Choose(os: ObjectSchema, value: Input, slot: Slot, i: nat): (r: Choice)
    requires i < |os.props|
    ensures r.Put? ==>
              value.Dict?
              && (IsLeaf(r.v) || (os.props[i].name in value.fields && r.v == value.fields[os.props[i].name]))
  {
    var prop := os.props[i];
    if slot.skipPrimary && os.IsPrimary(i) then Ignore
    else
      var given := ValueFor(value, prop.name);
      if given.Err? then Refuse(given.error)
      else if !slot.created && given.value.None? then Ignore
      else
        var v := if given.value.Some? then given.value else prop.default;
        if (v.None? || v.value.NullInput?) && !prop.ptype.Nullable() && !prop.ptype.Array?
           && (os.IsPrimary(i) || !value.allowMissing) then
          Refuse(MissingPropertyValue)
        else if v.None? then Ignore
        else Put(v.value, given.value.None?)
  }

  // ---- Creating and populating ----

  function Create(c: Context, db: Db, t: string, value: Input, policy: CreatePolicy,
                  current: Option<nat>): Step<nat>
    decreases Weight(value), value, 2, 0
  {
    if t !in c.schemas then Fail(db, InvalidProperty)
    else
      var slot := GetOrAddRow(c, db, t, c.schemas[t], value, policy, current);
      if slot.res.Err? then Stop(slot)
      else
        Then(slot, Report(Populate(c, slot.db, t, c.schemas[t], slot.res.value, value, policy, 0), slot.res.value.row))
  }

  function Populate(c: Context, db: Db, t: string, os: ObjectSchema, slot: Slot, value: Input,
                    policy: CreatePolicy, i: nat): Step<()>
    decreases Weight(value), value, 1, |os.props| + 1 - i
  {
    if i >= |os.props| then Done(db, ())
    else
      var s := PopulateOne(c, db, t, os, slot, value, policy, i);
      if s.res.Err? then s
      else Then(s, Populate(c, s.db, t, os, slot, value, policy, i + 1))
  }

  function PopulateOne(c: Context, db: Db, t: string, os: ObjectSchema, slot: Slot, value: Input,
                       policy: CreatePolicy, i: nat): Step<()>
    requires i < |os.props|
    decreases Weight(value), value, 1, 0
  {
    match Choose(os, value, slot, i)
    case Ignore => Done(db, ())
    case Refuse(e) => Fail(db, e)
    case Put(v, isDefault) => SetProperty(c, db, Pos(t, slot.row, i), os.props[i].ptype, v, policy, isDefault)
  }

  // ---- One property ----

  function SetNull(db: Db, x: Pos, pt: PropertyType, policy: CreatePolicy, isDefault: bool): Step<()> {
    if policy.UpdateModified? && Get(db, x) == Null then Done(db, ())
    else if pt.elem.ObjectElement? && isDefault then Done(db, ())
    else Emit(db, SetCell(x, Null), ())
  }

  function StoreCell(db: Db, x: Pos, seen: Cell, cell: Cell, policy: CreatePolicy): Step<()> {
    if policy.UpdateModified? && seen == cell then Done(db, ())
    else Emit(db, SetCell(x, cell), ())
  }

  function SetProperty(c: Context, db: Db, x: Pos, pt: PropertyType, v: Input, policy: CreatePolicy,
                       isDefault: bool): Step<()>
    decreases Weight(v), v, 5, 0
  {
    if pt.Nullable() && v.NullInput? then SetNull(db, x, pt, policy, isDefault)
    else if pt.Array? then Assign(c, db, x, pt.elem, v, policy)
    else
      // The old cell is read before the value is unboxed, and unboxing may create objects.
      var seen := Get(db, x);
      var u := Unbox(c, db, pt.elem, v, policy, LinkedRow(seen));
      if u.res.Err? then Stop(u)
      else Then(u, StoreCell(u.db, x, seen, u.res.value, policy))
  }

  function Unbox(c: Context, db: Db, et: ElementType, v: Input, policy: CreatePolicy,
                 current: Option<nat>): Step<Cell>
    decreases Weight(v), v, 3, 0
  {
    match et
    case ScalarElement(ty) => Step(db, [], UnboxScalar(ty, v))
    case ObjectElement(target) =>
      if v.RowInput? then
        if v.table == target && v.row < RowCount(db, target) then Done(db, Link(v.row))
        else Fail(db, DetachedRow)
      else if policy.Skip? then Fail(db, DetachedRow)
      else
        var s := Create(c, db, target, v, policy, current);
        Report(s, if s.res.Ok? then Link(s.res.value) else Null)
  }

  // ---- Lists ----

  function Assign(c: Context, db: Db, x: Pos, et: ElementType, v: Input, policy: CreatePolicy): Step<()>
    decreases Weight(v), v, 4, 0
  {
    if v == ListInput(x) then Done(db, ())
    else if v.NullInput? then Emit(db, ClearItems(x), ())
    else if policy.UpdateModified? then
      if v.Vector? then AssignFrom(c, db, x, et, v, 0, |ItemsAt(db, x)|) else Fail(db, BadCast)
    else
      var cleared := Emit(db, ClearItems(x), ());
      if v.Vector? then Then(cleared, AddFrom(c, cleared.db, x, et, v, 0, policy))
      else Then(cleared, Fail(cleared.db, BadCast))
  }

  // Element `i` of `v` onwards; `sz` is the list's length when the assignment began.
  function AssignFrom(c: Context, db: Db, x: Pos, et: ElementType, v: Input, i: nat, sz: nat): Step<()>
    requires v.Vector?
    decreases Weight(v), v, 0, |v.elements| - i
  {
    if i >= |v.elements| then Trim(db, x, i, sz)
    else
      var s := AssignOne(c, db, x, et, v.elements[i], i, sz);
      if s.res.Err? then s
      else Then(s, AssignFrom(c, s.db, x, et, v, i + 1, sz))
  }

  function AssignOne(c: Context, db: Db, x: Pos, et: ElementType, e: Input, i: nat, sz: nat): Step<()>
    decreases Weight(e), e, 7, 0
  {
    if i < sz then SetIfDifferent(c, db, x, et, e, i) else AddOne(c, db, x, et, e, UpdateModified)
  }

  function SetIfDifferent(c: Context, db: Db, x: Pos, et: ElementType, e: Input, i: nat): Step<()>
    decreases Weight(e), e, 6, 0
  {
    if i >= |ItemsAt(db, x)| then Fail(db, OutOfBoundsIndex)
    else
      var seen := ItemsAt(db, x)[i];
      var u := Unbox(c, db, et, e, UpdateModified, LinkedRow(seen));
      if u.res.Err? then Stop(u)
      else Then(u, StoreItem(u.db, x, i, seen, u.res.value))
  }

  function StoreItem(db: Db, x: Pos, i: nat, seen: Cell, cell: Cell): Step<()> {
    if seen == cell then Done(db, ())
    else if i < |ItemsAt(db, x)| then Emit(db, SetItem(x, i, cell), ())
    else Fail(db, OutOfBoundsIndex)
  }

  function AddOne(c: Context, db: Db, x: Pos, et: ElementType, e: Input, policy: CreatePolicy): Step<()>
    decreases Weight(e), e, 6, 0
  {
    var u := Unbox(c, db, et, e, policy, None);
    if u.res.Err? then Stop(u)
    else Then(u, Emit(u.db, AddItem(x, u.res.value), ()))
  }

  function AddFrom(c: Context, db: Db, x: Pos, et: ElementType, v: Input, i: nat, policy: CreatePolicy): Step<()>
    requires v.Vector?
    decreases Weight(v), v, 0, |v.elements| - i
  {
    if i >= |v.elements| then Done(db, ())
    else
      var s := AddOne(c, db, x, et, v.elements[i], policy);
      if s.res.Err? then s
      else Then(s, AddFrom(c, s.db, x, et, v, i + 1, policy))
  }

  // Removes the last element until `index` elements are left of `sz`.
  function Trim(db: Db, x: Pos, index: nat, sz: nat): Step<()>
    decreases sz
  {
    if index >= sz then Done(db, ())
    else if sz - 1 >= |ItemsAt(db, x)| then Fail(db, OutOfBoundsIndex)
    else
      var s := Emit(db, RemoveItem(x, sz - 1), ());
      Then(s, Trim(s.db, x, index, sz - 1))
  }

  // ---- Entry points ----

  // The position of the property called `name`, from position `from` on.
  function PropertyNamed(os: ObjectSchema, name: string, from: nat): (r: Option<nat>)
    ensures r.Some? ==> from <= r.value < |os.props| && os.props[r.value].name == name
    ensures r.None? ==> forall i | from <= i < |os.props| :: os.props[i].name != name
    decreases |os.props| - from
  {
    if from >= |os.props| then None
    else if os.props[from].name == name then Some(from)
    else PropertyNamed(os, name, from + 1)
  }

  // Outside a migration a primary key is the immutable identity of its row.
  function WritableProperty(c: Context, os: ObjectSchema, name: string): Result<nat> {
    var i := PropertyNamed(os, name, 0);
    if i.None? then Err(if name in os.computed then ReadOnlyProperty else InvalidProperty)
    else if os.IsPrimary(i.value) && !c.inMigration then Err(ModifyPrimaryKey)
    else Ok(i.value)
  }

  function SetPropertyValue(c: Context, db: Db, t: string, row: nat, name: string, v: Input,
          policy: CreatePolicy): Step<()> {
    if t !in c.schemas || row >= RowCount(db, t) then Fail(db, InvalidatedObject)
    else
      var i := WritableProperty(c, c.schemas[t], name);
      if i.Err? then Fail(db, i.error)
      else SetProperty(c, db, Pos(t, row, i.value), c.schemas[t].props[i.value].ptype, v, policy, false)
  }

  // One value for column `col` of each of `rows`, from position `j` on.
  function SetEach(c: Context, db: Db, t: string, rows: seq<nat>, j: nat, col: nat, pt: PropertyType,
          v: Input): Step<()>
    decreases |rows| - j
  {
    if j >= |rows| then Done(db, ())
    else
      var s := SetProperty(c, db, Pos(t, rows[j], col), pt, v, ForceCreate, false);
      if s.res.Err? then s
      else Then(s, SetEach(c, s.db, t, rows, j + 1, col, pt, v))
  }

  type Query = (Db, nat) -> bool

  // The rows of `t`, from row `from` on, that match the query now.
  function Matching(db: Db, t: string, query: Query, from: nat): (rows: seq<nat>)
    ensures forall r :: r in rows <==> from <= r < RowCount(db, t) && query(db, r)
    ensures forall i, j | 0 <= i < j < |rows| :: rows[i] < rows[j]
    decreases RowCount(db, t) - from
  {
    if from >= RowCount(db, t) then []
    else
      var rest := Matching(db, t, query, from + 1);
      if query(db, from) then
        assert forall r | r in [from] + rest :: r == from || r in rest;
        assert forall i | 0 <= i < |rest| :: rest[i] in rest;
        [from] + rest
      else rest
  }

  // Sets a property of all query results. The results are a snapshot taken before any write.
  function SetAll(c: Context, db: Db, t: string, query: Query, name: string, v: Input): Step<()> {
    if t !in c.schemas then Fail(db, InvalidProperty)
    else
      var i := WritableProperty(c, c.schemas[t], name);
      var rows := Matching(db, t, query, 0);
      if i == Err(ReadOnlyProperty) && rows == [] then Done(db, ())
      else if i.Err? then Fail(db, i.error)
      else SetEach(c, db, t, rows, 0, i.value, c.schemas[t].props[i.value].ptype, v)
  }
}

/**
 What an input value means: when a store satisfies it. A create that succeeds makes its input
 true, and an update from an input that is already true does nothing.

 A described object with a primary key is the object that has the key. One without is known by
 its row, or by the link to it, and is taken to have been added since an earlier store, `base`.
 */
module Meaning {
  import opened Schema
  import opened Store
  import opened Safety
  import opened Accessor
  import opened Footprint
  import opened Upsert
  import opened Frame

  // The row of the object that `value` describes.
  function RowFor(schemas: Schemas, db: Db, t: string, value: Input): (r: Option<nat>) {
    if t in schemas && t in db && KeyedSchema(schemas[t]) && KeyFor(schemas[t], value).Ok? then
      FindFirst(db[t], schemas[t].primary.value, KeyFor(schemas[t], value).value)
    else None
  }

  // Row `row` is the described object and has every property that the description provides.
  predicate Holds(schemas: Schemas, base: Db, db: Db, t: string, row: nat, value: Input)
    decreases value, 2, 0
  {
    && t in schemas && value.Dict? && row < RowCount(db, t)
    && (if KeyedSchema(schemas[t]) then RowFor(schemas, db, t, value) == Some(row) else RowCount(base, t) <= row)
    && HoldsFields(schemas, base, db, t, schemas[t], row, value, 0)
  }

  predicate HoldsFields(schemas: Schemas, base: Db, db: Db, t: string, os: ObjectSchema, row: nat, value: Input,
          i: nat)
    requires value.Dict?
    decreases value, 1, |os.props| - i
  {
    i < |os.props| ==>
      && HoldsField(schemas, base, db, t, os, row, value, i)
      && HoldsFields(schemas, base, db, t, os, row, value, i + 1)
  }

  predicate HoldsField(schemas: Schemas, base: Db, db: Db, t: string, os: ObjectSchema, row: nat, value: Input, i: nat)
    requires value.Dict? && i < |os.props|
    decreases value, 0, 0
  {
    os.props[i].name in value.fields ==>
      HoldsInput(schemas, base, db, Pos(t, row, i), os.props[i].ptype, value.fields[os.props[i].name])
  }

  predicate HoldsInput(schemas: Schemas, base: Db, db: Db, x: Pos, pt: PropertyType, v: Input)
    decreases v, 4, 0
  {
    var cell := Get(db, x);
    if pt.Nullable() && v.NullInput? then cell == Null
    else if pt.Array? then
      if v == ListInput(x) then true
      else if v.NullInput? then cell == Items([])
      else v.Vector? && cell.Items? && |cell.items| == |v.elements|
           && DenotesAll(schemas, base, db, pt.elem, v, cell.items, 0)
    else Denotes(schemas, base, db, pt.elem, v, cell)
  }

  // `cell` is what `v` stands for in this store.
  predicate Denotes(schemas: Schemas, base: Db, db: Db, et: ElementType, v: Input, cell: Cell)
    decreases v, 3, 0
  {
    match et
    case ScalarElement(ty) => UnboxScalar(ty, v) == Ok(cell)
    case ObjectElement(target) =>
      cell.Link?
      && (if v.RowInput? then v.table == target && v.row == cell.row && cell.row < RowCount(db, target)
          else Holds(schemas, base, db, target, cell.row, v))
  }

  predicate DenotesAll(schemas: Schemas, base: Db, db: Db, et: ElementType, v: Input, items: seq<Cell>, i: nat)
    requires v.Vector? && |items| == |v.elements|
    decreases v, 0, |v.elements| - i
  {
    i < |items| ==>
      && Denotes(schemas, base, db, et, v.elements[i], items[i])
      && DenotesAll(schemas, base, db, et, v, items, i + 1)
  }

  // ---- Every claim holds ----

  function RowWithKey(schemas: Schemas, db: Db, t: string, key: Cell): Option<nat> {
    if t in schemas && t in db && KeyedSchema(schemas[t]) then FindFirst(db[t], schemas[t].primary.value, key) else None
  }

  // The object that the claim is about exists and is as the claim says. Claims about keys and
  // about objects without primary key are not looked at.
  predicate ClaimHolds(schemas: Schemas, base: Db, db: Db, k: Claim) {
    var f := k.foot;
    f.table in schemas && KeyedSchema(schemas[f.table]) && !schemas[f.table].IsPrimary(f.col) ==>
      && f.col < |schemas[f.table].props|
      && RowWithKey(schemas, db, f.table, f.key).Some?
      && HoldsInput(schemas, base, db, Pos(f.table, RowWithKey(schemas, db, f.table, f.key).value, f.col),
                    schemas[f.table].props[f.col].ptype, k.v)
  }

  lemma {:induction false} HoldsClaims(schemas: Schemas, base: Db, db: Db, t: string, row: nat, value: Input, k: Claim)
    requires Holds(schemas, base, db, t, row, value) && k in Claims(schemas, t, value) && ValidSchemas(schemas)
    ensures ClaimHolds(schemas, base, db, k)
    decreases value, 2, 0
  {
    if k in NestedClaims(schemas, schemas[t], value, 0) {
      HoldsNestedClaims(schemas, base, db, t, row, value, 0, k);
    } else if KeyedSchema(schemas[t]) && !schemas[t].IsPrimary(k.foot.col) {
      HoldsAtField(schemas, base, db, t, row, value, 0, k.foot.col);
    }
  }

  lemma {:induction false} HoldsAtField(schemas: Schemas, base: Db, db: Db, t: string, row: nat, value: Input,
          i: nat, j: nat)
    requires t in schemas && value.Dict? && i <= j < |schemas[t].props|
    requires HoldsFields(schemas, base, db, t, schemas[t], row, value, i)
    ensures HoldsField(schemas, base, db, t, schemas[t], row, value, j)
    decreases j - i
  {
    if i < j {
      HoldsAtField(schemas, base, db, t, row, value, i + 1, j);
    }
  }

  lemma {:induction false} HoldsNestedClaims(schemas: Schemas, base: Db, db: Db, t: string, row: nat, value: Input,
          i: nat, k: Claim)
    requires t in schemas && value.Dict? && ValidSchemas(schemas)
    requires HoldsFields(schemas, base, db, t, schemas[t], row, value, i)
    requires k in NestedClaims(schemas, schemas[t], value, i)
    ensures ClaimHolds(schemas, base, db, k)
    decreases value, 1, |schemas[t].props| - i
  {
    var os := schemas[t];
    if i < |os.props| && k in FieldClaims(schemas, os, value, i) {
      assert k in InputClaims(schemas, os.props[i].ptype.elem, value.fields[os.props[i].name]);
      assert ValidObjectSchema(schemas, os) && os.props[i].ptype.elem.ObjectElement?;
      assert !os.IsPrimary(i) && HoldsField(schemas, base, db, t, os, row, value, i);
      HoldsInputClaims(schemas, base, db, Pos(t, row, i), os.props[i].ptype, value.fields[os.props[i].name], k);
    } else if i < |os.props| {
      HoldsNestedClaims(schemas, base, db, t, row, value, i + 1, k);
    }
  }

  lemma {:induction false} HoldsInputClaims(schemas: Schemas, base: Db, db: Db, x: Pos, pt: PropertyType, v: Input,
          k: Claim)
    requires HoldsInput(schemas, base, db, x, pt, v) && k in InputClaims(schemas, pt.elem, v) && ValidSchemas(schemas)
    ensures ClaimHolds(schemas, base, db, k)
    decreases v, 4, 0
  {
    if pt.Array? && v.Vector? {
      HoldsElementClaims(schemas, base, db, pt.elem, v, Get(db, x).items, 0, k);
    } else if pt.Single? {
      DenotesClaims(schemas, base, db, pt.elem, v, Get(db, x), k);
    }
  }

  lemma {:induction false} DenotesClaims(schemas: Schemas, base: Db, db: Db, et: ElementType, v: Input, cell: Cell,
          k: Claim)
    requires Denotes(schemas, base, db, et, v, cell) && k in InputClaims(schemas, et, v) && ValidSchemas(schemas)
    ensures ClaimHolds(schemas, base, db, k)
    decreases v, 3, 0
  {
    hide ValidSchemas, ClaimHolds;
    if v.Dict? {
      HoldsClaims(schemas, base, db, et.target, cell.row, v, k);
    }
  }

  lemma {:induction false} HoldsElementClaims(schemas: Schemas, base: Db, db: Db, et: ElementType, v: Input,
          items: seq<Cell>, i: nat, k: Claim)
    requires v.Vector? && |items| == |v.elements| && et.ObjectElement? && ValidSchemas(schemas)
    requires DenotesAll(schemas, base, db, et, v, items, i) && k in ElementClaims(schemas, et, v, i)
    ensures ClaimHolds(schemas, base, db, k)
    decreases v, 0, |v.elements| - i
  {
    if i < |items| && k in InputClaims(schemas, et, v.elements[i]) {
      DenotesClaims(schemas, base, db, et, v.elements[i], items[i], k);
    } else if i < |items| {
      HoldsElementClaims(schemas, base, db, et, v, items, i + 1, k);
    }
  }

  /** Descriptions that give one scalar property of one object different values hold in no store, so
      no create could make them all true. */
  lemma ConflictNeverHolds(schemas: Schemas, base: Db, db: Db, t: string, row: nat, value: Input, k: Claim, l: Claim)
    requires Holds(schemas, base, db, t, row, value) && ValidSchemas(schemas)
    requires k in Claims(schemas, t, value) && l in Claims(schemas, t, value) && k.foot == l.foot
    requires k.foot.table in schemas && schemas[k.foot.table].primary.Some?
    requires !schemas[k.foot.table].IsPrimary(k.foot.col) && k.foot.col < |schemas[k.foot.table].props|
    requires schemas[k.foot.table].props[k.foot.col].ptype.Single?
    requires schemas[k.foot.table].props[k.foot.col].ptype.elem.ScalarElement?
    ensures k.v == l.v
  {
    HoldsClaims(schemas, base, db, t, row, value, k);
    HoldsClaims(schemas, base, db, t, row, value, l);
    var f := k.foot;
    var x := Pos(f.table, RowWithKey(schemas, db, f.table, f.key).value, f.col);
    ScalarHolds(schemas, base, db, x, schemas[f.table].props[f.col].ptype, k.v);
    ScalarHolds(schemas, base, db, x, schemas[f.table].props[f.col].ptype, l.v);
  }

  lemma ScalarHolds(schemas: Schemas, base: Db, db: Db, x: Pos, pt: PropertyType, v: Input)
    requires HoldsInput(schemas, base, db, x, pt, v) && pt.Single? && pt.elem.ScalarElement?
    ensures v == match Get(db, x) case Value(s) => ScalarInput(s) case _ => NullInput
  {
    if !(pt.Nullable() && v.NullInput?) {
      assert Denotes(schemas, base, db, pt.elem, v, Get(db, x));
    }
  }

  // ---- A repeat does nothing ----

  // Nothing was written, except that lists given as null were cleared while already empty.
  ghost predicate Silent<A>(db: Db, s: Step<A>, a: A) {
    s.db == db && s.res == Ok(a)
    && forall w <- s.log :: w.ClearItems? && Get(db, w.at) == Items([])
  }

  lemma SilentThen<A, B>(db: Db, s: Step<A>, a: A, t: Step<B>, b: B)
    requires Silent(db, s, a) && Silent(db, t, b)
    ensures Silent(db, Then(s, t), b)
  {
  }

  lemma {:induction false} CreateSilent(c: Context, base: Db, db: Db, t: string, row: nat, value: Input,
          current: Option<nat>)
    requires Holds(c.schemas, base, db, t, row, value) && ValidSchemas(c.schemas)
    requires c.schemas[t].primary.None? ==> current == Some(row)
    ensures Silent(db, Create(c, db, t, value, UpdateModified, current), row)
    decreases Weight(value), value, 2, 0
  {
    var slot := GetOrAddRow(c, db, t, c.schemas[t], value, UpdateModified, current);
    assert slot == Done(db, Slot(row, false, true));
    PopulateSilent(c, base, db, t, row, value, 0);
    SilentThen(db, slot, slot.res.value,
               Report(Populate(c, db, t, c.schemas[t], slot.res.value, value, UpdateModified, 0), row), row);
  }

  lemma {:induction false} PopulateSilent(c: Context, base: Db, db: Db, t: string, row: nat, value: Input, i: nat)
    requires t in c.schemas && value.Dict? && ValidSchemas(c.schemas)
    requires HoldsFields(c.schemas, base, db, t, c.schemas[t], row, value, i)
    ensures Silent(db, Populate(c, db, t, c.schemas[t], Slot(row, false, true), value, UpdateModified, i), ())
    decreases Weight(value), value, 1, |c.schemas[t].props| + 1 - i
  {
    hide ValidSchemas;
    var os := c.schemas[t];
    if i < |os.props| {
      var s := PopulateOne(c, db, t, os, Slot(row, false, true), value, UpdateModified, i);
      PopulateOneSilent(c, base, db, t, row, value, i);
      PopulateSilent(c, base, db, t, row, value, i + 1);
      SilentThen(db, s, (), Populate(c, db, t, os, Slot(row, false, true), value, UpdateModified, i + 1), ());
    }
  }

  lemma {:induction false} PopulateOneSilent(c: Context, base: Db, db: Db, t: string, row: nat, value: Input, i: nat)
    requires t in c.schemas && value.Dict? && i < |c.schemas[t].props| && ValidSchemas(c.schemas)
    requires HoldsField(c.schemas, base, db, t, c.schemas[t], row, value, i)
    ensures Silent(db, PopulateOne(c, db, t, c.schemas[t], Slot(row, false, true), value, UpdateModified, i), ())
    decreases Weight(value), value, 1, 0
  {
    hide ValidSchemas;
    var os := c.schemas[t];
    if !os.IsPrimary(i) && os.props[i].name in value.fields {
      SetPropertySilent(c, base, db, Pos(t, row, i), os.props[i].ptype, value.fields[os.props[i].name]);
    }
  }

  lemma {:induction false} SetPropertySilent(c: Context, base: Db, db: Db, x: Pos, pt: PropertyType, v: Input)
    requires HoldsInput(c.schemas, base, db, x, pt, v) && ValidSchemas(c.schemas)
    ensures Silent(db, SetProperty(c, db, x, pt, v, UpdateModified, false), ())
    decreases Weight(v), v, 5, 0
  {
    hide ValidSchemas;
    if pt.Nullable() && v.NullInput? {
    } else if pt.Array? {
      if v.NullInput? {
        SetSame(db, x);
      } else if v.Vector? {
        AssignFromSilent(c, base, db, x, pt.elem, v, 0);
      }
    } else {
      UnboxSilent(c, base, db, pt.elem, v, Get(db, x));
    }
  }

  lemma {:induction false} UnboxSilent(c: Context, base: Db, db: Db, et: ElementType, v: Input, cell: Cell)
    requires Denotes(c.schemas, base, db, et, v, cell) && ValidSchemas(c.schemas)
    ensures Silent(db, Unbox(c, db, et, v, UpdateModified, LinkedRow(cell)), cell)
    decreases Weight(v), v, 3, 0
  {
    hide ValidSchemas;
    if et.ObjectElement? && !v.RowInput? {
      CreateSilent(c, base, db, et.target, cell.row, v, Some(cell.row));
    }
  }

  lemma {:induction false} AssignFromSilent(c: Context, base: Db, db: Db, x: Pos, et: ElementType, v: Input, i: nat)
    requires v.Vector? && Get(db, x).Items? && |ItemsAt(db, x)| == |v.elements| && i <= |v.elements|
    requires DenotesAll(c.schemas, base, db, et, v, ItemsAt(db, x), i) && ValidSchemas(c.schemas)
    ensures Silent(db, AssignFrom(c, db, x, et, v, i, |v.elements|), ())
    decreases Weight(v), v, 0, |v.elements| - i
  {
    hide ValidSchemas;
    if i < |v.elements| {
      var item := ItemsAt(db, x)[i];
      UnboxSilent(c, base, db, et, v.elements[i], item);
      AssignFromSilent(c, base, db, x, et, v, i + 1);
      SilentThen(db, SetIfDifferent(c, db, x, et, v.elements[i], i), (),
                 AssignFrom(c, db, x, et, v, i + 1, |v.elements|), ());
    }
  }

  // ---- What holds stays true while its footprint is left alone ----

  // What a policy adds without looking is new since `db`.
  function Base(policy: CreatePolicy, db: Db): Db {
    if policy.UpdateModified? then map[] else db
  }

  // The cell is as it was, or it now is what one of `claims` says of it.
  ghost predicate CellKept(c: Context, db: Db, db': Db, x: Pos, claims: set<Claim>, policy: CreatePolicy) {
    || Get(db', x) == Get(db, x)
    || (&& Shared(c.schemas, x.table, policy)
        && exists v :: Claimed(c, db, db', x, claims, policy, v))
  }

  ghost predicate Claimed(c: Context, db: Db, db': Db, x: Pos, claims: set<Claim>, policy: CreatePolicy, v: Input) {
    && x.table in c.schemas && x.col < |c.schemas[x.table].props|
    && Claim(FootAt(c.schemas, db, x), v) in claims
    && var pt := c.schemas[x.table].props[x.col].ptype;
       && InputClaims(c.schemas, pt.elem, v) <= claims
       && HoldsInput(c.schemas, Base(policy, db), db', x, pt, v)
  }

  // The cells that decide whether `claims` hold, other than primary keys.
  ghost predicate Reads(c: Context, base: Db, db: Db, x: Pos, claims: set<Claim>, policy: CreatePolicy) {
    && Open(c, db, x)
    && (if Shared(c.schemas, x.table, policy) then FootAt(c.schemas, db, x) in Named(claims)
        else RowCount(base, x.table) <= x.row)
  }

  ghost predicate Older(base': Db, base: Db) {
    forall t :: RowCount(base', t) <= RowCount(base, t)
  }

  // An operation that claims `added` has led from `db` to `db'` and keeps what `claims` say.
  ghost predicate Keeps(c: Context, base: Db, db: Db, db': Db, claims: set<Claim>, added: set<Claim>,
          policy: CreatePolicy) {
    && Normal(c, db) && WellFormed(c.schemas, db') && RowsKept(c.schemas, db, db', true)
    && Compatible(c.schemas, claims, added, policy)
    && Older(base, Base(policy, db))
    && (forall x | Reads(c, base, db, x, claims, policy) :: CellKept(c, db, db', x, added, policy))
  }

  lemma KeepsFewer(c: Context, base: Db, db: Db, db': Db, claims: set<Claim>, added: set<Claim>,
          policy: CreatePolicy, fewer: set<Claim>)
    requires Keeps(c, base, db, db', claims, added, policy) && fewer <= claims
    ensures Keeps(c, base, db, db', fewer, added, policy)
  {
    assert Named(fewer) <= Named(claims);
    forall x | Reads(c, base, db, x, fewer, policy) ensures CellKept(c, db, db', x, added, policy) {
      assert Reads(c, base, db, x, claims, policy);
    }
  }

  lemma KeepsSame(c: Context, base: Db, db: Db, claims: set<Claim>, policy: CreatePolicy)
    requires Normal(c, db) && Older(base, Base(policy, db))
    ensures Keeps(c, base, db, db, claims, {}, policy)
  {
  }

  lemma RowForKept(c: Context, db: Db, db': Db, t: string, value: Input)
    requires Normal(c, db) && WellFormed(c.schemas, db') && RowsKept(c.schemas, db, db', true)
    requires RowFor(c.schemas, db, t, value).Some?
    ensures RowFor(c.schemas, db', t, value) == RowFor(c.schemas, db, t, value)
  {
    var pk := c.schemas[t].primary.value;
    var key := KeyFor(c.schemas[t], value).value;
    var r := RowFor(c.schemas, db, t, value).value;
    assert RowCount(db, t) <= RowCount(db', t);
    forall i: nat | i <= r ensures pk < |db[t][i]| && pk < |db'[t][i]| && db'[t][i][pk] == db[t][i][pk] {
      assert RowFits(db, c.schemas[t], db[t][i]);
      assert RowFits(db', c.schemas[t], db'[t][i]);
      assert KeyAt(c.schemas, db', t, i) == KeyAt(c.schemas, db, t, i);
    }
  }

  // The object's own columns, as cells.
  lemma OwnCell(c: Context, base: Db, db: Db, t: string, row: nat, value: Input, i: nat, policy: CreatePolicy)
    requires Normal(c, db) && Holds(c.schemas, base, db, t, row, value) && i < |c.schemas[t].props|
    requires c.schemas[t].props[i].name in value.fields && !c.schemas[t].IsPrimary(i)
    ensures var x := Pos(t, row, i);
            && Identity(c.schemas[t], value).Ok?
            && FootAt(c.schemas, db, x) == Foot(t, Identity(c.schemas[t], value).value, i)
            && Reads(c, base, db, x, OwnClaims(c.schemas[t], t, value), policy)
  {
    assert RowFits(db, c.schemas[t], db[t][row]);
    OwnFoot(c.schemas[t], t, value, i);
  }

  lemma {:induction false} HoldsKept(c: Context, base: Db, base': Db, db: Db, db': Db, t: string, row: nat,
          value: Input, added: set<Claim>, policy: CreatePolicy)
    requires Keeps(c, base, db, db', Claims(c.schemas, t, value), added, policy) && Older(base', base)
    requires Holds(c.schemas, base, db, t, row, value)
    ensures Holds(c.schemas, base', db', t, row, value)
    decreases if db == db' then 0 else 1, value, 2, 0
  {
    hide WellFormed, HoldsFields;
    if KeyedSchema(c.schemas[t]) {
      RowForKept(c, db, db', t, value);
    }
    assert RowCount(db, t) <= RowCount(db', t);
    HoldsFieldsKept(c, base, base', db, db', t, row, value, 0, added, policy);
  }

  lemma {:induction false} HoldsFieldsKept(c: Context, base: Db, base': Db, db: Db, db': Db, t: string, row: nat,
          value: Input, i: nat, added: set<Claim>, policy: CreatePolicy)
    requires Holds(c.schemas, base, db, t, row, value) && Older(base', base)
    requires Keeps(c, base, db, db',
                   OwnClaims(c.schemas[t], t, value) + NestedClaims(c.schemas, c.schemas[t], value, i), added, policy)
    requires HoldsFields(c.schemas, base, db, t, c.schemas[t], row, value, i)
    ensures HoldsFields(c.schemas, base', db', t, c.schemas[t], row, value, i)
    decreases if db == db' then 0 else 1, value, 1, |c.schemas[t].props| - i
  {
    assert t in c.schemas && value.Dict?;
    hide Holds, HoldsInput, WellFormed, ValidSchemas, RowsKept, Get, Keeps, Compatible;
    var os := c.schemas[t];
    var own := OwnClaims(os, t, value);
    var claims := own + NestedClaims(c.schemas, os, value, i);
    if i < |os.props| {
      KeepsFewer(c, base, db, db', claims, added, policy, own + NestedClaims(c.schemas, os, value, i + 1));
      HoldsFieldsKept(c, base, base', db, db', t, row, value, i + 1, added, policy);
      if os.props[i].name in value.fields && !os.IsPrimary(i) {
        KeepsFewer(c, base, db, db', claims, added, policy, own + FieldClaims(c.schemas, os, value, i));
        FieldKept(c, base, base', db, db', t, row, value, i, added, policy);
      } else if os.props[i].name in value.fields {
        KeyFieldKept(c, base, base', db, db', t, row, value, i);
      }
    }
  }

  lemma KeyFieldKept(c: Context, base: Db, base': Db, db: Db, db': Db, t: string, row: nat, value: Input, i: nat)
    requires Normal(c, db) && RowsKept(c.schemas, db, db', true) && t in c.schemas && row < RowCount(db, t)
    requires value.Dict? && i < |c.schemas[t].props| && c.schemas[t].IsPrimary(i)
    requires HoldsField(c.schemas, base, db, t, c.schemas[t], row, value, i)
    ensures HoldsField(c.schemas, base', db', t, c.schemas[t], row, value, i)
  {
    assert ValidObjectSchema(c.schemas, c.schemas[t]);
    assert KeyAt(c.schemas, db', t, row) == KeyAt(c.schemas, db, t, row);
    if c.schemas[t].props[i].name in value.fields {
      var v := value.fields[c.schemas[t].props[i].name];
      ScalarKept(c.schemas, base, base', db, db', Pos(t, row, i), c.schemas[t].props[i].ptype, v);
    }
  }

  // What a scalar stands for depends on the cell alone.
  lemma ScalarKept(schemas: Schemas, base: Db, base': Db, db: Db, db': Db, x: Pos, pt: PropertyType, v: Input)
    requires pt.Single? && pt.elem.ScalarElement? && Get(db', x) == Get(db, x)
    requires HoldsInput(schemas, base, db, x, pt, v)
    ensures HoldsInput(schemas, base', db', x, pt, v)
  {
  }

  // One column of a described object: it was left alone, or claimed again with the same input.
  lemma {:induction false} FieldKept(c: Context, base: Db, base': Db, db: Db, db': Db, t: string, row: nat,
          value: Input, i: nat, added: set<Claim>, policy: CreatePolicy)
    requires Holds(c.schemas, base, db, t, row, value) && Older(base', base) && i < |c.schemas[t].props|
    requires c.schemas[t].props[i].name in value.fields && !c.schemas[t].IsPrimary(i)
    requires Keeps(c, base, db, db', OwnClaims(c.schemas[t], t, value) + FieldClaims(c.schemas, c.schemas[t], value, i),
                   added, policy)
    requires HoldsField(c.schemas, base, db, t, c.schemas[t], row, value, i)
    ensures HoldsField(c.schemas, base', db', t, c.schemas[t], row, value, i)
    decreases if db == db' then 0 else 1, value, 0, 0
  {
    assert t in c.schemas && value.Dict?;
    hide Holds, HoldsInput, WellFormed, ValidSchemas;
    var os := c.schemas[t];
    var x := Pos(t, row, i);
    var v := value.fields[os.props[i].name];
    var own := OwnClaims(os, t, value);
    var claims := own + FieldClaims(c.schemas, os, value, i);
    OwnCell(c, base, db, t, row, value, i, policy);
    OwnFoot(os, t, value, i);
    assert Reads(c, base, db, x, claims, policy);
    if Get(db', x) == Get(db, x) {
      KeepsFewer(c, base, db, db', claims, added, policy, InputClaims(c.schemas, os.props[i].ptype.elem, v));
      HoldsInputKept(c, base, base', db, db', x, os.props[i].ptype, v, added, policy);
    } else {
      var v' :| Claimed(c, db, db', x, added, policy, v');
      assert Claim(FootAt(c.schemas, db, x), v) in claims && v' == v;
      RebasedInput(c, Base(policy, db), base', db', x, os.props[i].ptype, v, policy);
    }
  }

  lemma {:induction false} RebasedInput(c: Context, base: Db, base': Db, db: Db, x: Pos, pt: PropertyType, v: Input,
          policy: CreatePolicy)
    requires Normal(c, db) && Older(base', base) && Older(base, Base(policy, db))
    requires HoldsInput(c.schemas, base, db, x, pt, v)
    ensures HoldsInput(c.schemas, base', db, x, pt, v)
    decreases 0, v, 5, 0
  {
    KeepsSame(c, base, db, InputClaims(c.schemas, pt.elem, v), policy);
    HoldsInputKept(c, base, base', db, db, x, pt, v, {}, policy);
  }

  lemma {:induction false} HoldsInputKept(c: Context, base: Db, base': Db, db: Db, db': Db, x: Pos, pt: PropertyType,
          v: Input, added: set<Claim>, policy: CreatePolicy)
    requires Keeps(c, base, db, db', InputClaims(c.schemas, pt.elem, v), added, policy) && Older(base', base)
    requires Get(db', x) == Get(db, x) && HoldsInput(c.schemas, base, db, x, pt, v)
    ensures HoldsInput(c.schemas, base', db', x, pt, v)
    decreases if db == db' then 0 else 1, v, 4, 0
  {
    hide WellFormed, ValidSchemas, RowsKept, Get, Keeps;
    if pt.Nullable() && v.NullInput? {
    } else if pt.Array? {
      if v.Vector? {
        KeepsFewer(c, base, db, db', InputClaims(c.schemas, pt.elem, v), added, policy,
                   TailClaims(c.schemas, pt.elem, v, 0));
        DenotesAllKept(c, base, base', db, db', pt.elem, v, Get(db, x).items, 0, added, policy);
      }
    } else {
      DenotesKept(c, base, base', db, db', pt.elem, v, Get(db, x), added, policy);
    }
  }

  lemma {:induction false} DenotesKept(c: Context, base: Db, base': Db, db: Db, db': Db, et: ElementType, v: Input,
          cell: Cell, added: set<Claim>, policy: CreatePolicy)
    requires Keeps(c, base, db, db', InputClaims(c.schemas, et, v), added, policy) && Older(base', base)
    requires Denotes(c.schemas, base, db, et, v, cell)
    ensures Denotes(c.schemas, base', db', et, v, cell)
    decreases if db == db' then 0 else 1, v, 3, 0
  {
    hide WellFormed;
    if et.ObjectElement? && v.Dict? {
      HoldsKept(c, base, base', db, db', et.target, cell.row, v, added, policy);
    } else if et.ObjectElement? {
      assert RowCount(db, et.target) <= RowCount(db', et.target);
    }
  }

  lemma {:induction false} DenotesAllKept(c: Context, base: Db, base': Db, db: Db, db': Db, et: ElementType, v: Input,
          items: seq<Cell>, i: nat, added: set<Claim>, policy: CreatePolicy)
    requires v.Vector? && |items| == |v.elements| && Older(base', base)
    requires Keeps(c, base, db, db', TailClaims(c.schemas, et, v, i), added, policy)
    requires DenotesAll(c.schemas, base, db, et, v, items, i)
    ensures DenotesAll(c.schemas, base', db', et, v, items, i)
    decreases if db == db' then 0 else 1, v, 0, |v.elements| - i
  {
    hide WellFormed, ValidSchemas, RowsKept, Keeps, Denotes;
    if i < |items| {
      var claims := TailClaims(c.schemas, et, v, i);
      KeepsFewer(c, base, db, db', claims, added, policy, InputClaims(c.schemas, et, v.elements[i]));
      KeepsFewer(c, base, db, db', claims, added, policy, TailClaims(c.schemas, et, v, i + 1));
      DenotesKept(c, base, base', db, db', et, v.elements[i], items[i], added, policy);
      DenotesAllKept(c, base, base', db, db', et, v, items, i + 1, added, policy);
    }
  }
}

/**
 The public setter of one property: which column a name means, when the setter refuses, and what
 it leaves behind.
 */
module Setters {
  import opened Schema
  import opened Store
  import opened Safety
  import opened Accessor
  import opened Runs
  import opened Footprint
  import opened Upsert
  import opened Frame
  import opened Meaning
  import opened Fulfilment
  import opened Admission

  // `k` is the persisted property called `name`.
  predicate Called(os: ObjectSchema, name: string, k: nat) {
    k < |os.props| && os.props[k].name == name
  }

  /** A name means the one property that is called so, which can be written unless it is the primary
      key outside a migration. Any other name is refused, as read-only if it is a computed property. */
  lemma NameMeans(c: Context, t: string, name: string)
    requires ValidSchemas(c.schemas) && t in c.schemas
    ensures var os := c.schemas[t];
            && (forall k: nat | Called(os, name, k) ::
                  WritableProperty(c, os, name) ==
                    if os.primary == Some(k) && !c.inMigration then Err(ModifyPrimaryKey) else Ok(k))
            && ((forall k: nat :: !Called(os, name, k)) ==>
                  WritableProperty(c, os, name)
                  == Err(if name in os.computed then ReadOnlyProperty else InvalidProperty))
  {
    var os := c.schemas[t];
    assert ValidObjectSchema(c.schemas, os);
    var i := PropertyNamed(os, name, 0);
    assert i.Some? ==> Called(os, name, i.value);
  }

  /** The refusals of the setter, in order and before anything is written: a row that is not there,
      a name that is no persisted property, and the primary key outside a migration. */
  lemma SetterRefuses(c: Context, db: Db, t: string, row: nat, name: string, v: Input, policy: CreatePolicy)
    requires ValidSchemas(c.schemas)
    ensures var s := SetPropertyValue(c, db, t, row, name, v, policy);
            if t !in c.schemas || row >= RowCount(db, t) then s == Fail(db, InvalidatedObject)
            else
              var os := c.schemas[t];
              && ((forall k: nat :: !Called(os, name, k)) ==>
                    s == Fail(db, if name in os.computed then ReadOnlyProperty else InvalidProperty))
              && ((exists k: nat :: Called(os, name, k) && os.primary == Some(k)) && !c.inMigration ==>
                    s == Fail(db, ModifyPrimaryKey))
  {
    if t in c.schemas {
      NameMeans(c, t, name);
    }
  }

  /** After a success the property that is called so, in the given row, is what the value stands for.
      Whatever the outcome, every other cell that the value does not name is as it was. */
  lemma SetterSets(c: Context, db: Db, t: string, row: nat, name: string, k: nat, v: Input, policy: CreatePolicy)
    requires Normal(c, db) && t in c.schemas && row < RowCount(db, t) && !policy.Skip?
    requires Called(c.schemas[t], name, k) && c.schemas[t].primary != Some(k)
    requires var et := c.schemas[t].props[k].ptype.elem;
             && ConsistentInput(c.schemas, et, v, policy)
             && Outside(c, db, Pos(t, row, k), InputFeet(c.schemas, et, v), policy)
    ensures var s := SetPropertyValue(c, db, t, row, name, v, policy);
            var pt := c.schemas[t].props[k].ptype;
            && (s.res.Ok? ==> HoldsInput(c.schemas, Base(policy, db), s.db, Pos(t, row, k), pt, v))
            && (forall x | Has(db, x) && x != Pos(t, row, k)
                           && Outside(c, db, x, InputFeet(c.schemas, pt.elem, v), policy) ::
                  Get(s.db, x) == Get(db, x))
  {
    hide SetProperty, HoldsInput;
    var pt := c.schemas[t].props[k].ptype;
    var y := Pos(t, row, k);
    var s := SetPropertyValue(c, db, t, row, name, v, policy);
    SetterTarget(c, db, t, row, name, k);
    SetPropertyHolds(c, db, y, pt, v, policy, false);
    SetPropertyRuns(c, db, y, pt, v, policy, false);
    forall x | Has(db, x) && x != y && Outside(c, db, x, InputFeet(c.schemas, pt.elem, v), policy)
      ensures Get(s.db, x) == Get(db, x)
    {
      SetPropertySpares(c, db, x, y, pt, v, policy);
    }
  }

  lemma SetterTarget(c: Context, db: Db, t: string, row: nat, name: string, k: nat)
    requires Normal(c, db) && t in c.schemas && row < RowCount(db, t)
    requires Called(c.schemas[t], name, k) && c.schemas[t].primary != Some(k)
    ensures WritableProperty(c, c.schemas[t], name) == Ok(k)
    ensures Target(c, db, Pos(t, row, k), c.schemas[t].props[k].ptype)
  {
    NameMeans(c, t, name);
    assert RowFits(db, c.schemas[t], db[t][row]);
  }

  lemma SetPropertySpares(c: Context, db: Db, x: Pos, y: Pos, pt: PropertyType, v: Input, policy: CreatePolicy)
    requires Normal(c, db) && Has(db, x) && x != y && Target(c, db, y, pt)
    requires Outside(c, db, x, InputFeet(c.schemas, pt.elem, v), policy)
    ensures Get(SetProperty(c, db, y, pt, v, policy, false).db, x) == Get(db, x)
  {
    hide SetProperty;
    var s := SetProperty(c, db, y, pt, v, policy, false);
    SetPropertyRuns(c, db, y, pt, v, policy, false);
    RunReady(c, db, s);
    if c.schemas[x.table].IsPrimary(x.col) {
      assert KeyAt(c.schemas, s.db, x.table, x.row) == KeyAt(c.schemas, db, x.table, x.row);
    } else {
      OpenLoose(c, db, x);
      SetSame(db, x);
      SetPropertyFrame(c, db, x, Get(db, x), y, pt, v, policy, false);
      LooseKept(c, db, s, x, Get(db, x));
      GetSet(s.db, x, Get(db, x), x);
    }
  }

  /** When the setter succeeds: exactly if the value is admitted, for any value under ForceCreate and
      UpdateAll and for untangled ones under UpdateModified. */
  lemma SetterSucceeds(c: Context, db: Db, t: string, row: nat, name: string, k: nat, v: Input, policy: CreatePolicy)
    requires Normal(c, db) && t in c.schemas && row < RowCount(db, t) && !policy.Skip?
    requires Called(c.schemas[t], name, k) && c.schemas[t].primary != Some(k)
    requires var et := c.schemas[t].props[k].ptype.elem;
             policy.UpdateModified? ==>
               UntangledInput(c.schemas, et, v) && Outside(c, db, Pos(t, row, k), InputFeet(c.schemas, et, v), policy)
    ensures var pt := c.schemas[t].props[k].ptype;
            var s := SetPropertyValue(c, db, t, row, name, v, policy);
            Accessors(c, db, s.db, v) ==>
              (s.res.Ok? <==> AdmitsInput(c.schemas, db, {}, pt, v, Some(Pos(t, row, k)), policy.ForceCreate?))
  {
    hide SetProperty, AdmitsInput;
    SetterTarget(c, db, t, row, name, k);
    var pt := c.schemas[t].props[k].ptype;
    if policy.UpdateModified? {
      SetPropertyModifiedSucceeds(c, db, Pos(t, row, k), pt, v);
    } else {
      SetPropertySucceeds(c, db, Pos(t, row, k), pt, v, policy);
    }
  }

  /** A scalar property of any row, also a primary key in a migration, is set exactly if the value is
      of its type, and then nothing else is changed. */
  lemma SetterScalar(c: Context, db: Db, t: string, row: nat, name: string, k: nat, v: Input, policy: CreatePolicy)
    requires Ready(c, db) && t in c.schemas && row < RowCount(db, t) && Called(c.schemas[t], name, k)
    requires c.schemas[t].primary == Some(k) ==> c.inMigration
    requires c.schemas[t].props[k].ptype.Single? && c.schemas[t].props[k].ptype.elem.ScalarElement?
    ensures var pt := c.schemas[t].props[k].ptype;
            var s := SetPropertyValue(c, db, t, row, name, v, policy);
            match v
            case NullInput =>
              if pt.optional then s.res == Ok(()) && s.db == Set(db, Pos(t, row, k), Null) else s == Fail(db, BadCast)
            case ScalarInput(a) =>
              if TypeOf(a) == pt.elem.ty then s.res == Ok(()) && s.db == Set(db, Pos(t, row, k), Value(a))
              else s == Fail(db, BadCast)
            case _ => s == Fail(db, BadCast)
  {
    NameMeans(c, t, name);
    var x, pt := Pos(t, row, k), c.schemas[t].props[k].ptype;
    SetSame(db, x);
    assert Unbox(c, db, pt.elem, v, policy, LinkedRow(Get(db, x))) == Step(db, [], UnboxScalar(pt.elem.ty, v));
    assert SetPropertyValue(c, db, t, row, name, v, policy) == SetProperty(c, db, x, pt, v, policy, false);
  }

  /** Unless the policy is UpdateModified the property is always written, last of all for a single
      value and first of all, by clearing it, for a list; a list given as null is always cleared. */
  lemma AlwaysWrites(c: Context, db: Db, x: Pos, pt: PropertyType, v: Input, policy: CreatePolicy)
    requires Normal(c, db) && Target(c, db, x, pt) && v != ListInput(x)
    ensures var s := SetProperty(c, db, x, pt, v, policy, false);
            && (pt.Single? && !policy.UpdateModified? && s.res.Ok? ==>
                  s.log != [] && s.log[|s.log| - 1] == SetCell(x, Get(s.db, x)))
            && (pt.Array? && (!policy.UpdateModified? || v.NullInput?) ==> s.log != [] && s.log[0] == ClearItems(x))
  {
    hide Create;
    if pt.Single? && !(pt.Nullable() && v.NullInput?) {
      var current := LinkedRow(Get(db, x));
      var u := Unbox(c, db, pt.elem, v, policy, current);
      CurrentFromCell(c, db, x, pt);
      UnboxRuns(c, db, pt.elem, v, policy, current);
      TargetKept(c, db, u, x, pt);
      if u.res.Ok? { GetSet(u.db, x, u.res.value, x); }
    } else if pt.Single? {
      GetSet(db, x, Null, x);
    }
  }
}

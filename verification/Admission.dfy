/**
 When a create, a list assignment or setting a property succeeds: a condition on the input and
 the store that can be checked before anything is written.
 */
module Admission {
  import opened Schema
  import opened Store
  import opened Safety
  import opened Accessor
  import opened Runs
  import opened Footprint
  import opened Upsert
  import opened Agreement
  import opened Meaning
  import opened Fulfilment
  import opened Objects

  // ---- The condition ----

  datatype Obj = Obj(table: string, key: Cell)

  // The objects that have been described so far.
  function Told(claims: set<Claim>): set<Obj> {
    set k <- claims :: Obj(k.foot.table, k.foot.key)
  }

  // The object exists already, or is described earlier in the same input.
  predicate Known(schemas: Schemas, db: Db, told: set<Obj>, t: string, key: Cell) {
    HasKey(schemas, db, t, key) || Obj(t, key) in told
  }

  // Whether the description is of an object that still has to be added.
  predicate IsNew(schemas: Schemas, db: Db, told: set<Obj>, t: string, value: Input) {
    t in schemas && KeyedSchema(schemas[t]) && KeyFor(schemas[t], value).Ok? ==>
      !Known(schemas, db, told, t, KeyFor(schemas[t], value).value)
  }

  // An object description has a possible key, which is not taken under ForceCreate, and each of
  // its properties is in order.
  predicate Admits(schemas: Schemas, db: Db, told: set<Obj>, t: string, value: Input, force: bool)
    decreases Weight(value), value, 2, 0
  {
    && t in schemas && value.Dict? && Identity(schemas[t], value).Ok?
    && (force ==> IsNew(schemas, db, told, t, value))
    && AdmitsFields(schemas, db, told + {Obj(t, Identity(schemas[t], value).value)}, t, value,
                    IsNew(schemas, db, told, t, value), force, 0)
  }

  predicate AdmitsFields(schemas: Schemas, db: Db, told: set<Obj>, t: string, value: Input, isNew: bool,
          force: bool, i: nat)
    requires t in schemas && value.Dict?
    decreases Weight(value), value, 1, |schemas[t].props| + 1 - i
  {
    i < |schemas[t].props| ==>
      && AdmitsField(schemas, db, told, t, value, isNew, force, i)
      && AdmitsFields(schemas, db, told + Told(FieldClaims(schemas, schemas[t], value, i)), t, value, isNew, force,
                      i + 1)
  }

  // A property that is given has a fitting value. One that is left out of a new object has a
  // fitting default, or needs none.
  predicate AdmitsField(schemas: Schemas, db: Db, told: set<Obj>, t: string, value: Input, isNew: bool,
          force: bool, i: nat)
    requires t in schemas && value.Dict? && i < |schemas[t].props|
    decreases Weight(value), value, 1, 0
  {
    var prop := schemas[t].props[i];
    var at := CellFor(schemas, db, t, value, i);
    || schemas[t].IsPrimary(i)
    || (if prop.name in value.fields then
          AdmitsInput(schemas, db, told, prop.ptype, value.fields[prop.name], at, force)
        else if !isNew then true
        else if prop.default.Some? then AdmitsInput(schemas, db, told, prop.ptype, prop.default.value, at, force)
        else prop.ptype.Nullable() || prop.ptype.Array? || value.allowMissing)
  }

  // The cell of the described object, if it is there already.
  function CellFor(schemas: Schemas, db: Db, t: string, value: Input, i: nat): Option<Pos> {
    var row := RowFor(schemas, db, t, value);
    if row.Some? then Some(Pos(t, row.value, i)) else None
  }

  // `at` is the cell that the value is for, if it is there already.
  predicate AdmitsInput(schemas: Schemas, db: Db, told: set<Obj>, pt: PropertyType, v: Input, at: Option<Pos>,
          force: bool)
    decreases Weight(v), v, 5, 0
  {
    if pt.Single? then (pt.Nullable() && v.NullInput?) || AdmitsElement(schemas, db, told, pt.elem, v, force)
    else
      || v.NullInput? || (at.Some? && v == ListInput(at.value))
      || (v.Vector? && AdmitsElements(schemas, db, told, pt.elem, v, force, 0))
  }

  // A scalar of the right type, an existing row of the right type, or a description in order.
  predicate AdmitsElement(schemas: Schemas, db: Db, told: set<Obj>, et: ElementType, v: Input, force: bool)
    decreases Weight(v), v, 3, 0
  {
    match et
    case ScalarElement(ty) => v.ScalarInput? && TypeOf(v.scalar) == ty
    case ObjectElement(target) =>
      if v.RowInput? then v.table == target && v.row < RowCount(db, target)
      else Admits(schemas, db, told, target, v, force)
  }

  predicate AdmitsElements(schemas: Schemas, db: Db, told: set<Obj>, et: ElementType, v: Input, force: bool,
          i: nat)
    requires v.Vector?
    decreases Weight(v), v, 0, |v.elements| - i
  {
    i < |v.elements| ==>
      && AdmitsElement(schemas, db, told, et, v.elements[i], force)
      && AdmitsElements(schemas, db, told + Told(InputClaims(schemas, et, v.elements[i])), et, v, force, i + 1)
  }

  // ---- Accessors in the input ----

  // A managed row or list belongs to an object that is in `db`, or to none that is added before
  // `last`: an accessor is made for an object that exists.
  predicate Timely(db: Db, last: Db, v: Input) {
    match v
    case RowInput(t, row) => row < RowCount(db, t) || row >= RowCount(last, t)
    case ListInput(at) => at.row < RowCount(db, at.table) || at.row >= RowCount(last, at.table)
    case Vector(elements) => forall e <- elements :: Timely(db, last, e)
    case Dict(fields, _) => forall name <- fields :: Timely(db, last, fields[name])
    case _ => true
  }

  predicate TimelyDefaults(schemas: Schemas, db: Db, last: Db) {
    forall t <- schemas, i | 0 <= i < |schemas[t].props| && schemas[t].props[i].default.Some? ::
      Timely(db, last, schemas[t].props[i].default.value)
  }

  // ---- Stores on the way ----

  // `db` has been reached from `start` by an operation that has described `told` so far.
  ghost predicate Reached(c: Context, start: Db, db: Db, told: set<Obj>) {
    && Normal(c, start) && Normal(c, db) && RowsKept(c.schemas, start, db, true)
    && forall t, key | t in c.schemas && c.schemas[t].primary.Some? ::
         HasKey(c.schemas, db, t, key) <==> Known(c.schemas, start, told, t, key)
  }

  lemma ReachedStart(c: Context, db: Db)
    requires Normal(c, db)
    ensures Reached(c, db, db, {})
  {
  }

  lemma ReachedMore<A>(c: Context, start: Db, db: Db, told: set<Obj>, s: Step<A>, claims: set<Claim>)
    requires Reached(c, start, db, told) && Run(c, db, s) && s.res.Ok? && Upserts(c, s, Named(claims))
    ensures Reached(c, start, s.db, told + Told(claims))
  {
    RunReady(c, db, s);
    RowsKeptTransitive(c.schemas, start, db, s.db);
    forall t, key | t in c.schemas && c.schemas[t].primary.Some?
      ensures HasKey(c.schemas, s.db, t, key) <==> Known(c.schemas, start, told + Told(claims), t, key)
    {
      KeysAfter(c, db, s, claims, t, key);
      assert HasKey(c.schemas, db, t, key) <==> Known(c.schemas, start, told, t, key);
    }
  }

  lemma KeysAfter<A>(c: Context, db: Db, s: Step<A>, claims: set<Claim>, t: string, key: Cell)
    requires Normal(c, db) && Run(c, db, s) && s.res.Ok? && Upserts(c, s, Named(claims))
    requires t in c.schemas && c.schemas[t].primary.Some?
    ensures HasKey(c.schemas, s.db, t, key) <==> HasKey(c.schemas, db, t, key) || Obj(t, key) in Told(claims)
  {
    RunReady(c, db, s);
    ReplayKeys(c, db, s.log, Named(claims), t);
    hide WellFormed, LegalLog, Replay;
    if HasKey(c.schemas, s.db, t, key) {
      assert key in KeySet(c.schemas, s.db, t);
      if key in Described(Named(claims), t) {
        var f :| f in Named(claims) && f.table == t && f.key == key;
        var k :| k in claims && k.foot == f;
        assert Obj(k.foot.table, k.foot.key) in Told(claims);
      }
    }
    if HasKey(c.schemas, db, t, key) {
      var r: nat :| r < RowCount(db, t) && KeyAt(c.schemas, db, t, r) == key;
      assert RowCount(db, t) <= RowCount(s.db, t);
      assert KeyAt(c.schemas, s.db, t, r) == key;
    }
    if Obj(t, key) in Told(claims) {
      var k :| k in claims && Obj(k.foot.table, k.foot.key) == Obj(t, key);
      assert k.foot in Named(claims);
    }
  }

  // ---- The condition decides ----

  predicate Overwrites(policy: CreatePolicy) {
    policy.ForceCreate? || policy.UpdateAll?
  }

  // What is needed for the condition to be necessary as well.
  ghost predicate Exact(c: Context, start: Db, last: Db, policy: CreatePolicy, v: Input) {
    Overwrites(policy) && Timely(start, last, v) && TimelyDefaults(c.schemas, start, last)
  }

  // The condition is sufficient for the step to succeed, and if `exact` it is necessary.
  ghost predicate Decides<A>(ok: bool, s: Step<A>, exact: bool, last: Db) {
    (ok ==> s.res.Ok?) && (exact && Older(s.db, last) && s.res.Ok? ==> ok)
  }

  // How the slot that is populated relates to what was known of the object.
  ghost predicate SlotKnown(c: Context, start: Db, t: string, slot: Slot, value: Input, isNew: bool, exact: bool) {
    && (slot.created ==> isNew) && (exact && isNew ==> slot.created)
    && (match RowFor(c.schemas, start, t, value)
        case Some(row) => slot.row == row
        case None => exact ==> slot.row >= RowCount(start, t))
  }

  lemma {:induction false} CreateAdmitted(c: Context, start: Db, last: Db, db: Db, told: set<Obj>, t: string,
          value: Input, policy: CreatePolicy, current: Option<nat>, exact: bool)
    requires Reached(c, start, db, told) && !policy.Skip? && (current.Some? ==> current.value < RowCount(db, t))
    requires policy.UpdateModified? ==> Consistent(c.schemas, t, value, policy)
    requires exact ==> Exact(c, start, last, policy, value)
    ensures Decides(Admits(c.schemas, start, told, t, value, policy.ForceCreate?),
                    Create(c, db, t, value, policy, current), exact, last)
    decreases Weight(value), value, 2, 0
  {
    hide WellFormed, ValidSchemas, RowsKept, LegalLog, Replay, AdmitsFields, Populate, GetOrAddRow, Reached, Timely;
    if !value.Dict? {
      assert Normal(c, db) by { ReachedNormal(c, start, db, told); }
      CreateOnlyFromDict(c, db, t, value, policy, current);
    } else if t in c.schemas {
      ReachedNormal(c, start, db, told);
      var slot := GetOrAddRow(c, db, t, c.schemas[t], value, policy, current);
      var isNew := IsNew(c.schemas, start, told, t, value);
      SlotAdmitted(c, start, db, told, t, value, policy, current, exact);
      if slot.res.Ok? {
        SlotRetains(c, db, t, value, policy, current);
        SlotReached(c, start, db, told, t, value, policy, current);
        PopulateAdmitted(c, start, last, slot.db, told + {Obj(t, Identity(c.schemas[t], value).value)}, t,
                         slot.res.value, value, policy, isNew, 0, exact);
      }
    }
  }

  lemma ReachedNormal(c: Context, start: Db, db: Db, told: set<Obj>)
    requires Reached(c, start, db, told)
    ensures Normal(c, start) && Normal(c, db) && RowsKept(c.schemas, start, db, true) && Older(start, db)
  {
  }

  lemma SlotAdmitted(c: Context, start: Db, db: Db, told: set<Obj>, t: string, value: Input, policy: CreatePolicy,
          current: Option<nat>, exact: bool)
    requires Reached(c, start, db, told) && !policy.Skip? && (current.Some? ==> current.value < RowCount(db, t))
    requires t in c.schemas && value.Dict? && (exact ==> Overwrites(policy))
    ensures var s := GetOrAddRow(c, db, t, c.schemas[t], value, policy, current);
            var isNew := IsNew(c.schemas, start, told, t, value);
            && (s.res.Ok? <==> Identity(c.schemas[t], value).Ok? && (policy.ForceCreate? ==> isNew))
            && (s.res.Ok? ==> SlotKnown(c, start, t, s.res.value, value, isNew, exact))
  {
    var os := c.schemas[t];
    assert ValidObjectSchema(c.schemas, os);
    assert RowCount(start, t) <= RowCount(db, t);
    if KeyedSchema(os) && KeyFor(os, value).Ok? {
      var key := KeyFor(os, value).value;
      FoundKey(c, db, t, key);
      FoundKey(c, start, t, key);
      assert HasKey(c.schemas, db, t, key) <==> Known(c.schemas, start, told, t, key);
      if RowFor(c.schemas, start, t, value).Some? {
        RowForKept(c, start, db, t, value);
      } else {
        assert forall r: nat | r < RowCount(start, t) :: KeyAt(c.schemas, db, t, r) == KeyAt(c.schemas, start, t, r);
      }
    }
  }

  lemma FoundKey(c: Context, db: Db, t: string, key: Cell)
    requires Normal(c, db) && t in c.schemas && c.schemas[t].primary.Some?
    ensures var found := FindFirst(db[t], c.schemas[t].primary.value, key);
            && (found.Some? <==> HasKey(c.schemas, db, t, key))
            && (found.Some? ==> found.value < RowCount(db, t) && KeyAt(c.schemas, db, t, found.value) == key)
  {
    var pk := c.schemas[t].primary.value;
    var found := FindFirst(db[t], pk, key);
    assert ValidObjectSchema(c.schemas, c.schemas[t]);
    forall r | 0 <= r < RowCount(db, t) ensures pk < |db[t][r]| {
      assert RowFits(db, c.schemas[t], db[t][r]);
    }
    assert found.Some? ==> KeyAt(c.schemas, db, t, found.value) == key;
  }

  lemma SlotReached(c: Context, start: Db, db: Db, told: set<Obj>, t: string, value: Input, policy: CreatePolicy,
          current: Option<nat>)
    requires Reached(c, start, db, told) && (current.Some? ==> current.value < RowCount(db, t))
    requires t in c.schemas && value.Dict? && Identity(c.schemas[t], value).Ok?
    requires GetOrAddRow(c, db, t, c.schemas[t], value, policy, current).res.Ok?
    ensures Reached(c, start, GetOrAddRow(c, db, t, c.schemas[t], value, policy, current).db,
                    told + {Obj(t, Identity(c.schemas[t], value).value)})
  {
    hide GetOrAddRow, WellFormed, LegalLog, Replay;
    var os := c.schemas[t];
    var own := OwnClaims(os, t, value);
    var all := told + {Obj(t, Identity(os, value).value)};
    var s := GetOrAddRow(c, db, t, os, value, policy, current);
    GetOrAddRowRuns(c, db, t, value, policy, current);
    SlotUpserts(c, db, t, value, policy, current);
    ReachedMore(c, start, db, told, s, own);
    if os.primary.Some? {
      assert ValidObjectSchema(c.schemas, os);
      OwnFoot(os, t, value, os.primary.value);
    }
    forall u, key | u in c.schemas && c.schemas[u].primary.Some?
      ensures HasKey(c.schemas, s.db, u, key) <==> Known(c.schemas, start, all, u, key)
    {
      assert HasKey(c.schemas, s.db, u, key) <==> Known(c.schemas, start, told + Told(own), u, key);
      OwnTold(os, t, value, u, key);
    }
  }

  lemma OwnTold(os: ObjectSchema, t: string, value: Input, u: string, key: Cell)
    requires value.Dict? && Identity(os, value).Ok?
    ensures Obj(u, key) in Told(OwnClaims(os, t, value)) ==> u == t && key == Identity(os, value).value
    ensures KeyedSchema(os) ==> Obj(t, Identity(os, value).value) in Told(OwnClaims(os, t, value))
  {
    if KeyedSchema(os) {
      OwnFoot(os, t, value, os.primary.value);
      var pk := os.primary.value;
      var k := Claim(Foot(t, Identity(os, value).value, pk), Given(value, os.props[pk].name));
      assert k in OwnClaims(os, t, value) && Obj(k.foot.table, k.foot.key) == Obj(t, Identity(os, value).value);
    }
  }

  lemma {:induction false} PopulateAdmitted(c: Context, start: Db, last: Db, db: Db, told: set<Obj>, t: string,
          slot: Slot, value: Input, policy: CreatePolicy, isNew: bool, i: nat, exact: bool)
    requires Reached(c, start, db, told) && SlotOf(c, db, t, slot, value) && value.Dict? && !policy.Skip?
    requires SlotKnown(c, start, t, slot, value, isNew, exact)
    requires policy.UpdateModified? ==> ConsistentFields(c.schemas, t, c.schemas[t], value, i, policy)
    requires exact ==> Exact(c, start, last, policy, value)
    ensures Decides(AdmitsFields(c.schemas, start, told, t, value, isNew, policy.ForceCreate?, i),
                    Populate(c, db, t, c.schemas[t], slot, value, policy, i), exact, last)
    decreases Weight(value), value, 1, |c.schemas[t].props| + 1 - i
  {
    hide Create, SetProperty, WellFormed, ValidSchemas, RowsKept, LegalLog, Replay, Reached, SlotKnown, Exact,
        AdmitsField;
    var os := c.schemas[t];
    if i < |os.props| {
      var s := PopulateOne(c, db, t, os, slot, value, policy, i);
      ReachedNormal(c, start, db, told);
      PopulateOneRuns(c, db, t, slot, value, policy, i);
      PopulateOneAdmitted(c, start, last, db, told, t, slot, value, policy, isNew, i, exact);
      if s.res.Ok? {
        RunReady(c, db, s);
        SlotOfKept(c, db, s, t, slot, value);
        PopulateOneUpserts(c, db, t, slot, value, policy, i);
        ReachedMore(c, start, db, told, s, FieldClaims(c.schemas, os, value, i));
        PopulateAdmitted(c, start, last, s.db, told + Told(FieldClaims(c.schemas, os, value, i)), t, slot, value,
                         policy, isNew, i + 1, exact);
        PopulateRuns(c, s.db, t, slot, value, policy, i + 1);
        OlderRun(c, s.db, Populate(c, s.db, t, os, slot, value, policy, i + 1), last);
      }
    }
  }

  lemma OlderRun<A>(c: Context, db: Db, s: Step<A>, last: Db)
    requires Ready(c, db) && Run(c, db, s)
    ensures Older(s.db, last) ==> Older(db, last)
  {
    RunReady(c, db, s);
  }

  lemma {:induction false} PopulateOneAdmitted(c: Context, start: Db, last: Db, db: Db, told: set<Obj>, t: string,
          slot: Slot, value: Input, policy: CreatePolicy, isNew: bool, i: nat, exact: bool)
    requires Reached(c, start, db, told) && SlotOf(c, db, t, slot, value) && value.Dict? && !policy.Skip?
    requires SlotKnown(c, start, t, slot, value, isNew, exact) && i < |c.schemas[t].props|
    requires policy.UpdateModified? ==> ConsistentField(c.schemas, t, c.schemas[t], value, i, policy)
    requires exact ==> Exact(c, start, last, policy, value)
    ensures Decides(AdmitsField(c.schemas, start, told, t, value, isNew, policy.ForceCreate?, i),
                    PopulateOne(c, db, t, c.schemas[t], slot, value, policy, i), exact, last)
    decreases Weight(value), value, 1, 0
  {
    hide Create, SetProperty, WellFormed, RowsKept, LegalLog, Replay, Reached, AdmitsField, AdmitsInput, Exact,
        ValidSchemas;
    var os := c.schemas[t];
    var y := Pos(t, slot.row, i);
    ReachedNormal(c, start, db, told);
    ChoiceAdmits(c, start, told, t, slot, value, policy.ForceCreate?, isNew, i, exact);
    match Choose(os, value, slot, i)
    case Put(v, isDefault) =>
      SlotTarget(c, db, t, slot, value, i);
      if os.props[i].name !in value.fields {
        LeafConsistent(c.schemas, os.props[i].ptype.elem, v, policy);
        LeafFeet(c.schemas, os.props[i].ptype.elem, v);
      }
      if exact { FieldExact(c, start, last, policy, t, value, slot, i); }
      SetPropertyAdmitted(c, start, last, db, told, y, os.props[i].ptype, v, policy, isDefault,
                          CellFor(c.schemas, start, t, value, i), exact);
    case _ =>
  }

  // What the loop does with a property, and whether that is admitted.
  lemma ChoiceAdmits(c: Context, start: Db, told: set<Obj>, t: string, slot: Slot, value: Input, force: bool,
          isNew: bool, i: nat, exact: bool)
    requires t in c.schemas && i < |c.schemas[t].props| && value.Dict?
    requires (c.schemas[t].primary.Some? ==> slot.skipPrimary) && SlotKnown(c, start, t, slot, value, isNew, exact)
    ensures var pt := c.schemas[t].props[i].ptype;
            var ok := AdmitsField(c.schemas, start, told, t, value, isNew, force, i);
            match Choose(c.schemas[t], value, slot, i)
            case Ignore => exact ==> ok
            case Refuse(_) => !ok
            case Put(v, _) =>
              ok <==> AdmitsInput(c.schemas, start, told, pt, v, CellFor(c.schemas, start, t, value, i), force)
  {
    hide AdmitsInput, RowFor;
    NullRefused(c, start, told, c.schemas[t].props[i].ptype, CellFor(c.schemas, start, t, value, i), force);
  }

  // Null is refused where the property is neither optional nor a list.
  lemma NullRefused(c: Context, start: Db, told: set<Obj>, pt: PropertyType, at: Option<Pos>, force: bool)
    ensures pt.Single? && !pt.Nullable() ==> !AdmitsInput(c.schemas, start, told, pt, NullInput, at, force)
  {
  }

  lemma FieldExact(c: Context, start: Db, last: Db, policy: CreatePolicy, t: string, value: Input, slot: Slot, i: nat)
    requires Exact(c, start, last, policy, value) && t in c.schemas && i < |c.schemas[t].props|
    requires Choose(c.schemas[t], value, slot, i).Put?
    ensures Exact(c, start, last, policy, Choose(c.schemas[t], value, slot, i).v)
  {
  }

  lemma {:induction false} SetPropertyAdmitted(c: Context, start: Db, last: Db, db: Db, told: set<Obj>, y: Pos,
          pt: PropertyType, v: Input, policy: CreatePolicy, isDefault: bool, at: Option<Pos>, exact: bool)
    requires Reached(c, start, db, told) && Target(c, db, y, pt) && !policy.Skip?
    requires policy.UpdateModified? ==>
               && Apart(c, db, y, pt, InputFeet(c.schemas, pt.elem, v), policy)
               && ConsistentInput(c.schemas, pt.elem, v, policy)
    requires if at.Some? then at.value == y else exact ==> y.row >= RowCount(start, y.table)
    requires exact ==> Exact(c, start, last, policy, v)
    ensures Decides(AdmitsInput(c.schemas, start, told, pt, v, at, policy.ForceCreate?),
                    SetProperty(c, db, y, pt, v, policy, isDefault), exact, last)
    decreases Weight(v), v, 5, 0
  {
    hide Create, WellFormed, ValidSchemas, RowsKept, LegalLog, Replay, Reached, AdmitsElement;
    ReachedNormal(c, start, db, told);
    if pt.Nullable() && v.NullInput? {
    } else if pt.Array? {
      AssignAdmitted(c, start, last, db, told, y, pt, v, policy, at, exact);
    } else {
      var current := LinkedRow(Get(db, y));
      CurrentFromCell(c, db, y, pt);
      UnboxAdmitted(c, start, last, db, told, pt.elem, v, policy, current, exact);
    }
  }

  lemma {:induction false} UnboxAdmitted(c: Context, start: Db, last: Db, db: Db, told: set<Obj>, et: ElementType,
          v: Input, policy: CreatePolicy, current: Option<nat>, exact: bool)
    requires Reached(c, start, db, told) && CurrentFits(db, et, current) && !policy.Skip?
    requires policy.UpdateModified? ==> ConsistentInput(c.schemas, et, v, policy)
    requires exact ==> Exact(c, start, last, policy, v)
    ensures Decides(AdmitsElement(c.schemas, start, told, et, v, policy.ForceCreate?),
                    Unbox(c, db, et, v, policy, current), exact, last)
    decreases Weight(v), v, 3, 0
  {
    hide Create, WellFormed, ValidSchemas, RowsKept, LegalLog, Replay, Reached, Admits;
    ReachedNormal(c, start, db, told);
    if et.ObjectElement? && !v.RowInput? {
      if v.Dict? {
        CreateAdmitted(c, start, last, db, told, et.target, v, policy, current, exact);
      } else {
        NotAdmitted(c, start, told, et.target, v, policy);
        CreateOnlyFromDict(c, db, et.target, v, policy, current);
      }
    }
  }

  lemma NotAdmitted(c: Context, start: Db, told: set<Obj>, t: string, v: Input, policy: CreatePolicy)
    requires !v.Dict?
    ensures !Admits(c.schemas, start, told, t, v, policy.ForceCreate?)
  {
  }

  // ---- Lists ----

  lemma {:induction false} AssignAdmitted(c: Context, start: Db, last: Db, db: Db, told: set<Obj>, y: Pos,
          pt: PropertyType, v: Input, policy: CreatePolicy, at: Option<Pos>, exact: bool)
    requires Reached(c, start, db, told) && Target(c, db, y, pt) && pt.Array? && !policy.Skip?
    requires policy.UpdateModified? ==>
               && Apart(c, db, y, pt, InputFeet(c.schemas, pt.elem, v), policy)
               && ConsistentInput(c.schemas, pt.elem, v, policy)
    requires if at.Some? then at.value == y else exact ==> y.row >= RowCount(start, y.table)
    requires exact ==> Exact(c, start, last, policy, v)
    ensures Decides(AdmitsInput(c.schemas, start, told, pt, v, at, policy.ForceCreate?),
                    Assign(c, db, y, pt.elem, v, policy), exact, last)
    decreases Weight(v), v, 4, 0
  {
    hide Create, WellFormed, ValidSchemas, RowsKept, LegalLog, Replay, Reached;
    ReachedNormal(c, start, db, told);
    if v == ListInput(y) {
      assert y.row < RowCount(db, y.table);
    } else if v.Vector? && policy.UpdateModified? {
      ApartLoose(c, db, y, pt);
      AssignFromAdmitted(c, start, db, told, y, pt, v, 0, |ItemsAt(db, y)|);
    } else if v.Vector? {
      var cleared := Emit(db, ClearItems(y), ());
      RunEmit(c, db, ClearItems(y), ());
      RunReady(c, db, cleared);
      TargetKept(c, db, cleared, y, pt);
      ReachedMore(c, start, db, told, cleared, {});
      assert told + Told({}) == told;
      AddFromAdmitted(c, start, last, cleared.db, told, y, pt, v, policy, 0, exact);
    }
  }

  lemma {:induction false} AddFromAdmitted(c: Context, start: Db, last: Db, db: Db, told: set<Obj>, y: Pos,
          pt: PropertyType, v: Input, policy: CreatePolicy, i: nat, exact: bool)
    requires Reached(c, start, db, told) && Target(c, db, y, pt) && pt.Array? && v.Vector? && Overwrites(policy)
    requires exact ==> Exact(c, start, last, policy, v)
    ensures Decides(AdmitsElements(c.schemas, start, told, pt.elem, v, policy.ForceCreate?, i),
                    AddFrom(c, db, y, pt.elem, v, i, policy), exact, last)
    decreases Weight(v), v, 0, |v.elements| - i
  {
    hide Create, WellFormed, ValidSchemas, RowsKept, LegalLog, Replay, Reached, AdmitsElement, Unbox;
    if i < |v.elements| {
      var e := v.elements[i];
      var s := AddOne(c, db, y, pt.elem, e, policy);
      ReachedNormal(c, start, db, told);
      AddOneRuns(c, db, y, pt, e, policy);
      UnboxAdmitted(c, start, last, db, told, pt.elem, e, policy, None, exact);
      AddOneGrows(c, db, y, pt, e, policy);
      if s.res.Ok? {
        RunReady(c, db, s);
        TargetKept(c, db, s, y, pt);
        AddOneUpserts(c, db, y, pt, e, policy);
        ReachedMore(c, start, db, told, s, InputClaims(c.schemas, pt.elem, e));
        AddFromAdmitted(c, start, last, s.db, told + Told(InputClaims(c.schemas, pt.elem, e)), y, pt, v, policy, i + 1,
                        exact);
        AddFromRuns(c, s.db, y, pt, v, i + 1, policy);
        OlderRun(c, s.db, AddFrom(c, s.db, y, pt.elem, v, i + 1, policy), last);
      }
    }
  }

  // Storing the element adds no row.
  lemma AddOneGrows(c: Context, db: Db, y: Pos, pt: PropertyType, e: Input, policy: CreatePolicy)
    ensures var u := Unbox(c, db, pt.elem, e, policy, None);
            var s := AddOne(c, db, y, pt.elem, e, policy);
            s.res.Ok? == u.res.Ok? && forall t :: RowCount(s.db, t) == RowCount(u.db, t)
  {
    hide Unbox;
  }

  lemma {:induction false} AssignFromAdmitted(c: Context, start: Db, db: Db, told: set<Obj>, y: Pos, pt: PropertyType,
          v: Input, i: nat, sz: nat)
    requires Reached(c, start, db, told) && pt.Array? && v.Vector? && i <= |v.elements|
    requires Apart(c, db, y, pt, TailFeet(c.schemas, pt.elem, v, i), UpdateModified)
    requires pt.elem.ObjectElement? ==> ConsistentElements(c.schemas, pt.elem, v, i, UpdateModified)
    requires |ItemsAt(db, y)| == if i < sz then sz else i
    ensures AdmitsElements(c.schemas, start, told, pt.elem, v, false, i) ==>
              AssignFrom(c, db, y, pt.elem, v, i, sz).res.Ok?
    decreases Weight(v), v, 0, |v.elements| - i
  {
    hide Create, WellFormed, ValidSchemas, RowsKept, LegalLog, Replay, Reached, AdmitsElement, Unbox, Retains, Denotes;
    CurrentFromCell(c, db, y, pt);
    if i >= |v.elements| {
      TrimResult(db, y, i, sz);
    } else if AdmitsElements(c.schemas, start, told, pt.elem, v, false, i) {
      var e := v.elements[i];
      var s := AssignOne(c, db, y, pt.elem, e, i, sz);
      ElementAdmitted(c, start, db, told, y, pt, e, i, sz);
      ElementHolds(c, db, y, pt, e, i, sz, UpdateModified);
      RetainsNormal(c, db, s.db, InputClaims(c.schemas, pt.elem, e), UpdateModified, TheCell(y));
      AssignFromAdmitted(c, start, s.db, told + Told(InputClaims(c.schemas, pt.elem, e)), y, pt, v, i + 1, sz);
    }
  }

  // One element of the diff: it is set, and its objects are known afterwards.
  lemma {:induction false} ElementAdmitted(c: Context, start: Db, db: Db, told: set<Obj>, y: Pos, pt: PropertyType,
          e: Input, i: nat, sz: nat)
    requires Reached(c, start, db, told) && pt.Array?
    requires Apart(c, db, y, pt, InputFeet(c.schemas, pt.elem, e), UpdateModified)
    requires ConsistentInput(c.schemas, pt.elem, e, UpdateModified)
    requires |ItemsAt(db, y)| == if i < sz then sz else i
    requires AdmitsElement(c.schemas, start, told, pt.elem, e, false)
    ensures var s := AssignOne(c, db, y, pt.elem, e, i, sz);
            s.res.Ok? && Reached(c, start, s.db, told + Told(InputClaims(c.schemas, pt.elem, e)))
    decreases Weight(e), e, 6, 0
  {
    hide Create, WellFormed, ValidSchemas, RowsKept, LegalLog, Replay, AdmitsElement, Unbox;
    var items := ItemsAt(db, y);
    var current := if i < sz then LinkedRow(items[i]) else None;
    CurrentFromCell(c, db, y, pt);
    UnboxAdmitted(c, start, db, db, told, pt.elem, e, UpdateModified, current, false);
    UnboxSpares(c, db, y, pt, e, UpdateModified, current);
    var s := AssignOne(c, db, y, pt.elem, e, i, sz);
    if i < sz {
      SetIfDifferentRuns(c, db, y, pt, e, i);
      SetIfDifferentUpserts(c, db, y, pt, e, i);
    } else {
      AddOneRuns(c, db, y, pt, e, UpdateModified);
      AddOneUpserts(c, db, y, pt, e, UpdateModified);
    }
    ReachedMore(c, start, db, told, s, InputClaims(c.schemas, pt.elem, e));
  }

  // ---- When operations succeed ----

  // No managed row or list in the input belongs to an object added on the way to `last`.
  predicate Accessors(c: Context, db: Db, last: Db, v: Input) {
    Timely(db, last, v) && TimelyDefaults(c.schemas, db, last)
  }

  /** A create under ForceCreate or UpdateAll succeeds if its input is admitted, in any store and for
      any input; and only then, since no accessor in the input belongs to an object that the call
      itself adds. */
  lemma CreateSucceeds(c: Context, db: Db, t: string, value: Input, policy: CreatePolicy)
    requires Normal(c, db) && Overwrites(policy)
    ensures var s := Create(c, db, t, value, policy, None);
            var ok := Admits(c.schemas, db, {}, t, value, policy.ForceCreate?);
            && (ok ==> s.res.Ok?)
            && (Accessors(c, db, s.db, value) ==> (s.res.Ok? <==> ok))
  {
    var s := Create(c, db, t, value, policy, None);
    ReachedStart(c, db);
    CreateAdmitted(c, db, s.db, db, {}, t, value, policy, None, Accessors(c, db, s.db, value));
  }

  /** So does one under UpdateModified for an untangled input. For any consistent input, also one
      that describes objects without primary key, being admitted is sufficient; it is more than is
      needed where an object that a link points to is reused. */
  lemma UpdateModifiedSucceeds(c: Context, db: Db, t: string, value: Input)
    requires Normal(c, db)
    ensures var s := Create(c, db, t, value, UpdateModified, None);
            var ok := Admits(c.schemas, db, {}, t, value, false);
            && (Consistent(c.schemas, t, value, UpdateModified) || Untangled(c.schemas, t, value) ==>
                  ok ==> s.res.Ok?)
            && (Untangled(c.schemas, t, value) && Accessors(c, db, s.db, value) ==> (s.res.Ok? <==> ok))
  {
    ReachedStart(c, db);
    if Consistent(c.schemas, t, value, UpdateModified) {
      CreateAdmitted(c, db, db, db, {}, t, value, UpdateModified, None, false);
    }
    if Untangled(c.schemas, t, value) {
      CreateSucceeds(c, db, t, value, UpdateAll);
      PoliciesAgree(c, db, t, value);
    }
  }

  /** Setting a property, of a list type or another, succeeds under the same condition on the value. */
  lemma SetPropertySucceeds(c: Context, db: Db, x: Pos, pt: PropertyType, v: Input, policy: CreatePolicy)
    requires Normal(c, db) && Target(c, db, x, pt) && Overwrites(policy)
    ensures var s := SetProperty(c, db, x, pt, v, policy, false);
            var ok := AdmitsInput(c.schemas, db, {}, pt, v, Some(x), policy.ForceCreate?);
            && (ok ==> s.res.Ok?)
            && (Accessors(c, db, s.db, v) ==> (s.res.Ok? <==> ok))
  {
    var s := SetProperty(c, db, x, pt, v, policy, false);
    ReachedStart(c, db);
    SetPropertyAdmitted(c, db, s.db, db, {}, x, pt, v, policy, false, Some(x), Accessors(c, db, s.db, v));
  }

  lemma SetPropertyModifiedSucceeds(c: Context, db: Db, x: Pos, pt: PropertyType, v: Input)
    requires Apart(c, db, x, pt, InputFeet(c.schemas, pt.elem, v), UpdateModified)
    ensures var s := SetProperty(c, db, x, pt, v, UpdateModified, false);
            var ok := AdmitsInput(c.schemas, db, {}, pt, v, Some(x), false);
            && (ConsistentInput(c.schemas, pt.elem, v, UpdateModified) || UntangledInput(c.schemas, pt.elem, v) ==>
                  ok ==> s.res.Ok?)
            && (UntangledInput(c.schemas, pt.elem, v) && Accessors(c, db, s.db, v) ==> (s.res.Ok? <==> ok))
  {
    ReachedStart(c, db);
    if ConsistentInput(c.schemas, pt.elem, v, UpdateModified) {
      SetPropertyAdmitted(c, db, db, db, {}, x, pt, v, UpdateModified, false, Some(x), false);
    }
    if UntangledInput(c.schemas, pt.elem, v) {
      SetPropertySucceeds(c, db, x, pt, v, UpdateAll);
      SetPropertyAgrees(c, db, x, pt, v, false);
    }
  }

  /** And so does assigning to a list. */
  lemma AssignSucceeds(c: Context, db: Db, x: Pos, pt: PropertyType, v: Input, policy: CreatePolicy)
    requires Normal(c, db) && Target(c, db, x, pt) && pt.Array? && Overwrites(policy)
    ensures var s := Assign(c, db, x, pt.elem, v, policy);
            var ok := AdmitsInput(c.schemas, db, {}, pt, v, Some(x), policy.ForceCreate?);
            && (ok ==> s.res.Ok?)
            && (Accessors(c, db, s.db, v) ==> (s.res.Ok? <==> ok))
  {
    assert SetProperty(c, db, x, pt, v, policy, false) == Assign(c, db, x, pt.elem, v, policy);
    SetPropertySucceeds(c, db, x, pt, v, policy);
  }
}

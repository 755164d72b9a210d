/**
 The promises of `Object::create`, for every store, with and without primary keys, and for
 objects and lists of objects nested in the input to any depth. What an input must satisfy for
 the later ones is said in `Footprint`.
 */
module Objects {
  import opened Schema
  import opened Store
  import opened Safety
  import opened Accessor
  import opened Keys
  import opened Runs
  import opened Footprint
  import opened Upsert
  import opened Frame
  import opened Agreement
  import opened Meaning
  import opened Fulfilment
  import opened Economy

  // ---- Identity ----

  function KeySet(schemas: Schemas, db: Db, t: string): set<Cell> {
    set r: nat | r < RowCount(db, t) :: KeyAt(schemas, db, t, r)
  }

  // The keys of the objects of type `t` that a footprint describes.
  function Described(feet: set<Foot>, t: string): set<Cell> {
    set f | f in feet && f.table == t :: f.key
  }

  lemma {:induction false} UniqueKeysCount(schemas: Schemas, db: Db, t: string, n: nat)
    requires t in schemas && schemas[t].primary.Some? && UniqueColumn(db, t, schemas[t].primary.value)
             && n <= RowCount(db, t)
    ensures |set r: nat | r < n :: KeyAt(schemas, db, t, r)| == n
    decreases n
  {
    var keys := set r: nat | r < n :: KeyAt(schemas, db, t, r);
    if n == 0 {
      assert keys == {};
    } else {
      var fewer := set r: nat | r < n - 1 :: KeyAt(schemas, db, t, r);
      var last := KeyAt(schemas, db, t, n - 1);
      UniqueKeysCount(schemas, db, t, n - 1);
      assert keys == fewer + {last};
      assert last !in fewer;
    }
  }

  lemma {:induction false} ReplayKeys(c: Context, db: Db, log: seq<Write>, feet: set<Foot>, t: string)
    requires Normal(c, db) && LegalLog(c, db, log) && AddsOnly(c.schemas, log, feet)
    requires t in c.schemas && c.schemas[t].primary.Some?
    ensures KeySet(c.schemas, Replay(db, log), t) <= KeySet(c.schemas, db, t) + Described(feet, t)
    decreases log
  {
    if log != [] {
      var mid := Apply(db, log[0]);
      WriteKeepsWellFormed(c, db, log[0]);
      ReplayKeys(c, mid, log[1..], feet, t);
      WriteKeys(c, db, log[0], t);
      assert log[0] in log;
      if log[0].NewRow? && log[0].table == t {
        var pk := c.schemas[t].primary.value;
        assert Foot(t, log[0].cells[pk], pk) in feet;
      }
    }
  }

  lemma WriteKeys(c: Context, db: Db, w: Write, t: string)
    requires Normal(c, db) && LegalWrite(c, db, w) && t in c.schemas && c.schemas[t].primary.Some?
    ensures KeySet(c.schemas, Apply(db, w), t)
         <= KeySet(c.schemas, db, t)
            + (if w.NewRow? && w.table == t && c.schemas[t].primary.value < |w.cells|
               then {w.cells[c.schemas[t].primary.value]} else {})
  {
    var db' := Apply(db, w);
    WriteKeepsRows(c, db, w);
    forall r: nat | r < RowCount(db', t)
      ensures KeyAt(c.schemas, db', t, r) in KeySet(c.schemas, db, t)
              || (w.NewRow? && w.table == t && KeyAt(c.schemas, db', t, r) == w.cells[c.schemas[t].primary.value])
    {
      if r < RowCount(db, t) {
        assert KeyAt(c.schemas, db', t, r) == KeyAt(c.schemas, db, t, r);
      }
    }
  }

  /** Whatever a create does and wherever it fails, keys stay unique, every row keeps its
      place and its key, and links point to existing rows. */
  lemma CreateKeepsIdentity(c: Context, db: Db, t: string, value: Input, policy: CreatePolicy)
    requires Normal(c, db) && UniqueKeys(c.schemas, db)
    ensures var s := Create(c, db, t, value, policy, None);
            && WellFormed(c.schemas, s.db)
            && UniqueKeys(c.schemas, s.db)
            && RowsKept(c.schemas, db, s.db, true)
  {
    var s := Create(c, db, t, value, policy, None);
    CreateRuns(c, db, t, value, policy, None);
    RunReady(c, db, s);
    LogKeepsUniqueKeys(c, db, s.log);
  }

  /** A create that succeeds adds one row for each described object that was missing, and no
      other: afterwards a table's keys are the old ones and the described ones. */
  lemma CreateAddsExactly(c: Context, db: Db, t: string, value: Input, policy: CreatePolicy, u: string)
    requires Normal(c, db) && UniqueKeys(c.schemas, db) && u in c.schemas && c.schemas[u].primary.Some?
    ensures var s := Create(c, db, t, value, policy, None);
            var keys := KeySet(c.schemas, db, u) + Described(Feet(c.schemas, t, value), u);
            && (s.res.Ok? ==> KeySet(c.schemas, s.db, u) == keys && RowCount(s.db, u) == |keys|)
            && (s.res.Err? ==> KeySet(c.schemas, s.db, u) <= keys)
  {
    var s := Create(c, db, t, value, policy, None);
    var feet := Feet(c.schemas, t, value);
    CreateRuns(c, db, t, value, policy, None);
    RunReady(c, db, s);
    LogKeepsUniqueKeys(c, db, s.log);
    CreateUpserts(c, db, t, value, policy, None);
    ReplayKeys(c, db, s.log, feet, u);
    if s.res.Ok? {
      forall key | key in KeySet(c.schemas, db, u) + Described(feet, u) ensures key in KeySet(c.schemas, s.db, u) {
        if key in KeySet(c.schemas, db, u) {
          var r: nat :| r < RowCount(db, u) && KeyAt(c.schemas, db, u, r) == key;
          assert RowCount(db, u) <= RowCount(s.db, u);
          assert KeyAt(c.schemas, s.db, u, r) == key;
        } else {
          var f :| f in feet && f.table == u && f.key == key;
          assert HasKey(c.schemas, s.db, u, key);
        }
      }
      assert UniqueColumn(s.db, u, c.schemas[u].primary.value);
      UniqueKeysCount(c.schemas, s.db, u, RowCount(s.db, u));
    }
  }

  /** The returned row is the row of the object with the key that the description asks for: its
      own field, else the default, else null. It is a new last row if the key was missing when the
      call began, else the first row that had it. An existing key is refused under ForceCreate,
      before anything is written. */
  lemma CreateFindsOrAdds(c: Context, db: Db, t: string, value: Input, policy: CreatePolicy, key: Cell)
    requires Normal(c, db) && t in c.schemas && KeyedSchema(c.schemas[t]) && KeyIs(c.schemas[t], value, key)
    ensures var s := Create(c, db, t, value, policy, None);
            && (s.res.Ok? ==>
                  && s.res.value < RowCount(s.db, t)
                  && Get(s.db, Pos(t, s.res.value, c.schemas[t].primary.value)) == key
                  && (!HasKey(c.schemas, db, t, key) ==> s.res.value == RowCount(db, t))
                  && (HasKey(c.schemas, db, t, key) ==>
                        && s.res.value < RowCount(db, t) && KeyAt(c.schemas, db, t, s.res.value) == key
                        && forall r: nat | r < s.res.value :: KeyAt(c.schemas, db, t, r) != key))
            && (policy.ForceCreate? && HasKey(c.schemas, db, t, key) ==> s == Fail(db, DuplicateKey))
  {
    hide Populate, GetOrAddRow, FindFirst;
    assert ValidObjectSchema(c.schemas, c.schemas[t]);
    KeyForExact(c.schemas[t], value);
    SlotFinds(c, db, t, value, policy, key);
    var slot := GetOrAddRow(c, db, t, c.schemas[t], value, policy, None);
    if slot.res.Ok? {
      SlotRetains(c, db, t, value, policy, None);
      PopulateRuns(c, slot.db, t, slot.res.value, value, policy, 0);
      var rest := Populate(c, slot.db, t, c.schemas[t], slot.res.value, value, policy, 0);
      RunReady(c, slot.db, rest);
      assert RowCount(slot.db, t) <= RowCount(rest.db, t);
      assert KeyAt(c.schemas, rest.db, t, slot.res.value.row) == KeyAt(c.schemas, slot.db, t, slot.res.value.row);
    }
  }

  lemma SlotFinds(c: Context, db: Db, t: string, value: Input, policy: CreatePolicy, key: Cell)
    requires Normal(c, db) && t in c.schemas && KeyedSchema(c.schemas[t]) && KeyFor(c.schemas[t], value) == Ok(key)
    ensures var s := GetOrAddRow(c, db, t, c.schemas[t], value, policy, None);
            && (!HasKey(c.schemas, db, t, key) ==> s.res.Ok? && s.res.value.row == RowCount(db, t))
            && (HasKey(c.schemas, db, t, key) ==>
                  if policy.ForceCreate? then s == Fail(db, DuplicateKey)
                  else
                    && s.res.Ok? && s.res.value.row < RowCount(db, t)
                    && KeyAt(c.schemas, db, t, s.res.value.row) == key
                    && forall r: nat | r < s.res.value.row :: KeyAt(c.schemas, db, t, r) != key)
  {
    FreshKeyFromSearch(c, db, t, c.schemas[t].primary.value, key);
    forall r | 0 <= r < RowCount(db, t) ensures c.schemas[t].primary.value < |db[t][r]| {
      assert RowFits(db, c.schemas[t], db[t][r]);
    }
    var found := FindFirst(db[t], c.schemas[t].primary.value, key);
    assert found.Some? ==> KeyAt(c.schemas, db, t, found.value) == key;
  }

  /** In a migration an existing key is no obstacle to ForceCreate: a row is added at the end, and the
      rows that were there keep their place. */
  lemma MigrationDuplicates(c: Context, db: Db, t: string, value: Input)
    requires Ready(c, db) && c.inMigration && t in c.schemas && KeyedSchema(c.schemas[t])
    requires exists key :: KeyIs(c.schemas[t], value, key)
    ensures var s := Create(c, db, t, value, ForceCreate, None);
            && RowsKept(c.schemas, db, s.db, false) && RowCount(s.db, t) > RowCount(db, t)
            && (s.res.Ok? ==> s.res.value == RowCount(db, t))
  {
    hide Populate, FindFirst, LegalLog, Replay;
    assert ValidObjectSchema(c.schemas, c.schemas[t]);
    KeyForExact(c.schemas[t], value);
    var s := Create(c, db, t, value, ForceCreate, None);
    CreateRuns(c, db, t, value, ForceCreate, None);
    RunReady(c, db, s);
    var slot := GetOrAddRow(c, db, t, c.schemas[t], value, ForceCreate, None);
    GetOrAddRowRuns(c, db, t, value, ForceCreate, None);
    RunReady(c, db, slot);
    PopulateRuns(c, slot.db, t, slot.res.value, value, ForceCreate, 0);
    var rest := Populate(c, slot.db, t, c.schemas[t], slot.res.value, value, ForceCreate, 0);
    RunReady(c, slot.db, rest);
    assert RowCount(slot.db, t) <= RowCount(rest.db, t);
  }

  /** A description that asks for no possible key is refused before anything is written. */
  lemma CreateWithoutKey(c: Context, db: Db, t: string, value: Input, policy: CreatePolicy)
    requires Normal(c, db) && t in c.schemas && KeyedSchema(c.schemas[t])
    requires forall key :: !KeyIs(c.schemas[t], value, key)
    ensures var prop := c.schemas[t].props[c.schemas[t].primary.value];
            var v := Asked(prop, value);
            Create(c, db, t, value, policy, None) ==
              Fail(db, if !value.Dict? then BadCast
                       else if v.None? then MissingPropertyValue
                       else if v == Some(NullInput) && !prop.ptype.Nullable() then InvalidNullKey
                       else BadCast)
  {
    assert ValidObjectSchema(c.schemas, c.schemas[t]);
    KeyForExact(c.schemas[t], value);
  }

  // ---- Meaning ----

  /** UpdateAll and UpdateModified succeed on the same inputs, fail with the same error on the
      others, and a success leaves the same store and returns the same row. */
  lemma PoliciesAgree(c: Context, db: Db, t: string, value: Input)
    requires Normal(c, db) && Untangled(c.schemas, t, value)
    ensures var a := Create(c, db, t, value, UpdateAll, None);
            var m := Create(c, db, t, value, UpdateModified, None);
            a.res == m.res && (a.res.Ok? ==> a.db == m.db)
  {
    CreateAgrees(c, db, t, value, None, None);
  }

  /** A create that succeeds makes its input true: the described object and all objects nested in
      it exist, with every property given, where objects without primary key are new rows unless
      UpdateModified reuses what a link points to. Whatever the outcome, a cell that existed before
      and that the input does not name is as it was; a row without primary key is not named by any
      input under the other policies. */
  lemma CreateFulfils(c: Context, db: Db, t: string, value: Input, policy: CreatePolicy)
    requires Normal(c, db) && Consistent(c.schemas, t, value, policy) && !policy.Skip?
    ensures var s := Create(c, db, t, value, policy, None);
            && (s.res.Ok? ==>
                  && Holds(c.schemas, Base(policy, db), s.db, t, s.res.value, value)
                  && (c.schemas[t].primary.None? ==> s.res.value == RowCount(db, t)))
            && forall x | Has(db, x) && Outside(c, db, x, Feet(c.schemas, t, value), policy) ::
                 Get(s.db, x) == Get(db, x)
  {
    var s := Create(c, db, t, value, policy, None);
    forall x | Has(db, x) && Outside(c, db, x, Feet(c.schemas, t, value), policy) ensures Get(s.db, x) == Get(db, x) {
      CreateSpares(c, db, x, t, value, policy, None);
    }
    CreateHolds(c, db, t, value, policy, None);
  }

  /** Repeating a create of an object with primary key under UpdateModified finds the same row and
      changes nothing, also where its description mentions objects without primary key; the only
      writes it can issue clear lists that the input gives as null and that are empty already. */
  lemma RepeatIsSilent(c: Context, db: Db, t: string, value: Input, policy: CreatePolicy)
    requires Normal(c, db) && Consistent(c.schemas, t, value, policy) && !policy.Skip?
    requires t in c.schemas && c.schemas[t].primary.Some?
    requires Create(c, db, t, value, policy, None).res.Ok?
    ensures var first := Create(c, db, t, value, policy, None);
            Silent(first.db, Create(c, first.db, t, value, UpdateModified, None), first.res.value)
  {
    var first := Create(c, db, t, value, policy, None);
    CreateFulfils(c, db, t, value, policy);
    CreateSilent(c, Base(policy, db), first.db, t, first.res.value, value, None);
  }

  /** Under UpdateModified, the writes to any cell that existed before are exactly the edits that
      turn its old contents into its new ones, however often the input describes the cell; a list
      given as null is cleared each time. */
  lemma UpdateModifiedEdits(c: Context, db: Db, t: string, value: Input, x: Pos)
    requires Normal(c, db) && Consistent(c.schemas, t, value, UpdateModified)
    requires Has(db, x) && Create(c, db, t, value, UpdateModified, None).res.Ok?
    ensures var s := Create(c, db, t, value, UpdateModified, None);
            && (c.schemas[x.table].IsPrimary(x.col) ==> Get(s.db, x) == Get(db, x))
            && (!c.schemas[x.table].IsPrimary(x.col) ==> Economical(s.log, x, Get(db, x), Get(s.db, x)))
  {
    var s := Create(c, db, t, value, UpdateModified, None);
    if c.schemas[x.table].IsPrimary(x.col) {
      CreateRuns(c, db, t, value, UpdateModified, None);
      RunReady(c, db, s);
      assert KeyAt(c.schemas, s.db, x.table, x.row) == KeyAt(c.schemas, db, x.table, x.row);
    } else {
      CreateThrifty(c, db, x, t, value, None);
      SpentThrifty(c, db, s, x, Claims(c.schemas, t, value));
    }
  }

  // ---- Lists ----

  /** Assigning to a list leaves it holding what the input's elements stand for, in order, under
      every policy; assigning a list to itself does nothing. */
  lemma ListAssign(c: Context, db: Db, x: Pos, pt: PropertyType, v: Input, policy: CreatePolicy)
    requires Apart(c, db, x, pt, InputFeet(c.schemas, pt.elem, v), policy)
    requires ConsistentInput(c.schemas, pt.elem, v, policy) && pt.Array? && !policy.Skip?
    ensures var s := Assign(c, db, x, pt.elem, v, policy);
            && (s.res.Ok? ==> HoldsInput(c.schemas, Base(policy, db), s.db, x, pt, v))
            && (v == ListInput(x) ==> s == Done(db, ()))
  {
    AssignHolds(c, db, x, pt, v, policy);
  }

  /** UpdateModified ends as clearing and refilling does. Its writes to the list are the
      position-wise edits that lead from the old elements to the new. */
  lemma ListDiff(c: Context, db: Db, x: Pos, pt: PropertyType, v: Input)
    requires Apart(c, db, x, pt, InputFeet(c.schemas, pt.elem, v), UpdateModified) && pt.Array?
    ensures var m := Assign(c, db, x, pt.elem, v, UpdateModified);
            var a := Assign(c, db, x, pt.elem, v, UpdateAll);
            && (UntangledInput(c.schemas, pt.elem, v) ==> a.res == m.res && (a.res.Ok? ==> a.db == m.db))
            && (v.Vector? && m.res.Ok? ==> WritesAt(m.log, x) == ListEdits(x, ItemsAt(db, x), ItemsAt(m.db, x), 0))
  {
    hide WellFormed, RowsKept, LegalLog, Replay, AssignFrom, AddFrom;
    if UntangledInput(c.schemas, pt.elem, v) {
      AssignAgrees(c, db, x, pt, v);
    }
    if v.Vector? {
      CurrentFromCell(c, db, x, pt);
      AssignFromEdits(c, db, x, pt, v, 0, |ItemsAt(db, x)|);
    }
  }

  // ---- Defaults ----

  // What a property that the input leaves out holds in a new object.
  predicate Defaulted(schemas: Schemas, db: Db, x: Pos, prop: Property) {
    if prop.default.Some? then HoldsInput(schemas, map[], db, x, prop.ptype, prop.default.value)
    else Get(db, x) == DefaultCell(prop.ptype)
  }

  /** What a column of a new row holds: an empty list, null where null is allowed, and otherwise zero,
      false, nothing, or the start of 1970. */
  lemma NewColumns(pt: PropertyType)
    ensures DefaultCell(pt) ==
              if pt.Array? then Items([])
              else if pt.optional || pt.elem.ObjectElement? then Null
              else Value(match pt.elem.ty
                         case IntType => IntValue(0)
                         case BoolType => BoolValue(false)
                         case StringType => StringValue("")
                         case DataType => DataValue([])
                         case DateType => DateValue(0, 0)
                         case FloatType => FloatValue(0.0)
                         case DoubleType => DoubleValue(0.0))
  {
  }

  /** In a new object every property that the input leaves out has its default, with or without a
      primary key. In particular a link whose default is null is null, although a null default is
      never written to it. */
  lemma NewObjectDefaults(c: Context, db: Db, t: string, value: Input, policy: CreatePolicy, k: nat)
    requires Normal(c, db) && Consistent(c.schemas, t, value, policy) && !policy.Skip?
    requires t in c.schemas && k < |c.schemas[t].props| && !c.schemas[t].IsPrimary(k)
    requires value.Dict? && c.schemas[t].props[k].name !in value.fields
    ensures var s := Create(c, db, t, value, policy, None);
            s.res.Ok? && s.res.value >= RowCount(db, t) ==>
              Defaulted(c.schemas, s.db, Pos(t, s.res.value, k), c.schemas[t].props[k])
  {
    hide Holds, HoldsInput, SetProperty, LegalLog, Replay, RowsKept, Populate, HoldsFields;
    var s := Create(c, db, t, value, policy, None);
    if s.res.Ok? && s.res.value >= RowCount(db, t) {
      var slot := GetOrAddRow(c, db, t, c.schemas[t], value, policy, None);
      SlotRetains(c, db, t, value, policy, None);
      assert slot.res.value.created;
      assert Get(slot.db, Pos(t, slot.res.value.row, k)) == DefaultCell(c.schemas[t].props[k].ptype);
      PopulateDefaults(c, slot.db, t, slot.res.value, value, policy, 0, k);
    }
  }

  lemma {:induction false} PopulateDefaults(c: Context, db: Db, t: string, slot: Slot, value: Input,
          policy: CreatePolicy, i: nat, k: nat)
    requires Normal(c, db) && SlotOf(c, db, t, slot, value) && value.Dict? && !policy.Skip?
    requires i <= k < |c.schemas[t].props| && slot.created && !c.schemas[t].IsPrimary(k)
    requires c.schemas[t].props[k].name !in value.fields
    requires ConsistentFields(c.schemas, t, c.schemas[t], value, i, policy)
    requires Get(db, Pos(t, slot.row, k)) == DefaultCell(c.schemas[t].props[k].ptype)
    ensures var s := Populate(c, db, t, c.schemas[t], slot, value, policy, i);
            s.res.Ok? ==> Defaulted(c.schemas, s.db, Pos(t, slot.row, k), c.schemas[t].props[k])
    decreases |c.schemas[t].props| - i
  {
    hide Holds, HoldsInput, SetProperty, LegalLog, Replay, RowsKept, Defaulted;
    var os := c.schemas[t];
    var x := Pos(t, slot.row, k);
    var all := Populate(c, db, t, os, slot, value, policy, i);
    if all.res.Ok? {
      var s := PopulateOne(c, db, t, os, slot, value, policy, i);
      PopulateOneRuns(c, db, t, slot, value, policy, i);
      RunReady(c, db, s);
      SlotOfKept(c, db, s, t, slot, value);
      SlotOpen(c, db, t, slot, k);
      OpenKept(c, db, s, x);
      if i < k {
        PopulateOneStill(c, db, x, t, slot, value, policy, i);
        PopulateDefaults(c, s.db, t, slot, value, policy, i + 1, k);
      } else {
        OneDefault(c, db, t, slot, value, policy, k);
        DefaultStays(c, s.db, t, slot, value, policy, k);
      }
    }
  }

  lemma DefaultStays(c: Context, db: Db, t: string, slot: Slot, value: Input, policy: CreatePolicy, k: nat)
    requires Normal(c, db) && SlotOf(c, db, t, slot, value) && value.Dict? && !policy.Skip?
    requires k < |c.schemas[t].props| && !c.schemas[t].IsPrimary(k)
    requires ConsistentFields(c.schemas, t, c.schemas[t], value, k, policy)
    requires c.schemas[t].props[k].name !in value.fields
    requires Defaulted(c.schemas, db, Pos(t, slot.row, k), c.schemas[t].props[k])
    ensures var s := Populate(c, db, t, c.schemas[t], slot, value, policy, k + 1);
            s.res.Ok? ==> Defaulted(c.schemas, s.db, Pos(t, slot.row, k), c.schemas[t].props[k])
  {
    hide HoldsInput, LegalLog, Replay, RowsKept, Populate, HoldsFields, WellFormed;
    var os := c.schemas[t];
    var x := Pos(t, slot.row, k);
    var rest := Populate(c, db, t, os, slot, value, policy, k + 1);
    SlotOpen(c, db, t, slot, k);
    if Shared(c.schemas, t, policy) { ConsistentElsewhere(c.schemas, t, os, value, k + 1, policy); }
    PopulateStill(c, db, x, t, slot, value, policy, k + 1);
    if os.props[k].default.Some? && rest.res.Ok? {
      var pt, v := os.props[k].ptype, os.props[k].default.value;
      PopulateRuns(c, db, t, slot, value, policy, k + 1);
      RunReady(c, db, rest);
      LeafHoldsKept(c, map[], db, rest.db, x, pt, v);
    }
  }

  // A leaf describes no object, so what it stands for depends on the cell alone.
  lemma LeafHoldsKept(c: Context, base: Db, db: Db, db': Db, x: Pos, pt: PropertyType, v: Input)
    requires IsLeaf(v) && Get(db', x) == Get(db, x) && forall t :: RowCount(db, t) <= RowCount(db', t)
    requires HoldsInput(c.schemas, base, db, x, pt, v)
    ensures HoldsInput(c.schemas, map[], db', x, pt, v)
  {
    if pt.Array? && v.Vector? {
      LeavesDenoteKept(c, base, db, db', pt.elem, v, Get(db, x).items, 0);
    } else if pt.Single? && !(pt.Nullable() && v.NullInput?) {
      LeafDenotesKept(c, base, db, db', pt.elem, v, Get(db, x));
    }
  }

  lemma LeafDenotesKept(c: Context, base: Db, db: Db, db': Db, et: ElementType, v: Input, cell: Cell)
    requires IsLeaf(v) && (forall t :: RowCount(db, t) <= RowCount(db', t)) && Denotes(c.schemas, base, db, et, v, cell)
    ensures Denotes(c.schemas, map[], db', et, v, cell)
  {
    if et.ObjectElement? { assert RowCount(db, et.target) <= RowCount(db', et.target); }
  }

  lemma {:induction false} LeavesDenoteKept(c: Context, base: Db, db: Db, db': Db, et: ElementType, v: Input,
          items: seq<Cell>, i: nat)
    requires v.Vector? && IsLeaf(v) && |items| == |v.elements| && forall t :: RowCount(db, t) <= RowCount(db', t)
    requires DenotesAll(c.schemas, base, db, et, v, items, i)
    ensures DenotesAll(c.schemas, map[], db', et, v, items, i)
    decreases |items| - i
  {
    if i < |items| {
      LeafDenotesKept(c, base, db, db', et, v.elements[i], items[i]);
      LeavesDenoteKept(c, base, db, db', et, v, items, i + 1);
    }
  }

  lemma OneDefault(c: Context, db: Db, t: string, slot: Slot, value: Input, policy: CreatePolicy, k: nat)
    requires Normal(c, db) && SlotOf(c, db, t, slot, value) && value.Dict? && !policy.Skip?
    requires k < |c.schemas[t].props| && slot.created && !c.schemas[t].IsPrimary(k)
    requires c.schemas[t].props[k].name !in value.fields
    requires Get(db, Pos(t, slot.row, k)) == DefaultCell(c.schemas[t].props[k].ptype)
    ensures var s := PopulateOne(c, db, t, c.schemas[t], slot, value, policy, k);
            s.res.Ok? ==> Defaulted(c.schemas, s.db, Pos(t, slot.row, k), c.schemas[t].props[k])
  {
    hide Create, LegalLog, Replay, RowsKept;
    var os := c.schemas[t];
    var x := Pos(t, slot.row, k);
    match Choose(os, value, slot, k)
    case Put(v, isDefault) =>
      SlotTarget(c, db, t, slot, value, k);
      LeafFeet(c.schemas, os.props[k].ptype.elem, v);
      LeafConsistent(c.schemas, os.props[k].ptype.elem, v, policy);
      if os.props[k].ptype.Nullable() && v.NullInput? {
        GetSet(db, x, Null, x);
      } else {
        var s := SetProperty(c, db, x, os.props[k].ptype, v, policy, false);
        assert PopulateOne(c, db, t, os, slot, value, policy, k) == s;
        SetPropertyHolds(c, db, x, os.props[k].ptype, v, policy, false);
        if s.res.Ok? { LeafHoldsKept(c, Base(policy, db), s.db, s.db, x, os.props[k].ptype, v); }
      }
    case _ =>
  }

  /** A null default is never written to a link, and need not be: the link of a new object is
      null at the end unless a nested description of that same object provides it. */
  lemma NullDefaultLink(c: Context, db: Db, t: string, value: Input, policy: CreatePolicy, k: nat)
    requires Normal(c, db) && t in c.schemas && k < |c.schemas[t].props|
    requires c.schemas[t].props[k].ptype.Single? && c.schemas[t].props[k].ptype.elem.ObjectElement?
    requires c.schemas[t].props[k].default in {None, Some(NullInput)}
    requires value.Dict? && c.schemas[t].props[k].name !in value.fields
    requires Shared(c.schemas, t, policy) ==>
               forall key | Foot(t, key, k) in NestedFeet(c.schemas, c.schemas[t], value, 0) ::
                 Identity(c.schemas[t], value) != Ok(key)
    ensures var s := Create(c, db, t, value, policy, None);
            s.res.Ok? && s.res.value >= RowCount(db, t) ==> Get(s.db, Pos(t, s.res.value, k)) == Null
  {
    hide SetProperty, LegalLog, Replay;
    var s := Create(c, db, t, value, policy, None);
    if s.res.Ok? && s.res.value >= RowCount(db, t) {
      var slot := GetOrAddRow(c, db, t, c.schemas[t], value, policy, None);
      SlotRetains(c, db, t, value, policy, None);
      NewLinkIsNull(c, db, t, value, policy, k);
      hide GetOrAddRow, FindFirst;
      PopulateNullLink(c, slot.db, t, slot.res.value, value, policy, 0, k);
    }
  }

  lemma NewLinkIsNull(c: Context, db: Db, t: string, value: Input, policy: CreatePolicy, k: nat)
    requires Normal(c, db) && t in c.schemas && k < |c.schemas[t].props| && !c.schemas[t].IsPrimary(k)
    requires c.schemas[t].props[k].ptype.Single? && c.schemas[t].props[k].ptype.elem.ObjectElement?
    requires var s := GetOrAddRow(c, db, t, c.schemas[t], value, policy, None).res;
             s.Ok? && s.value.row >= RowCount(db, t)
    ensures var s := GetOrAddRow(c, db, t, c.schemas[t], value, policy, None);
            Get(s.db, Pos(t, s.res.value.row, k)) == Null
  {
    hide KeyFor;
  }

  lemma {:induction false} PopulateNullLink(c: Context, db: Db, t: string, slot: Slot, value: Input,
          policy: CreatePolicy, i: nat, k: nat)
    requires Normal(c, db) && SlotOf(c, db, t, slot, value) && value.Dict? && k < |c.schemas[t].props|
    requires c.schemas[t].props[k].ptype.Single? && c.schemas[t].props[k].ptype.elem.ObjectElement?
    requires c.schemas[t].props[k].default in {None, Some(NullInput)} && c.schemas[t].props[k].name !in value.fields
    requires Shared(c.schemas, t, policy) ==>
               Foot(t, Identity(c.schemas[t], value).value, k) !in NestedFeet(c.schemas, c.schemas[t], value, i)
    requires Get(db, Pos(t, slot.row, k)) == Null
    ensures Get(Populate(c, db, t, c.schemas[t], slot, value, policy, i).db, Pos(t, slot.row, k)) == Null
    decreases |c.schemas[t].props| - i
  {
    hide SetProperty, LegalLog, Replay, RowsKept;
    var os := c.schemas[t];
    var x := Pos(t, slot.row, k);
    if i < |os.props| {
      var s := PopulateOne(c, db, t, os, slot, value, policy, i);
      PopulateOneRuns(c, db, t, slot, value, policy, i);
      RunReady(c, db, s);
      SlotOfKept(c, db, s, t, slot, value);
      assert RowFits(db, os, db[t][slot.row]);
      if i == k {
        NullDefaultIgnored(c, db, t, slot, value, policy, k);
      } else {
        PopulateOneStill(c, db, x, t, slot, value, policy, i);
      }
      PopulateNullLink(c, s.db, t, slot, value, policy, i + 1, k);
    }
  }

  lemma NullDefaultIgnored(c: Context, db: Db, t: string, slot: Slot, value: Input, policy: CreatePolicy, k: nat)
    requires t in c.schemas && value.Dict? && k < |c.schemas[t].props|
    requires c.schemas[t].props[k].ptype.Single? && c.schemas[t].props[k].ptype.elem.ObjectElement?
    requires c.schemas[t].props[k].default in {None, Some(NullInput)} && c.schemas[t].props[k].name !in value.fields
    ensures PopulateOne(c, db, t, c.schemas[t], slot, value, policy, k).db == db
  {
  }
}

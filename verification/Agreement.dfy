/**
 The two update policies mean the same: UpdateModified, which looks before it writes,
 succeeds exactly when UpdateAll does and leaves the same store.

 This holds for every store and every untangled input over types with primary keys,
 however deeply objects and lists of objects are nested in it.
 */
module Agreement {
  import opened Schema
  import opened Store
  import opened Safety
  import opened Accessor
  import opened Runs
  import opened Footprint
  import opened Upsert
  import opened Frame

  ghost predicate Agree<A(!new)>(a: Step<A>, m: Step<A>) {
    a.res == m.res && (a.res.Ok? ==> a.db == m.db)
  }

  lemma {:induction false} CreateAgrees(c: Context, db: Db, t: string, value: Input, curA: Option<nat>,
          curM: Option<nat>)
    requires Normal(c, db) && Untangled(c.schemas, t, value)
    requires curA.Some? ==> curA.value < RowCount(db, t)
    requires curM.Some? ==> curM.value < RowCount(db, t)
    ensures Agree(Create(c, db, t, value, UpdateAll, curA), Create(c, db, t, value, UpdateModified, curM))
    decreases Weight(value), value, 2, 0
  {
    if !value.Dict? {
      CreateOnlyFromDict(c, db, t, value, UpdateAll, curA);
      CreateOnlyFromDict(c, db, t, value, UpdateModified, curM);
    } else if t in c.schemas {
      var slot := GetOrAddRow(c, db, t, c.schemas[t], value, UpdateAll, curA);
      assert slot == GetOrAddRow(c, db, t, c.schemas[t], value, UpdateModified, curM);
      GetOrAddRowRuns(c, db, t, value, UpdateAll, curA);
      SlotUpserts(c, db, t, value, UpdateAll, curA);
      if slot.res.Ok? {
        RunReady(c, db, slot);
        PopulateAgrees(c, slot.db, t, slot.res.value, value, 0);
      }
    }
  }

  ghost predicate SlotOf(c: Context, db: Db, t: string, slot: Slot, value: Input) {
    && SlotFits(c, db, t, slot)
    && Identity(c.schemas[t], value).Ok?
    && KeyAt(c.schemas, db, t, slot.row) == Identity(c.schemas[t], value).value
  }

  lemma {:induction false} PopulateAgrees(c: Context, db: Db, t: string, slot: Slot, value: Input, i: nat)
    requires Normal(c, db) && SlotOf(c, db, t, slot, value) && value.Dict?
    requires UntangledFields(c.schemas, t, c.schemas[t], value, i)
    ensures var os := c.schemas[t];
            Agree(Populate(c, db, t, os, slot, value, UpdateAll, i),
                  Populate(c, db, t, os, slot, value, UpdateModified, i))
    decreases Weight(value), value, 1, |c.schemas[t].props| + 1 - i
  {
    var os := c.schemas[t];
    if i < |os.props| {
      var s := PopulateOne(c, db, t, os, slot, value, UpdateAll, i);
      PopulateOneRuns(c, db, t, slot, value, UpdateAll, i);
      PopulateOneAgrees(c, db, t, slot, value, i);
      if s.res.Ok? {
        RunReady(c, db, s);
        assert KeyAt(c.schemas, s.db, t, slot.row) == KeyAt(c.schemas, db, t, slot.row);
        PopulateAgrees(c, s.db, t, slot, value, i + 1);
      }
    }
  }

  lemma {:induction false} PopulateOneAgrees(c: Context, db: Db, t: string, slot: Slot, value: Input, i: nat)
    requires Normal(c, db) && SlotOf(c, db, t, slot, value) && value.Dict?
    requires i < |c.schemas[t].props| && UntangledField(c.schemas, t, c.schemas[t], value, i)
    ensures var os := c.schemas[t];
            Agree(PopulateOne(c, db, t, os, slot, value, UpdateAll, i),
                  PopulateOne(c, db, t, os, slot, value, UpdateModified, i))
    decreases Weight(value), value, 1, 0
  {
    var os := c.schemas[t];
    match Choose(os, value, slot, i)
    case Put(v, isDefault) =>
      SlotTarget(c, db, t, slot, value, i);
      PutFeet(c, os, value, slot, i);
      if os.props[i].name !in value.fields {
        LeafUntangled(c.schemas, os.props[i].ptype.elem, v);
        LeafFeet(c.schemas, os.props[i].ptype.elem, v);
      }
      SetPropertyAgrees(c, db, Pos(t, slot.row, i), os.props[i].ptype, v, isDefault);
    case _ =>
  }

  // The cell being set and the input it is set from.
  ghost predicate Apart(c: Context, db: Db, x: Pos, pt: PropertyType, feet: set<Foot>, policy: CreatePolicy) {
    && Normal(c, db)
    && Target(c, db, x, pt)
    && Outside(c, db, x, feet, policy)
  }

  lemma ApartLoose(c: Context, db: Db, x: Pos, pt: PropertyType)
    requires Normal(c, db) && Target(c, db, x, pt)
    ensures Loose(c, db, x, Get(db, x))
    ensures pt.Array? ==>
              && Get(db, x) == Items(ItemsAt(db, x))
              && forall i: nat | i <= |ItemsAt(db, x)| :: Loose(c, db, x, Items(ItemsAt(db, x)[..i]))
  {
    CurrentFromCell(c, db, x, pt);
  }

  // Unboxing a value leaves the cell it is meant for alone.
  lemma UnboxSpares(c: Context, db: Db, x: Pos, pt: PropertyType, v: Input, policy: CreatePolicy, current: Option<nat>)
    requires Apart(c, db, x, pt, InputFeet(c.schemas, pt.elem, v), policy) && CurrentFits(db, pt.elem, current)
    ensures var u := Unbox(c, db, pt.elem, v, policy, current);
            && Run(c, db, u) && Ready(c, u.db)
            && Get(u.db, x) == Get(db, x)
            && Target(c, u.db, x, pt)
            && FootAt(c.schemas, u.db, x) == FootAt(c.schemas, db, x)
            && (u.res.Ok? ==> ItemFits(u.db, pt.elem, u.res.value))
  {
    var u := Unbox(c, db, pt.elem, v, policy, current);
    ApartLoose(c, db, x, pt);
    UnboxRuns(c, db, pt.elem, v, policy, current);
    RunReady(c, db, u);
    TargetKept(c, db, u, x, pt);
    LooseKept(c, db, u, x, Get(db, x));
    SetSame(db, x);
    UnboxFrame(c, db, x, Get(db, x), pt.elem, v, policy, current);
    GetSet(u.db, x, Get(db, x), x);
  }

  lemma {:induction false} SetPropertyAgrees(c: Context, db: Db, x: Pos, pt: PropertyType, v: Input, isDefault: bool)
    requires Apart(c, db, x, pt, InputFeet(c.schemas, pt.elem, v), UpdateModified)
    requires UntangledInput(c.schemas, pt.elem, v)
    ensures Agree(SetProperty(c, db, x, pt, v, UpdateAll, isDefault),
                  SetProperty(c, db, x, pt, v, UpdateModified, isDefault))
    decreases Weight(v), v, 5, 0
  {
    hide Create, WellFormed, ValidSchemas, RowsKept, LegalLog, Replay;
    if pt.Nullable() && v.NullInput? {
      SetSame(db, x);
    } else if pt.Array? {
      AssignAgrees(c, db, x, pt, v);
    } else {
      var current := LinkedRow(Get(db, x));
      CurrentFromCell(c, db, x, pt);
      UnboxAgrees(c, db, pt.elem, v, current, current);
      UnboxSpares(c, db, x, pt, v, UpdateModified, current);
      SetSame(Unbox(c, db, pt.elem, v, UpdateModified, current).db, x);
    }
  }

  lemma {:induction false} UnboxAgrees(c: Context, db: Db, et: ElementType, v: Input, curA: Option<nat>,
          curM: Option<nat>)
    requires Normal(c, db) && CurrentFits(db, et, curA) && CurrentFits(db, et, curM)
    requires UntangledInput(c.schemas, et, v)
    ensures Agree(Unbox(c, db, et, v, UpdateAll, curA), Unbox(c, db, et, v, UpdateModified, curM))
    decreases Weight(v), v, 3, 0
  {
    hide Create, WellFormed, ValidSchemas, RowsKept, LegalLog, Replay;
    if et.ObjectElement? && !v.RowInput? {
      CreateAgrees(c, db, et.target, v, curA, curM);
    }
  }

  lemma {:induction false} AssignAgrees(c: Context, db: Db, x: Pos, pt: PropertyType, v: Input)
    requires Apart(c, db, x, pt, InputFeet(c.schemas, pt.elem, v), UpdateModified) && pt.Array?
    requires UntangledInput(c.schemas, pt.elem, v)
    ensures Agree(Assign(c, db, x, pt.elem, v, UpdateAll), Assign(c, db, x, pt.elem, v, UpdateModified))
    decreases Weight(v), v, 4, 0
  {
    if v.Vector? {
      ApartLoose(c, db, x, pt);
      assert ItemsAt(db, x)[..0] == [];
      AssignFromAgrees(c, db, x, pt, v, 0, |ItemsAt(db, x)|);
    }
  }

  // With `items` in the list, `sz` of them old: the first `i` already match the input, and a
  // list that was cleared first holds just those.
  lemma {:induction false} AssignFromAgrees(c: Context, db: Db, x: Pos, pt: PropertyType, v: Input, i: nat, sz: nat)
    requires pt.Array? && v.Vector? && i <= |v.elements|
    requires Apart(c, db, x, pt, TailFeet(c.schemas, pt.elem, v, i), UpdateModified)
    requires pt.elem.ObjectElement? ==> UntangledElements(c.schemas, pt.elem, v, i)
    requires |ItemsAt(db, x)| == if i < sz then sz else i
    ensures Agree(AddFrom(c, Set(db, x, Items(ItemsAt(db, x)[..i])), x, pt.elem, v, i, UpdateAll),
                  AssignFrom(c, db, x, pt.elem, v, i, sz))
    decreases Weight(v), v, 0, |v.elements| - i
  {
    hide Create, WellFormed, ValidSchemas, RowsKept, LegalLog, Replay;
    var items := ItemsAt(db, x);
    ApartLoose(c, db, x, pt);
    if i == |v.elements| {
      TrimResult(db, x, i, sz);
    } else {
      var e := v.elements[i];
      var m := AssignOne(c, db, x, pt.elem, e, i, sz);
      var a := AddOne(c, Set(db, x, Items(items[..i])), x, pt.elem, e, UpdateAll);
      ElementAgrees(c, db, x, pt, e, i, sz);
      if m.res.Ok? {
        AssignFromAgrees(c, m.db, x, pt, v, i + 1, sz);
      }
    }
  }

  // One element of the loop.
  lemma {:induction false} ElementAgrees(c: Context, db: Db, x: Pos, pt: PropertyType, e: Input, i: nat, sz: nat)
    requires pt.Array?
    requires Apart(c, db, x, pt, InputFeet(c.schemas, pt.elem, e), UpdateModified)
    requires UntangledInput(c.schemas, pt.elem, e)
    requires |ItemsAt(db, x)| == if i < sz then sz else i
    ensures var m := AssignOne(c, db, x, pt.elem, e, i, sz);
            var a := AddOne(c, Set(db, x, Items(ItemsAt(db, x)[..i])), x, pt.elem, e, UpdateAll);
            && a.res == m.res
            && (m.res.Ok? ==>
                  && Normal(c, m.db) && Target(c, m.db, x, pt) && FootAt(c.schemas, m.db, x) == FootAt(c.schemas, db, x)
                  && |ItemsAt(m.db, x)| == (if i + 1 < sz then sz else i + 1)
                  && a.db == Set(m.db, x, Items(ItemsAt(m.db, x)[..i + 1])))
    decreases Weight(e), e, 6, 0
  {
    hide Create, WellFormed, ValidSchemas, RowsKept, LegalLog, Replay;
    var items := ItemsAt(db, x);
    var cell := Items(items[..i]);
    var cleared := Set(db, x, cell);
    var current := if i < sz then LinkedRow(items[i]) else None;
    ApartLoose(c, db, x, pt);
    CurrentFromCell(c, db, x, pt);
    SetKeepsWellFormed(c, db, x, cell);
    UnboxAgrees(c, cleared, pt.elem, e, None, current);
    UnboxFrame(c, db, x, cell, pt.elem, e, UpdateModified, current);
    UnboxSpares(c, db, x, pt, e, UpdateModified, current);
    var u := Unbox(c, db, pt.elem, e, UpdateModified, current);
    if u.res.Ok? {
      ElementStored(c, u.db, x, pt, items, u.res.value, i, sz);
    }
  }

  lemma ElementStored(c: Context, db: Db, x: Pos, pt: PropertyType, items: seq<Cell>, item: Cell, i: nat, sz: nat)
    requires pt.Array? && Ready(c, db) && Target(c, db, x, pt) && ItemFits(db, pt.elem, item)
    requires Get(db, x) == Items(items) && |items| == if i < sz then sz else i
    ensures var m := if i >= sz then Apply(db, AddItem(x, item))
                     else if items[i] == item then db
                     else Apply(db, SetItem(x, i, item));
            && Apply(Set(db, x, Items(items[..i])), AddItem(x, item)) == Set(m, x, Items(ItemsAt(m, x)[..i + 1]))
            && Ready(c, m) && Target(c, m, x, pt) && FootAt(c.schemas, m, x) == FootAt(c.schemas, db, x)
            && |ItemsAt(m, x)| == if i + 1 < sz then sz else i + 1
  {
    var items' := if i < sz then items[i := item] else items + [item];
    var m := Set(db, x, Items(items'));
    CurrentFromCell(c, db, x, pt);
    SetKeepsWellFormed(c, db, x, Items(items'));
    GetSet(db, x, Items(items'), x);
    GetSet(db, x, Items(items[..i]), x);
    SetTwice(db, x, Items(items[..i]), Items(items[..i] + [item]));
    assert items'[..i + 1] == items[..i] + [item];
    SetTwice(db, x, Items(items'), Items(items'[..i + 1]));
    if i < sz && items[i] == item {
      assert items' == items;
      SetSame(db, x);
    }
    assert KeyAt(c.schemas, m, x.table, x.row) == KeyAt(c.schemas, db, x.table, x.row);
  }

  lemma {:induction false} TrimResult(db: Db, x: Pos, index: nat, sz: nat)
    requires Has(db, x) && Get(db, x).Items?
    requires |ItemsAt(db, x)| == if index < sz then sz else index
    ensures Trim(db, x, index, sz).res == Ok(())
    ensures Trim(db, x, index, sz).db == Set(db, x, Items(ItemsAt(db, x)[..index]))
    decreases sz
  {
    var items := ItemsAt(db, x);
    if index < sz {
      var db' := Apply(db, RemoveItem(x, sz - 1));
      assert items[..sz - 1] + items[sz..] == items[..sz - 1];
      GetSet(db, x, Items(items[..sz - 1]), x);
      TrimResult(db', x, index, sz - 1);
      assert items[..sz - 1][..index] == items[..index];
      SetTwice(db, x, Items(items[..sz - 1]), Items(items[..index]));
    } else {
      assert items[..index] == items;
      SetSame(db, x);
    }
  }
}

/**
 Descriptions of objects without primary key: which of them update the object that is linked to
 already, and which add a new one.
 */
module Reuse {
  import opened Schema
  import opened Store
  import opened Safety
  import opened Accessor
  import opened Runs
  import opened Footprint
  import opened Upsert
  import opened Agreement
  import opened Meaning
  import opened Fulfilment

  // An element type of objects without primary key.
  predicate Unkeyed(schemas: Schemas, et: ElementType) {
    et.ObjectElement? && et.target in schemas && schemas[et.target].primary.None?
  }

  // What a description leads to, given the link that was there: under UpdateModified that link
  // stays, and otherwise a row is added.
  lemma UnboxRow(c: Context, db: Db, et: ElementType, v: Input, policy: CreatePolicy, current: Option<nat>)
    requires Normal(c, db) && CurrentFits(db, et, current) && Unkeyed(c.schemas, et) && v.Dict?
    ensures var u := Unbox(c, db, et, v, policy, current);
            u.res.Ok? ==>
              && u.res.value == Link(if policy.UpdateModified? && current.Some? then current.value
                                     else RowCount(db, et.target))
              && (!(policy.UpdateModified? && current.Some?) ==> RowCount(u.db, et.target) > RowCount(db, et.target))
  {
    hide Populate, WellFormed, ValidSchemas, LegalLog, Replay;
    if !policy.Skip? {
      UnboxRuns(c, db, et, v, policy, current);
      var slot := GetOrAddRow(c, db, et.target, c.schemas[et.target], v, policy, current);
      GetOrAddRowRuns(c, db, et.target, v, policy, current);
      RunReady(c, db, slot);
      PopulateRuns(c, slot.db, et.target, slot.res.value, v, policy, 0);
      var rest := Populate(c, slot.db, et.target, c.schemas[et.target], slot.res.value, v, policy, 0);
      RunReady(c, slot.db, rest);
      assert RowCount(slot.db, et.target) <= RowCount(rest.db, et.target);
      SlotCount(c, db, et.target, v, policy, current);
    }
  }

  lemma SlotCount(c: Context, db: Db, t: string, value: Input, policy: CreatePolicy, current: Option<nat>)
    requires Normal(c, db) && t in c.schemas && c.schemas[t].primary.None?
    ensures var s := GetOrAddRow(c, db, t, c.schemas[t], value, policy, current);
            && s.res.Ok?
            && (if policy.UpdateModified? && current.Some? then s == Done(db, Slot(current.value, false, true))
                else s.res.value.row == RowCount(db, t) && RowCount(s.db, t) == RowCount(db, t) + 1)
  {
  }

  /** Setting a link from the description of an object without primary key: under UpdateModified the
      object that is linked to is kept, if there is one; otherwise the link ends at a new object. */
  lemma LinkKeptOrNew(c: Context, db: Db, x: Pos, pt: PropertyType, v: Input, policy: CreatePolicy)
    requires Apart(c, db, x, pt, InputFeet(c.schemas, pt.elem, v), policy)
    requires pt.Single? && Unkeyed(c.schemas, pt.elem) && v.Dict?
    ensures var s := SetProperty(c, db, x, pt, v, policy, false);
            s.res.Ok? ==>
              Get(s.db, x) == if policy.UpdateModified? && Get(db, x).Link? then Get(db, x)
                              else Link(RowCount(db, pt.elem.target))
  {
    hide WellFormed, LegalLog, Replay, Unbox;
    var current := LinkedRow(Get(db, x));
    CurrentFromCell(c, db, x, pt);
    var u := Unbox(c, db, pt.elem, v, policy, current);
    UnboxRow(c, db, pt.elem, v, policy, current);
    UnboxSpares(c, db, x, pt, v, policy, current);
    if u.res.Ok? { GetSet(u.db, x, u.res.value, x); }
  }

  // From position `i` on: under `kept` positions of the old list keep their link, and later
  // descriptions have new rows, each after the one before.
  ghost predicate KeptThenNew(schemas: Schemas, et: ElementType, v: Input, before: seq<Cell>, after: seq<Cell>,
          i: nat, kept: nat, count: nat) {
    && v.Vector? && |after| == |v.elements| && kept <= |before|
    && (forall j | i <= j < |after| && v.elements[j].Dict? ::
          if j < kept then after[j] == before[j] else after[j].Link? && after[j].row >= count)
    && (forall j, k | i <= j < k < |after| && j >= kept && v.elements[j].Dict? && v.elements[k].Dict? ::
          after[j].Link? && after[k].Link? && after[j].row < after[k].row)
  }

  /** Assigning descriptions of objects without primary key to a list: under UpdateModified the
      elements that the list has already keep their objects; every other description, and every one
      under the other policies, adds an object of its own. */
  lemma ElementsKeptOrNew(c: Context, db: Db, x: Pos, pt: PropertyType, v: Input, policy: CreatePolicy)
    requires Apart(c, db, x, pt, InputFeet(c.schemas, pt.elem, v), policy) && pt.Array? && v.Vector?
    requires Unkeyed(c.schemas, pt.elem) && ConsistentInput(c.schemas, pt.elem, v, policy) && !policy.Skip?
    ensures var s := Assign(c, db, x, pt.elem, v, policy);
            var before := ItemsAt(db, x);
            s.res.Ok? ==>
              KeptThenNew(c.schemas, pt.elem, v, before, ItemsAt(s.db, x), 0,
                          if policy.UpdateModified? then |before| else 0, RowCount(db, pt.elem.target))
  {
    hide Create, WellFormed, LegalLog, Replay, RowsKept, ValidSchemas;
    ApartLoose(c, db, x, pt);
    if policy.UpdateModified? {
      AssignFromNew(c, db, x, pt, v, 0, |ItemsAt(db, x)|);
    } else {
      StoreRetains(c, db, x, pt, Items([]), policy);
      AddFromNew(c, Set(db, x, Items([])), x, pt, v, 0, policy);
    }
  }

  lemma {:induction false} AddFromNew(c: Context, db: Db, x: Pos, pt: PropertyType, v: Input, i: nat,
          policy: CreatePolicy)
    requires pt.Array? && v.Vector? && i <= |v.elements| && !policy.Skip? && Unkeyed(c.schemas, pt.elem)
    requires Apart(c, db, x, pt, TailFeet(c.schemas, pt.elem, v, i), policy)
    requires ConsistentElements(c.schemas, pt.elem, v, i, policy)
    requires |ItemsAt(db, x)| == i && !policy.UpdateModified?
    ensures var s := AddFrom(c, db, x, pt.elem, v, i, policy);
            s.res.Ok? ==>
              KeptThenNew(c.schemas, pt.elem, v, [], ItemsAt(s.db, x), i, 0, RowCount(db, pt.elem.target))
    decreases |v.elements| - i
  {
    hide Create, WellFormed, LegalLog, Replay, RowsKept, ValidSchemas, Retains, Denotes, DenotesAll, AddOne,
        SetIfDifferent;
    CurrentFromCell(c, db, x, pt);
    var all := AddFrom(c, db, x, pt.elem, v, i, policy);
    AddFromHolds(c, Base(policy, db), db, x, pt, v, i, policy);
    if i < |v.elements| && all.res.Ok? {
      var s := AddOne(c, db, x, pt.elem, v.elements[i], policy);
      ElementHolds(c, db, x, pt, v.elements[i], i, i, policy);
      RetainsNormal(c, db, s.db, InputClaims(c.schemas, pt.elem, v.elements[i]), policy, TheCell(x));
      ElementRow(c, db, x, pt, v.elements[i], i, i, policy);
      AddFromHolds(c, Base(policy, s.db), s.db, x, pt, v, i + 1, policy);
      AddFromNew(c, s.db, x, pt, v, i + 1, policy);
      assert ItemsAt(all.db, x)[i] == ItemsAt(all.db, x)[..i + 1][i];
      NewStep(c.schemas, pt.elem, v, [], ItemsAt(s.db, x), ItemsAt(all.db, x), i, 0, RowCount(db, pt.elem.target),
              RowCount(s.db, pt.elem.target));
    }
  }

  lemma {:induction false} AssignFromNew(c: Context, db: Db, x: Pos, pt: PropertyType, v: Input, i: nat, sz: nat)
    requires pt.Array? && v.Vector? && i <= |v.elements| && Unkeyed(c.schemas, pt.elem)
    requires Apart(c, db, x, pt, TailFeet(c.schemas, pt.elem, v, i), UpdateModified)
    requires ConsistentElements(c.schemas, pt.elem, v, i, UpdateModified)
    requires |ItemsAt(db, x)| == if i < sz then sz else i
    ensures var s := AssignFrom(c, db, x, pt.elem, v, i, sz);
            s.res.Ok? ==>
              KeptThenNew(c.schemas, pt.elem, v, ItemsAt(db, x), ItemsAt(s.db, x), i, sz, RowCount(db, pt.elem.target))
    decreases |v.elements| - i
  {
    hide Create, WellFormed, LegalLog, Replay, RowsKept, ValidSchemas, Retains, Denotes, DenotesAll, AddOne,
        SetIfDifferent;
    CurrentFromCell(c, db, x, pt);
    var all := AssignFrom(c, db, x, pt.elem, v, i, sz);
    AssignFromHolds(c, db, x, pt, v, i, sz);
    if i < |v.elements| && all.res.Ok? {
      var s := AssignOne(c, db, x, pt.elem, v.elements[i], i, sz);
      ElementHolds(c, db, x, pt, v.elements[i], i, sz, UpdateModified);
      RetainsNormal(c, db, s.db, InputClaims(c.schemas, pt.elem, v.elements[i]), UpdateModified, TheCell(x));
      ElementRow(c, db, x, pt, v.elements[i], i, sz, UpdateModified);
      AssignFromHolds(c, s.db, x, pt, v, i + 1, sz);
      AssignFromNew(c, s.db, x, pt, v, i + 1, sz);
      assert ItemsAt(all.db, x)[i] == ItemsAt(all.db, x)[..i + 1][i];
      NewStep(c.schemas, pt.elem, v, ItemsAt(db, x), ItemsAt(s.db, x), ItemsAt(all.db, x), i, sz,
              RowCount(db, pt.elem.target), RowCount(s.db, pt.elem.target));
    }
  }

  // One element before the rest.
  lemma NewStep(schemas: Schemas, et: ElementType, v: Input, before: seq<Cell>, mid: seq<Cell>, after: seq<Cell>,
          i: nat, kept: nat, count: nat, count': nat)
    requires v.Vector? && i < |v.elements| && kept <= |before| && i < |mid|
    requires |mid| >= kept && KeptThenNew(schemas, et, v, if kept == 0 then [] else mid, after, i + 1, kept, count')
    requires after[i] == mid[i] && count <= count' && forall j | i < j < kept :: mid[j] == before[j]
    requires v.elements[i].Dict? ==>
               if i < kept then mid[i] == before[i] else mid[i] == Link(count) && count < count'
    ensures KeptThenNew(schemas, et, v, before, after, i, kept, count)
  {
  }

  // One element: its link, and the others as they were.
  lemma ElementRow(c: Context, db: Db, x: Pos, pt: PropertyType, e: Input, i: nat, sz: nat, policy: CreatePolicy)
    requires pt.Array? && !policy.Skip? && (i < sz ==> policy.UpdateModified?) && Unkeyed(c.schemas, pt.elem)
    requires Apart(c, db, x, pt, InputFeet(c.schemas, pt.elem, e), policy)
    requires |ItemsAt(db, x)| == if i < sz then sz else i
    ensures var s := if i < sz then SetIfDifferent(c, db, x, pt.elem, e, i) else AddOne(c, db, x, pt.elem, e, policy);
            var items, items' := ItemsAt(db, x), ItemsAt(s.db, x);
            var target := pt.elem.target;
            s.res.Ok? ==>
              && |items'| == (if i + 1 < sz then sz else i + 1)
              && (forall j | i < j < |items| :: items'[j] == items[j])
              && RowCount(db, target) <= RowCount(s.db, target)
              && (e.Dict? && i < sz ==> items'[i] == items[i])
              && (e.Dict? && i >= sz ==>
                    items'[i] == Link(RowCount(db, target)) && RowCount(s.db, target) > RowCount(db, target))
  {
    hide WellFormed, LegalLog, Replay, RowsKept, ValidSchemas, Unbox;
    var items := ItemsAt(db, x);
    var current := if i < sz then LinkedRow(items[i]) else None;
    CurrentFromCell(c, db, x, pt);
    var u := Unbox(c, db, pt.elem, e, policy, current);
    UnboxSpares(c, db, x, pt, e, policy, current);
    UnboxGrows(c, db, pt.elem, e, policy, current);
    if e.Dict? { UnboxRow(c, db, pt.elem, e, policy, current); }
    if u.res.Ok? {
      var items' := if i < sz then items[i := u.res.value] else items + [u.res.value];
      GetSet(u.db, x, Items(items'), x);
    }
  }

  lemma UnboxGrows(c: Context, db: Db, et: ElementType, v: Input, policy: CreatePolicy, current: Option<nat>)
    requires Normal(c, db) && CurrentFits(db, et, current)
    ensures forall t :: RowCount(db, t) <= RowCount(Unbox(c, db, et, v, policy, current).db, t)
  {
    UnboxRuns(c, db, et, v, policy, current);
    RunReady(c, db, Unbox(c, db, et, v, policy, current));
  }
}

/**
 Inputs that describe one object inside its own description, or twice in conflicting ways. For
 these the promises of `Objects` fail, so their conditions cannot be dropped.
 */
module Reentry {
  import opened Schema
  import opened Store
  import opened Safety
  import opened Accessor
  import opened Footprint
  import opened Meaning
  import opened Objects

  // Objects with an int key and two links; the second link has null as its default.
  const NODE := ObjectSchema(
    [ Property("id", Single(ScalarElement(IntType), false), None),
      Property("next", Single(ObjectElement("Node"), true), None),
      Property("other", Single(ObjectElement("Node"), true), Some(NullInput)) ],
    Some(0), {})

  const CTX := Context(map["Node" := NODE], false)

  function Key(k: int): Input {
    ScalarInput(IntValue(k))
  }

  function At(row: nat, col: nat): Pos {
    Pos("Node", row, col)
  }

  lemma NodeSchemaIsValid()
    ensures ValidSchemas(CTX.schemas)
  {
  }

  // The slot that a create finds or adds for key `k`, and the two links set after it.
  lemma CreateNode(db: Db, value: Input, policy: CreatePolicy, current: Option<nat>)
    requires value.Dict?
    ensures var slot := GetOrAddRow(CTX, db, "Node", NODE, value, policy, current);
            slot.res.Ok? && slot.res.value.skipPrimary ==>
              var s1 := PopulateOne(CTX, slot.db, "Node", NODE, slot.res.value, value, policy, 1);
              s1.res.Ok? ==>
                var s2 := PopulateOne(CTX, s1.db, "Node", NODE, slot.res.value, value, policy, 2);
                s2.res.Ok? ==>
                  Create(CTX, db, "Node", value, policy, current)
                  == Step(s2.db, slot.log + (s1.log + s2.log), Ok(slot.res.value.row))
  {
    hide SetProperty;
    var slot := GetOrAddRow(CTX, db, "Node", NODE, value, policy, current);
    if slot.res.Ok? && slot.res.value.skipPrimary {
      var s1 := PopulateOne(CTX, slot.db, "Node", NODE, slot.res.value, value, policy, 1);
      if s1.res.Ok? {
        var s2 := PopulateOne(CTX, s1.db, "Node", NODE, slot.res.value, value, policy, 2);
        if s2.res.Ok? {
          assert Populate(CTX, s2.db, "Node", NODE, slot.res.value, value, policy, 3) == Done(s2.db, ());
          assert s2.log + [] == s2.log;
          assert Populate(CTX, s1.db, "Node", NODE, slot.res.value, value, policy, 2)
              == Step(s2.db, s2.log, Ok(()));
          assert Populate(CTX, slot.db, "Node", NODE, slot.res.value, value, policy, 1)
              == Step(s2.db, s1.log + s2.log, Ok(()));
          assert PopulateOne(CTX, slot.db, "Node", NODE, slot.res.value, value, policy, 0) == Done(slot.db, ());
          assert [] + (s1.log + s2.log) == s1.log + s2.log;
          assert [] + (s1.log + s2.log) == s1.log + s2.log;
        }
      }
    }
  }

  // Finding the object with key `k` and setting one of its links from a nested description.
  lemma FindAndLink(db: Db, k: int, name: string, nested: Input, row: nat, policy: CreatePolicy, current: Option<nat>)
    requires "Node" in db && FindFirst(db["Node"], 0, Value(IntValue(k))) == Some(row)
    requires (policy.UpdateAll? || policy.UpdateModified?) && name in {"next", "other"} && nested.Dict?
    ensures var col := if name == "next" then 1 else 2;
            var x := At(row, col);
            var s := Create(CTX, db, "Node", Dict(map["id" := Key(k), name := nested], false), policy, current);
            var u := Create(CTX, db, "Node", nested, policy, LinkedRow(Get(db, x)));
            u.res.Ok? ==> s.res == Ok(row) && s.db == StoreCell(u.db, x, Get(db, x), Link(u.res.value), policy).db
  {
    var value := Dict(map["id" := Key(k), name := nested], false);
    var col := if name == "next" then 1 else 2;
    var x := At(row, col);
    var slot := Slot(row, false, true);
    assert GetOrAddRow(CTX, db, "Node", NODE, value, policy, current) == Done(db, slot);
    hide Create, SetProperty, GetOrAddRow;
    CreateNode(db, value, policy, current);
    assert Choose(NODE, value, slot, col) == Put(nested, false);
    assert Choose(NODE, value, slot, 3 - col) == Ignore;
    LinkNested(db, x, nested, policy);
  }

  lemma LinkNested(db: Db, x: Pos, nested: Input, policy: CreatePolicy)
    requires nested.Dict? && !policy.Skip?
    ensures var u := Create(CTX, db, "Node", nested, policy, LinkedRow(Get(db, x)));
            var s := SetProperty(CTX, db, x, Single(ObjectElement("Node"), true), nested, policy, false);
            u.res.Ok? ==> s == Then(u, StoreCell(u.db, x, Get(db, x), Link(u.res.value), policy))
  {
    hide GetOrAddRow, Populate;
  }

  // Adding the object with key `k`, given with its key alone.
  lemma StepNew(db: Db, k: int, policy: CreatePolicy, current: Option<nat>)
    requires "Node" in db && FindFirst(db["Node"], 0, Value(IntValue(k))) == None
    ensures var s := Create(CTX, db, "Node", Dict(map["id" := Key(k)], false), policy, current);
            s.res == Ok(|db["Node"]|) && s.db == db["Node" := db["Node"] + [[Value(IntValue(k)), Null, Null]]]
  {
    var value := Dict(map["id" := Key(k)], false);
    NewSlot(db, k, policy, current);
    CreateNode(db, value, policy, current);
    hide GetOrAddRow, Create, SetProperty;
    var slot := GetOrAddRow(CTX, db, "Node", NODE, value, policy, current);
    assert Choose(NODE, value, slot.res.value, 1) == Ignore;
    assert Choose(NODE, value, slot.res.value, 2) == Put(NullInput, true);
    NullDefaultIsNotWritten(slot.db, At(|db["Node"]|, 2), policy);
  }

  lemma NewSlot(db: Db, k: int, policy: CreatePolicy, current: Option<nat>)
    requires "Node" in db && FindFirst(db["Node"], 0, Value(IntValue(k))) == None
    ensures var slot := GetOrAddRow(CTX, db, "Node", NODE, Dict(map["id" := Key(k)], false), policy, current);
            && slot.res == Ok(Slot(|db["Node"]|, true, true))
            && slot.db == db["Node" := db["Node"] + [[Value(IntValue(k)), Null, Null]]]
  {
    assert EmptyRow(NODE)[0 := Value(IntValue(k))] == [Value(IntValue(k)), Null, Null];
  }

  // Object 1 links to object 7.
  const STORE: Db := map["Node" := [[Value(IntValue(1)), Link(1), Null], [Value(IntValue(7)), Null, Null]]]

  const NINE := Dict(map["id" := Key(9)], false)
  const INNER := Dict(map["id" := Key(1), "next" := NINE], false)
  const MIDDLE := Dict(map["id" := Key(7), "next" := INNER], false)

  // 1 -> 7 -> 1 -> 9: object 1's link is given twice, once to object 7 and once to object 9.
  const TANGLED := Dict(map["id" := Key(1), "next" := MIDDLE], false)

  /** On a tangled input the policies part ways: UpdateAll ends with object 1 linked to 7 as the
      outer description says, UpdateModified with object 1 linked to 9. */
  lemma TangledPoliciesDiffer()
    ensures var a := Create(CTX, STORE, "Node", TANGLED, UpdateAll, None);
            var m := Create(CTX, STORE, "Node", TANGLED, UpdateModified, None);
            && a.res == Ok(0) && m.res == Ok(0)
            && Get(a.db, At(0, 1)) == Link(1)
            && Get(m.db, At(0, 1)) == Link(2)
    ensures !Untangled(CTX.schemas, "Node", TANGLED)
  {
    TangledRun(UpdateAll);
    TangledRun(UpdateModified);
    if Untangled(CTX.schemas, "Node", TANGLED) {
      NodeSchemaIsValid();
      StoreIsReady();
      PoliciesAgree(CTX, STORE, "Node", TANGLED);
    }
  }

  lemma StoreIsReady()
    ensures WellFormed(CTX.schemas, STORE)
  {
    assert RowFits(STORE, NODE, STORE["Node"][0]);
    assert RowFits(STORE, NODE, STORE["Node"][1]);
  }

  lemma TangledRun(policy: CreatePolicy)
    requires policy.UpdateAll? || policy.UpdateModified?
    ensures var s := Create(CTX, STORE, "Node", TANGLED, policy, None);
            s.res == Ok(0) && Get(s.db, At(0, 1)) == if policy.UpdateAll? then Link(1) else Link(2)
  {
    hide Create;
    var rows := STORE["Node"];
    assert FindFirst(rows, 0, Value(IntValue(1))) == Some(0);
    assert FindFirst(rows, 0, Value(IntValue(7))) == Some(1);
    StepNew(STORE, 9, policy, Some(1));
    var db9 := STORE["Node" := rows + [[Value(IntValue(9)), Null, Null]]];
    FindAndLink(STORE, 1, "next", NINE, 0, policy, None);
    var dbI := Set(db9, At(0, 1), Link(2));
    FindAndLink(STORE, 7, "next", INNER, 1, policy, Some(1));
    var dbM := Set(dbI, At(1, 1), Link(0));
    FindAndLink(STORE, 1, "next", MIDDLE, 0, policy, None);
    GetSet(db9, At(0, 1), Link(2), At(0, 1));
    GetSet(dbI, At(1, 1), Link(0), At(0, 1));
    GetSet(dbM, At(0, 1), Link(1), At(0, 1));
  }

  // Two descriptions of object 7, which disagree on its link.
  const ONCE := Dict(map["id" := Key(7), "next" := RowInput("Node", 0)], false)
  const TWICE := Dict(map["id" := Key(7), "next" := RowInput("Node", 1)], false)
  const CLASH := Dict(map["id" := Key(1), "next" := ONCE, "other" := TWICE], false)

  // Objects 1 and 7, with any links.
  predicate TwoNodes(db: Db) {
    && "Node" in db && |db["Node"]| == 2 && |db["Node"][0]| == 3 == |db["Node"][1]|
    && db["Node"][0][0] == Value(IntValue(1)) && db["Node"][1][0] == Value(IntValue(7))
  }

  // Finding object 7 and linking it to a row.
  lemma LinkSeven(db: Db, row: nat, policy: CreatePolicy, current: Option<nat>)
    requires TwoNodes(db) && row < 2
    requires policy.UpdateAll? || policy.UpdateModified?
    ensures var s := Create(CTX, db, "Node", Dict(map["id" := Key(7), "next" := RowInput("Node", row)], false), policy,
                            current);
            var w := StoreCell(db, At(1, 1), Get(db, At(1, 1)), Link(row), policy);
            s == Step(w.db, w.log, Ok(1))
  {
    var value := Dict(map["id" := Key(7), "next" := RowInput("Node", row)], false);
    var slot := Slot(1, false, true);
    assert GetOrAddRow(CTX, db, "Node", NODE, value, policy, current) == Done(db, slot);
    hide Create, GetOrAddRow;
    CreateNode(db, value, policy, current);
    assert Choose(NODE, value, slot, 1) == Put(RowInput("Node", row), false);
    assert Choose(NODE, value, slot, 2) == Ignore;
    var w := StoreCell(db, At(1, 1), Get(db, At(1, 1)), Link(row), policy);
    assert [] + w.log == w.log && [] + (w.log + []) == w.log;
  }

  // One run over CLASH: the two descriptions of object 7 are written one after the other.
  lemma ClashRun(db: Db, policy: CreatePolicy)
    requires TwoNodes(db) && (policy.UpdateAll? || policy.UpdateModified?)
    ensures var s := Create(CTX, db, "Node", CLASH, policy, None);
            && s.res == Ok(0) && Get(s.db, At(0, 1)) == Link(1) && Get(s.db, At(1, 1)) == Link(1)
            && TwoNodes(s.db)
            && (Get(db, At(1, 1)) != Link(0) ==> SetCell(At(1, 1), Link(0)) in s.log)
  {
    hide Create, SetProperty;
    var slot := Slot(0, false, true);
    assert GetOrAddRow(CTX, db, "Node", NODE, CLASH, policy, None) == Done(db, slot);
    hide GetOrAddRow;
    CreateNode(db, CLASH, policy, None);
    assert Choose(NODE, CLASH, slot, 1) == Put(ONCE, false) && Choose(NODE, CLASH, slot, 2) == Put(TWICE, false);
    LinkSeven(db, 0, policy, LinkedRow(Get(db, At(0, 1))));
    LinkNested(db, At(0, 1), ONCE, policy);
    hide Set;
    var d1 := Set(db, At(1, 1), Link(0));
    Linked(db, At(1, 1), Link(0), policy);
    Linked(d1, At(0, 1), Link(1), policy);
    var d2 := Set(d1, At(0, 1), Link(1));
    LinkSeven(d2, 1, policy, LinkedRow(Get(d2, At(0, 2))));
    LinkNested(d2, At(0, 2), TWICE, policy);
    var d3 := Set(d2, At(1, 1), Link(1));
    Linked(d2, At(1, 1), Link(1), policy);
    Linked(d3, At(0, 2), Link(1), policy);
    GetSet(d2, At(1, 1), Link(1), At(0, 1));
    GetSet(d3, At(0, 2), Link(1), At(0, 1));
    GetSet(d3, At(0, 2), Link(1), At(1, 1));
  }

  // Storing a link leaves the keys alone, whether or not the link is there already.
  lemma Linked(db: Db, x: Pos, cell: Cell, policy: CreatePolicy)
    requires TwoNodes(db) && x in {At(1, 1), At(0, 1), At(0, 2)}
    ensures StoreCell(db, x, Get(db, x), cell, policy).db == Set(db, x, cell)
    ensures TwoNodes(Set(db, x, cell)) && Get(Set(db, x, cell), x) == cell
  {
    SetSame(db, x);
    GetSet(db, x, cell, x);
  }

  /** If two descriptions of one object disagree, a create that succeeds makes only one of them
      true, and repeating it writes both again. */
  lemma ConflictingDescriptions()
    ensures var first := Create(CTX, STORE, "Node", CLASH, UpdateAll, None);
            && first.res == Ok(0)
            && !Holds(CTX.schemas, STORE, first.db, "Node", 0, CLASH)
            && !Silent(first.db, Create(CTX, first.db, "Node", CLASH, UpdateModified, None), 0)
    ensures !Consistent(CTX.schemas, "Node", CLASH, UpdateAll)
  {
    hide Create;
    var first := Create(CTX, STORE, "Node", CLASH, UpdateAll, None);
    ClashRun(STORE, UpdateAll);
    ClashRun(first.db, UpdateModified);
    if Holds(CTX.schemas, STORE, first.db, "Node", 0, CLASH) {
      ClashDenied(first.db);
    }
    if Consistent(CTX.schemas, "Node", CLASH, UpdateAll) {
      NodeSchemaIsValid();
      StoreIsReady();
      CreateFulfils(CTX, STORE, "Node", CLASH, UpdateAll);
    }
  }

  lemma ClashDenied(db: Db)
    requires Holds(CTX.schemas, STORE, db, "Node", 0, CLASH) && Get(db, At(0, 1)) == Link(1)
    ensures Get(db, At(1, 1)) == Link(0)
  {
    assert HoldsFields(CTX.schemas, STORE, db, "Node", NODE, 0, CLASH, 1);
    assert HoldsField(CTX.schemas, STORE, db, "Node", NODE, 0, CLASH, 1);
    assert HoldsInput(CTX.schemas, STORE, db, At(0, 1), Single(ObjectElement("Node"), true), ONCE);
    assert Denotes(CTX.schemas, STORE, db, ObjectElement("Node"), ONCE, Link(1));
    assert Holds(CTX.schemas, STORE, db, "Node", 1, ONCE);
    assert HoldsFields(CTX.schemas, STORE, db, "Node", NODE, 1, ONCE, 1);
    assert HoldsField(CTX.schemas, STORE, db, "Node", NODE, 1, ONCE, 1);
  }

  lemma NullDefaultIsNotWritten(db: Db, x: Pos, policy: CreatePolicy)
    ensures SetProperty(CTX, db, x, Single(ObjectElement("Node"), true), NullInput, policy, true) == Done(db, ())
  {
  }

  const FIVE := Dict(map["id" := Key(5)], false)
  const AGAIN := Dict(map["id" := Key(1), "other" := FIVE], false)
  const SELF := Dict(map["id" := Key(1), "next" := AGAIN], false)

  const NONE: Db := map["Node" := []]
  const ONE: Db := map["Node" := [[Value(IntValue(1)), Null, Null]]]
  const TWO: Db := map["Node" := [[Value(IntValue(1)), Null, Link(1)], [Value(IntValue(5)), Null, Null]]]

  lemma SelfSlot()
    ensures GetOrAddRow(CTX, NONE, "Node", NODE, SELF, UpdateAll, None)
         == Step(ONE, [NewRow("Node", ONE["Node"][0])], Ok(Slot(0, true, true)))
    ensures Choose(NODE, SELF, Slot(0, true, true), 1) == Put(AGAIN, false)
    ensures Choose(NODE, SELF, Slot(0, true, true), 2) == Put(NullInput, true)
  {
    assert EmptyRow(NODE)[0 := Value(IntValue(1))] == [Value(IntValue(1)), Null, Null];
    assert [] + [[Value(IntValue(1)), Null, Null]] == [[Value(IntValue(1)), Null, Null]];
    assert FindFirst(NONE["Node"], 0, Value(IntValue(1))) == None;
  }

  lemma AgainRun()
    ensures Create(CTX, ONE, "Node", AGAIN, UpdateAll, None).res == Ok(0)
    ensures Create(CTX, ONE, "Node", AGAIN, UpdateAll, None).db == TWO
  {
    hide Create, SetProperty;
    assert FindFirst(ONE["Node"], 0, Value(IntValue(1))) == Some(0);
    assert FindFirst(ONE["Node"], 0, Value(IntValue(5))) == None;
    StepNew(ONE, 5, UpdateAll, None);
    FindAndLink(ONE, 1, "other", FIVE, 0, UpdateAll, None);
    var five := ONE["Node" := ONE["Node"] + [[Value(IntValue(5)), Null, Null]]];
    assert five["Node"] == [[Value(IntValue(1)), Null, Null], [Value(IntValue(5)), Null, Null]];
    assert [Value(IntValue(1)), Null, Null][2 := Link(1)] == [Value(IntValue(1)), Null, Link(1)];
    assert Set(five, At(0, 2), Link(1))["Node"] == TWO["Node"];
    assert Set(five, At(0, 2), Link(1)) == TWO;
  }

  /** On an input that describes a new object again inside its own description, the null default
      of `other` does not reach the object: its link stays at what the inner description set. */
  lemma StaleDefaultLink()
    ensures var s := Create(CTX, NONE, "Node", SELF, UpdateAll, None);
            && s.res == Ok(0)
            && "other" !in SELF.fields
            && Get(s.db, At(0, 2)) == Link(1)
  {
    hide Create, SetProperty, GetOrAddRow, Choose;
    SelfSlot();
    AgainRun();
    CreateNode(NONE, SELF, UpdateAll, None);
    LinkNested(ONE, At(0, 1), AGAIN, UpdateAll);
    NullDefaultIsNotWritten(Set(TWO, At(0, 1), Link(0)), At(0, 2), UpdateAll);
    GetSet(TWO, At(0, 1), Link(0), At(0, 2));
  }
}

/**
 A create that succeeds makes its input true, for every consistent input and every policy: the
 object and all objects nested in it exist, with every property the input provides.
 */
module Fulfilment {
  import opened Schema
  import opened Store
  import opened Safety
  import opened Accessor
  import opened Keys
  import opened Runs
  import opened Footprint
  import opened Upsert
  import opened Frame
  import opened Agreement
  import opened Meaning

  // ---- What an operation leaves alone ----

  // Where an operation writes of its own accord.
  datatype Region = Nowhere | TheCell(at: Pos) | TheRow(table: string, row: nat) | TheCells(cells: set<Pos>) {
    predicate Covers(x: Pos) {
      match this
      case Nowhere => false
      case TheCell(at) => x == at
      case TheRow(t, r) => x.table == t && x.row == r
      case TheCells(cells) => x in cells
    }
  }

  // Outside its region, every cell is as it was or is what the operation's claims say of it.
  ghost predicate Retains(c: Context, db: Db, db': Db, claims: set<Claim>, policy: CreatePolicy, region: Region) {
    && Normal(c, db) && Normal(c, db') && RowsKept(c.schemas, db, db', true)
    && forall x | Open(c, db, x) && !region.Covers(x) :: CellKept(c, db, db', x, claims, policy)
  }

  ghost predicate Unread(c: Context, base: Db, db: Db, region: Region, claims: set<Claim>, policy: CreatePolicy) {
    forall x | region.Covers(x) :: !Reads(c, base, db, x, claims, policy)
  }

  lemma CellUnread(c: Context, db: Db, db': Db, x: Pos, claims: set<Claim>, policy: CreatePolicy)
    requires Has(db, x) && Outside(c, db', x, Named(claims), policy)
    ensures Unread(c, Base(policy, db), db', TheCell(x), claims, policy)
  {
  }

  lemma RetainsKeeps(c: Context, base: Db, db: Db, db': Db, claims: set<Claim>, added: set<Claim>,
          policy: CreatePolicy, region: Region)
    requires Retains(c, db, db', added, policy, region) && Compatible(c.schemas, claims, added, policy)
    requires Older(base, Base(policy, db)) && Unread(c, base, db, region, claims, policy)
    ensures Keeps(c, base, db, db', claims, added, policy)
  {
  }

  lemma CellKeptMore(c: Context, db: Db, db': Db, x: Pos, claims: set<Claim>, more: set<Claim>, policy: CreatePolicy)
    requires CellKept(c, db, db', x, claims, policy) && claims <= more
    ensures CellKept(c, db, db', x, more, policy)
  {
    if Get(db', x) != Get(db, x) {
      var v :| Claimed(c, db, db', x, claims, policy, v);
      assert Claimed(c, db, db', x, more, policy, v);
    }
  }

  lemma RetainsMore(c: Context, db: Db, db': Db, claims: set<Claim>, region: Region, more: set<Claim>, wider: Region,
          policy: CreatePolicy)
    requires Retains(c, db, db', claims, policy, region) && claims <= more
    requires forall x | region.Covers(x) :: wider.Covers(x)
    ensures Retains(c, db, db', more, policy, wider)
  {
    forall x | Open(c, db, x) && !wider.Covers(x) ensures CellKept(c, db, db', x, more, policy) {
      CellKeptMore(c, db, db', x, claims, more, policy);
    }
  }

  lemma FootKept(c: Context, db: Db, db': Db, x: Pos)
    requires Open(c, db, x) && Normal(c, db') && RowsKept(c.schemas, db, db', true)
    ensures Open(c, db', x) && FootAt(c.schemas, db', x) == FootAt(c.schemas, db, x)
    ensures x.col < |c.schemas[x.table].props|
  {
    assert RowCount(db, x.table) <= RowCount(db', x.table);
    assert RowFits(db, c.schemas[x.table], db[x.table][x.row]);
    assert RowFits(db', c.schemas[x.table], db'[x.table][x.row]);
    if c.schemas[x.table].primary.Some? {
      assert KeyAt(c.schemas, db', x.table, x.row) == KeyAt(c.schemas, db, x.table, x.row);
    }
  }

  lemma BaseGrows(c: Context, db: Db, db': Db, policy: CreatePolicy)
    requires RowsKept(c.schemas, db, db', true)
    ensures Older(Base(policy, db), Base(policy, db'))
  {
  }

  // One operation after another.
  lemma RetainsThen(c: Context, db: Db, mid: Db, db': Db, first: set<Claim>, second: set<Claim>,
          policy: CreatePolicy, region: Region)
    requires Retains(c, db, mid, first, policy, region) && Retains(c, mid, db', second, policy, region)
    requires Compatible(c.schemas, first, second, policy)
    requires Unread(c, Base(policy, db), mid, region, first, policy)
    ensures Retains(c, db, db', first + second, policy, region)
  {
    hide Reads, Unread, Claimed, Compatible, HoldsInput, WellFormed;
    RowsKeptTransitive(c.schemas, db, mid, db');
    forall x | Open(c, db, x) && !region.Covers(x) ensures CellKept(c, db, db', x, first + second, policy) {
      CellKeptThen(c, db, mid, db', x, first, second, policy, region);
    }
  }

  // A claim made after `mid` was made after `db`.
  lemma ClaimedSince(c: Context, db: Db, mid: Db, db': Db, x: Pos, claims: set<Claim>, policy: CreatePolicy)
    requires Open(c, db, x) && Normal(c, mid) && Normal(c, db')
    requires RowsKept(c.schemas, db, mid, true) && RowsKept(c.schemas, mid, db', true)
    requires CellKept(c, mid, db', x, claims, policy) && (Get(db', x) == Get(mid, x) ==> Get(mid, x) == Get(db, x))
    ensures CellKept(c, db, db', x, claims, policy)
  {
    FootKept(c, db, mid, x);
    BaseGrows(c, db, mid, policy);
    BaseGrows(c, mid, db', policy);
    hide HoldsInput, WellFormed, ValidSchemas, RowsKept;
    if Get(db', x) != Get(mid, x) {
      var v :| Claimed(c, mid, db', x, claims, policy, v);
      RebasedInput(c, Base(policy, mid), Base(policy, db), db', x, c.schemas[x.table].props[x.col].ptype, v, policy);
      assert Claimed(c, db, db', x, claims, policy, v);
    }
  }

  lemma CellKeptThen(c: Context, db: Db, mid: Db, db': Db, x: Pos, first: set<Claim>, second: set<Claim>,
          policy: CreatePolicy, region: Region)
    requires Retains(c, db, mid, first, policy, region) && Retains(c, mid, db', second, policy, region)
    requires Compatible(c.schemas, first, second, policy)
    requires Unread(c, Base(policy, db), mid, region, first, policy)
    requires Open(c, db, x) && !region.Covers(x)
    ensures CellKept(c, db, db', x, first + second, policy)
  {
    FootKept(c, db, mid, x);
    BaseGrows(c, db, mid, policy);
    BaseGrows(c, mid, db', policy);
    assert CellKept(c, db, mid, x, first, policy) && CellKept(c, mid, db', x, second, policy);
    hide Reads, Unread, HoldsInput, WellFormed, ValidSchemas, RowsKept;
    if Get(db', x) != Get(mid, x) {
      ClaimedSince(c, db, mid, db', x, second, policy);
      CellKeptMore(c, db, db', x, second, first + second, policy);
    } else if Get(mid, x) != Get(db, x) {
      var v :| Claimed(c, db, mid, x, first, policy, v);
      var pt := c.schemas[x.table].props[x.col].ptype;
      RetainsKeeps(c, Base(policy, db), mid, db', first, second, policy, region);
      KeepsFewer(c, Base(policy, db), mid, db', first, second, policy, InputClaims(c.schemas, pt.elem, v));
      HoldsInputKept(c, Base(policy, db), Base(policy, db), mid, db', x, pt, v, second, policy);
      assert Claimed(c, db, db', x, first + second, policy, v);
    }
  }

  lemma RetainsSame(c: Context, db: Db, claims: set<Claim>, policy: CreatePolicy, region: Region)
    requires Normal(c, db)
    ensures Retains(c, db, db, claims, policy, region)
  {
  }

  // Storing into a cell.
  lemma StoreRetains(c: Context, db: Db, x: Pos, pt: PropertyType, cell: Cell, policy: CreatePolicy)
    requires Normal(c, db) && Target(c, db, x, pt) && CellFits(db, pt, cell)
    ensures Retains(c, db, Set(db, x, cell), {}, policy, TheCell(x))
    ensures Target(c, Set(db, x, cell), x, pt) && Get(Set(db, x, cell), x) == cell
    ensures FootAt(c.schemas, Set(db, x, cell), x) == FootAt(c.schemas, db, x)
  {
    var db' := Set(db, x, cell);
    SetKeepsWellFormed(c, db, x, cell);
    GetSet(db, x, cell, x);
    assert KeyAt(c.schemas, db', x.table, x.row) == KeyAt(c.schemas, db, x.table, x.row);
    WriteKeepsRows(c, db, if pt.Array? then ClearItems(x) else SetCell(x, cell));
    forall t, r: nat | t in c.schemas && c.schemas[t].primary.Some? && r < RowCount(db, t)
      ensures KeyAt(c.schemas, db', t, r) == KeyAt(c.schemas, db, t, r)
    {
      GetSet(db, x, cell, Pos(t, r, c.schemas[t].primary.value));
    }
    forall y | Open(c, db, y) && y != x ensures CellKept(c, db, db', y, {}, policy) {
      GetSet(db, x, cell, y);
    }
  }

  // ---- Rows ----

  lemma SlotIsFirst(c: Context, db: Db, t: string, value: Input, policy: CreatePolicy, current: Option<nat>)
    requires Normal(c, db) && t in c.schemas && c.schemas[t].primary.Some?
    ensures var s := GetOrAddRow(c, db, t, c.schemas[t], value, policy, current);
            s.res.Ok? ==> RowFor(c.schemas, s.db, t, value) == Some(s.res.value.row) && value.Dict?
  {
    var os := c.schemas[t];
    var s := GetOrAddRow(c, db, t, os, value, policy, current);
    if s.res.Ok? && s.log != [] {
      var pk := os.primary.value;
      assert forall r | 0 <= r < |db[t]| :: s.db[t][r] == db[t][r];
      assert s.db[t][|db[t]|][pk] == KeyFor(os, value).value;
      assert forall r | 0 <= r < |db[t]| :: RowFits(db, os, db[t][r]);
    }
  }

  // Finding or adding the row changes no cell; unless it can be found, the row is new.
  lemma SlotRetains(c: Context, db: Db, t: string, value: Input, policy: CreatePolicy, current: Option<nat>)
    requires Normal(c, db) && t in c.schemas && (current.Some? ==> current.value < RowCount(db, t)) && value.Dict?
    ensures var s := GetOrAddRow(c, db, t, c.schemas[t], value, policy, current);
            s.res.Ok? ==>
              && Retains(c, db, s.db, {}, policy, Nowhere)
              && SlotOf(c, s.db, t, s.res.value, value)
              && (s.res.value.created ==> s.res.value.row == RowCount(db, t))
              && (!Shared(c.schemas, t, policy) ==> s.res.value.created)
  {
    var s := GetOrAddRow(c, db, t, c.schemas[t], value, policy, current);
    GetOrAddRowRuns(c, db, t, value, policy, current);
    SlotUpserts(c, db, t, value, policy, current);
    if s.res.Ok? {
      SlotRow(c, db, t, value, policy, current);
      hide GetOrAddRow, FindFirst, LegalLog;
      RunReady(c, db, s);
    }
  }

  lemma SlotRow(c: Context, db: Db, t: string, value: Input, policy: CreatePolicy, current: Option<nat>)
    requires Normal(c, db) && t in c.schemas
    requires GetOrAddRow(c, db, t, c.schemas[t], value, policy, current).res.Ok?
    ensures var s := GetOrAddRow(c, db, t, c.schemas[t], value, policy, current);
            && (s.res.value.created ==> s.res.value.row == RowCount(db, t))
            && (!Shared(c.schemas, t, policy) ==> s.res.value.created)
            && forall x | Has(db, x) :: Get(s.db, x) == Get(db, x)
  {
    hide FindFirst, KeyFor;
  }

  // The cells of the object's own row are out of reach for what is nested in its description.
  lemma RowUnread(c: Context, db: Db, db': Db, t: string, slot: Slot, value: Input, claims: set<Claim>,
          policy: CreatePolicy)
    requires SlotOf(c, db, t, slot, value) && SlotOf(c, db', t, slot, value)
    requires Shared(c.schemas, t, policy) ==>
               Elsewhere(c.schemas[t], t, Identity(c.schemas[t], value).value, Named(claims))
    ensures Unread(c, Base(policy, db), db', TheRow(t, slot.row), claims, policy)
  {
  }

  lemma {:induction false} CreateHolds(c: Context, db: Db, t: string, value: Input, policy: CreatePolicy,
          current: Option<nat>)
    requires Normal(c, db) && Consistent(c.schemas, t, value, policy) && !policy.Skip?
    requires current.Some? ==> current.value < RowCount(db, t)
    ensures var s := Create(c, db, t, value, policy, current);
            s.res.Ok? ==>
              && Holds(c.schemas, Base(policy, db), s.db, t, s.res.value, value)
              && Retains(c, db, s.db, Claims(c.schemas, t, value), policy, Nowhere)
    decreases Weight(value), value, 2, 0
  {
    hide WellFormed, ValidSchemas, RowsKept, LegalLog, Replay, HoldsFields, SetProperty, Populate;
    if !value.Dict? {
      CreateOnlyFromDict(c, db, t, value, policy, current);
    } else if t in c.schemas {
      var s := Create(c, db, t, value, policy, current);
      var slot := GetOrAddRow(c, db, t, c.schemas[t], value, policy, current);
      if s.res.Ok? {
        SlotRetains(c, db, t, value, policy, current);
        BaseGrows(c, db, slot.db, policy);
        PopulateHolds(c, Base(policy, db), slot.db, t, slot.res.value, value, policy, 0);
        CreatedHolds(c, db, t, value, policy, current);
      }
    }
  }

  // After the loop the object holds, and what was there before the row was looked up is kept.
  lemma CreatedHolds(c: Context, db: Db, t: string, value: Input, policy: CreatePolicy, current: Option<nat>)
    requires Normal(c, db) && t in c.schemas && value.Dict? && (current.Some? ==> current.value < RowCount(db, t))
    requires ConsistentFields(c.schemas, t, c.schemas[t], value, 0, policy)
    requires var slot := GetOrAddRow(c, db, t, c.schemas[t], value, policy, current);
             && slot.res.Ok?
             && var s := Populate(c, slot.db, t, c.schemas[t], slot.res.value, value, policy, 0);
                var row := slot.res.value.row;
             && Retains(c, slot.db, s.db, NestedClaims(c.schemas, c.schemas[t], value, 0), policy, TheRow(t, row))
             && HoldsFields(c.schemas, Base(policy, db), s.db, t, c.schemas[t], row, value, 0)
    ensures var slot := GetOrAddRow(c, db, t, c.schemas[t], value, policy, current);
            var s := Populate(c, slot.db, t, c.schemas[t], slot.res.value, value, policy, 0);
            && Holds(c.schemas, Base(policy, db), s.db, t, slot.res.value.row, value)
            && Retains(c, db, s.db, Claims(c.schemas, t, value), policy, Nowhere)
  {
    hide WellFormed, ValidSchemas, HoldsFields, Populate, GetOrAddRow, FindFirst;
    var os := c.schemas[t];
    var slot := GetOrAddRow(c, db, t, os, value, policy, current);
    var db' := Populate(c, slot.db, t, os, slot.res.value, value, policy, 0).db;
    var claims := Claims(c.schemas, t, value);
    SlotRetains(c, db, t, value, policy, current);
    RowsKeptTransitive(c.schemas, db, slot.db, db');
    if os.primary.Some? {
      SlotIsFirst(c, db, t, value, policy, current);
      RowForKept(c, slot.db, db', t, value);
    }
    assert RowCount(slot.db, t) <= RowCount(db', t);
    forall x | Open(c, db, x) ensures CellKept(c, db, db', x, claims, policy) {
      assert CellKept(c, db, slot.db, x, {}, policy);
      FootKept(c, db, slot.db, x);
      if x.table == t && x.row == slot.res.value.row {
        OwnCellKept(c, Base(policy, db), slot.db, t, slot.res.value, value, policy, x.col);
        if Get(db', x) != Get(slot.db, x) {
          assert Claimed(c, db, db', x, claims, policy, value.fields[os.props[x.col].name]);
        }
      } else {
        CellKeptMore(c, slot.db, db', x, NestedClaims(c.schemas, os, value, 0), claims, policy);
        ClaimedSince(c, db, slot.db, db', x, claims, policy);
      }
    }
  }

  // A cell of an object that was found is as it was, or as its description says.
  lemma OwnCellKept(c: Context, base: Db, db: Db, t: string, slot: Slot, value: Input, policy: CreatePolicy, j: nat)
    requires Normal(c, db) && SlotOf(c, db, t, slot, value) && value.Dict? && !slot.created
    requires j < |c.schemas[t].props| && !c.schemas[t].IsPrimary(j) && Shared(c.schemas, t, policy)
    requires ConsistentFields(c.schemas, t, c.schemas[t], value, 0, policy)
    requires HoldsFields(c.schemas, base, Populate(c, db, t, c.schemas[t], slot, value, policy, 0).db, t, c.schemas[t],
                         slot.row, value, 0)
    ensures var os := c.schemas[t];
            var db' := Populate(c, db, t, os, slot, value, policy, 0).db;
            var x := Pos(t, slot.row, j);
            || Get(db', x) == Get(db, x)
            || (&& os.props[j].name in value.fields
                && var v := value.fields[os.props[j].name];
                && Claim(FootAt(c.schemas, db, x), v) in OwnClaims(os, t, value)
                && InputClaims(c.schemas, os.props[j].ptype.elem, v) <= NestedClaims(c.schemas, os, value, 0)
                && HoldsInput(c.schemas, base, db', x, os.props[j].ptype, v))
  {
    hide Populate, HoldsInput;
    var os := c.schemas[t];
    if os.props[j].name in value.fields {
      OwnFoot(os, t, value, j);
      FieldClaimsNested(c.schemas, os, value, 0, j);
      HoldsAtField(c.schemas, base, Populate(c, db, t, os, slot, value, policy, 0).db, t, slot.row, value, 0, j);
    } else {
      assert RowFits(db, os, db[t][slot.row]);
      ConsistentElsewhere(c.schemas, t, os, value, 0, policy);
      PopulateSpares(c, db, Pos(t, slot.row, j), t, slot, value, policy, 0);
    }
  }

  // ---- Properties ----

  lemma {:induction false} PopulateHolds(c: Context, base: Db, db: Db, t: string, slot: Slot, value: Input,
          policy: CreatePolicy, i: nat)
    requires Normal(c, db) && SlotOf(c, db, t, slot, value) && value.Dict? && !policy.Skip?
    requires ConsistentFields(c.schemas, t, c.schemas[t], value, i, policy) && Older(base, Base(policy, db))
    ensures var s := Populate(c, db, t, c.schemas[t], slot, value, policy, i);
            s.res.Ok? ==>
              && HoldsFields(c.schemas, base, s.db, t, c.schemas[t], slot.row, value, i)
              && Retains(c, db, s.db, NestedClaims(c.schemas, c.schemas[t], value, i), policy, TheRow(t, slot.row))
    decreases Weight(value), value, 1, |c.schemas[t].props| + 1 - i
  {
    hide Create, WellFormed, ValidSchemas, LegalLog, Replay, Retains, Compatible, HoldsField, SetProperty;
    var os := c.schemas[t];
    var own := TheRow(t, slot.row);
    if i >= |os.props| {
      RetainsSame(c, db, {}, policy, own);
    } else if Populate(c, db, t, os, slot, value, policy, i).res.Ok? {
      var s := PopulateOne(c, db, t, os, slot, value, policy, i);
      var rest := Populate(c, s.db, t, os, slot, value, policy, i + 1);
      PopulateOneRuns(c, db, t, slot, value, policy, i);
      RunReady(c, db, s);
      SlotOfKept(c, db, s, t, slot, value);
      BaseGrows(c, db, s.db, policy);
      PopulateOneHolds(c, db, t, slot, value, policy, i);
      PopulateHolds(c, base, s.db, t, slot, value, policy, i + 1);
      FieldStays(c, base, db, s.db, t, slot, value, policy, i);
      RetainsMore(c, db, s.db, FieldClaims(c.schemas, os, value, i), TheCell(Pos(t, slot.row, i)),
                  FieldClaims(c.schemas, os, value, i), own, policy);
      RowUnread(c, db, s.db, t, slot, value, FieldClaims(c.schemas, os, value, i), policy);
      RetainsThen(c, db, s.db, rest.db, FieldClaims(c.schemas, os, value, i),
                  NestedClaims(c.schemas, os, value, i + 1), policy, own);
    }
  }

  lemma SlotOfKept<A>(c: Context, db: Db, s: Step<A>, t: string, slot: Slot, value: Input)
    requires Normal(c, db) && Run(c, db, s) && SlotOf(c, db, t, slot, value)
    ensures SlotOf(c, s.db, t, slot, value)
  {
    RunReady(c, db, s);
    assert RowCount(db, t) <= RowCount(s.db, t);
    assert KeyAt(c.schemas, s.db, t, slot.row) == KeyAt(c.schemas, db, t, slot.row);
  }

  // What one property was set to survives the rest of the loop.
  lemma FieldStays(c: Context, base: Db, db: Db, mid: Db, t: string, slot: Slot, value: Input, policy: CreatePolicy,
          i: nat)
    requires Normal(c, db) && SlotOf(c, db, t, slot, value) && SlotOf(c, mid, t, slot, value) && value.Dict?
    requires i < |c.schemas[t].props| && ConsistentFields(c.schemas, t, c.schemas[t], value, i, policy)
    requires Older(base, Base(policy, db)) && Older(Base(policy, db), Base(policy, mid))
    requires HoldsField(c.schemas, Base(policy, db), mid, t, c.schemas[t], slot.row, value, i)
    requires var rest := Populate(c, mid, t, c.schemas[t], slot, value, policy, i + 1);
             Retains(c, mid, rest.db, NestedClaims(c.schemas, c.schemas[t], value, i + 1), policy,
                     TheRow(t, slot.row))
    ensures var rest := Populate(c, mid, t, c.schemas[t], slot, value, policy, i + 1);
            HoldsField(c.schemas, base, rest.db, t, c.schemas[t], slot.row, value, i)
  {
    hide Populate, HoldsInput, WellFormed;
    var os := c.schemas[t];
    if os.props[i].name in value.fields && !os.IsPrimary(i) {
      var v := value.fields[os.props[i].name];
      var x := Pos(t, slot.row, i);
      var rest := Populate(c, mid, t, os, slot, value, policy, i + 1);
      SlotOpen(c, mid, t, slot, i);
      if Shared(c.schemas, t, policy) { ConsistentElsewhere(c.schemas, t, os, value, i + 1, policy); }
      PopulateSpares(c, mid, x, t, slot, value, policy, i + 1);
      RowUnread(c, db, mid, t, slot, value, FieldClaims(c.schemas, os, value, i), policy);
      RetainsKeeps(c, Base(policy, db), mid, rest.db, FieldClaims(c.schemas, os, value, i),
                   NestedClaims(c.schemas, os, value, i + 1), policy, TheRow(t, slot.row));
      HoldsInputKept(c, Base(policy, db), base, mid, rest.db, x, os.props[i].ptype, v,
                     NestedClaims(c.schemas, os, value, i + 1), policy);
    } else {
      KeyStays(c, Base(policy, db), base, mid, t, slot, value, policy, i);
    }
  }

  lemma KeyStays(c: Context, base: Db, base': Db, db: Db, t: string, slot: Slot, value: Input, policy: CreatePolicy,
          i: nat)
    requires Normal(c, db) && SlotFits(c, db, t, slot) && value.Dict? && i < |c.schemas[t].props|
    requires c.schemas[t].IsPrimary(i) || c.schemas[t].props[i].name !in value.fields
    requires HoldsField(c.schemas, base, db, t, c.schemas[t], slot.row, value, i)
    ensures var rest := Populate(c, db, t, c.schemas[t], slot, value, policy, i + 1);
            HoldsField(c.schemas, base', rest.db, t, c.schemas[t], slot.row, value, i)
  {
    hide Populate;
    PopulateRuns(c, db, t, slot, value, policy, i + 1);
    var rest := Populate(c, db, t, c.schemas[t], slot, value, policy, i + 1);
    RunReady(c, db, rest);
    if c.schemas[t].props[i].name in value.fields {
      KeyFieldKept(c, base, base', db, rest.db, t, slot.row, value, i);
    }
  }

  // The key of the object's row is the one its description gives.
  lemma KeyHolds(c: Context, base: Db, db: Db, t: string, slot: Slot, value: Input, i: nat)
    requires Normal(c, db) && SlotOf(c, db, t, slot, value) && value.Dict? && c.schemas[t].IsPrimary(i)
    ensures i < |c.schemas[t].props| && HoldsField(c.schemas, base, db, t, c.schemas[t], slot.row, value, i)
  {
    var os := c.schemas[t];
    assert ValidObjectSchema(c.schemas, os);
    KeyForExact(os, value);
    assert KeyIs(os, value, Get(db, Pos(t, slot.row, i)));
  }

  lemma SlotOpen(c: Context, db: Db, t: string, slot: Slot, i: nat)
    requires Normal(c, db) && SlotFits(c, db, t, slot) && i < |c.schemas[t].props| && !c.schemas[t].IsPrimary(i)
    ensures Open(c, db, Pos(t, slot.row, i))
  {
    assert RowFits(db, c.schemas[t], db[t][slot.row]);
  }

  lemma {:induction false} PopulateOneHolds(c: Context, db: Db, t: string, slot: Slot, value: Input,
          policy: CreatePolicy, i: nat)
    requires Normal(c, db) && SlotOf(c, db, t, slot, value) && value.Dict? && !policy.Skip?
    requires i < |c.schemas[t].props| && ConsistentField(c.schemas, t, c.schemas[t], value, i, policy)
    ensures var s := PopulateOne(c, db, t, c.schemas[t], slot, value, policy, i);
            s.res.Ok? ==>
              && HoldsField(c.schemas, Base(policy, db), s.db, t, c.schemas[t], slot.row, value, i)
              && Retains(c, db, s.db, FieldClaims(c.schemas, c.schemas[t], value, i), policy,
                         TheCell(Pos(t, slot.row, i)))
    decreases Weight(value), value, 1, 0
  {
    hide Create, LegalLog, Replay, RowsKept, Retains, WellFormed, ValidSchemas, SetProperty, HoldsInput;
    var os := c.schemas[t];
    var x := Pos(t, slot.row, i);
    match Choose(os, value, slot, i)
    case Put(v, isDefault) =>
      SlotTarget(c, db, t, slot, value, i);
      PutFeet(c, os, value, slot, i);
      if os.props[i].name !in value.fields {
        LeafConsistent(c.schemas, os.props[i].ptype.elem, v, policy);
        LeafFeet(c.schemas, os.props[i].ptype.elem, v);
      }
      SetPropertyHolds(c, db, x, os.props[i].ptype, v, policy, isDefault);
    case _ =>
      if os.IsPrimary(i) { KeyHolds(c, Base(policy, db), db, t, slot, value, i); }
      RetainsSame(c, db, FieldClaims(c.schemas, os, value, i), policy, TheCell(x));
  }

  lemma {:induction false} SetPropertyHolds(c: Context, db: Db, x: Pos, pt: PropertyType, v: Input,
          policy: CreatePolicy, isDefault: bool)
    requires Apart(c, db, x, pt, InputFeet(c.schemas, pt.elem, v), policy)
    requires ConsistentInput(c.schemas, pt.elem, v, policy) && !policy.Skip?
    ensures var s := SetProperty(c, db, x, pt, v, policy, isDefault);
            s.res.Ok? ==>
              && (!isDefault ==> HoldsInput(c.schemas, Base(policy, db), s.db, x, pt, v))
              && Retains(c, db, s.db, InputClaims(c.schemas, pt.elem, v), policy, TheCell(x))
    decreases Weight(v), v, 5, 0
  {
    hide Create, WellFormed, LegalLog, Replay, RowsKept, ValidSchemas, Retains, Denotes;
    var claims := InputClaims(c.schemas, pt.elem, v);
    var s := SetProperty(c, db, x, pt, v, policy, isDefault);
    RetainsSame(c, db, claims, policy, TheCell(x));
    if pt.Nullable() && v.NullInput? {
      StoreRetains(c, db, x, pt, Null, policy);
      RetainsMore(c, db, Set(db, x, Null), {}, TheCell(x), claims, TheCell(x), policy);
    } else if pt.Array? {
      AssignHolds(c, db, x, pt, v, policy);
    } else {
      var current := LinkedRow(Get(db, x));
      CurrentFromCell(c, db, x, pt);
      UnboxHolds(c, db, pt.elem, v, policy, current);
      UnboxSpares(c, db, x, pt, v, policy, current);
      var u := Unbox(c, db, pt.elem, v, policy, current);
      if u.res.Ok? {
        StoredHolds(c, db, u.db, x, pt, v, u.res.value, u.res.value, policy);
        SetSame(u.db, x);
      }
    }
  }

  // Storing `stored` into the cell keeps what the unboxed value `cell` stands for.
  lemma StoredHolds(c: Context, db: Db, mid: Db, x: Pos, pt: PropertyType, v: Input, cell: Cell, stored: Cell,
          policy: CreatePolicy)
    requires Apart(c, db, x, pt, InputFeet(c.schemas, pt.elem, v), policy)
    requires Retains(c, db, mid, InputClaims(c.schemas, pt.elem, v), policy, Nowhere)
    requires Target(c, mid, x, pt) && CellFits(mid, pt, stored) && FootAt(c.schemas, mid, x) == FootAt(c.schemas, db, x)
    requires Denotes(c.schemas, Base(policy, db), mid, pt.elem, v, cell)
    ensures var db' := Set(mid, x, stored);
            && Denotes(c.schemas, Base(policy, db), db', pt.elem, v, cell)
            && Retains(c, db, db', InputClaims(c.schemas, pt.elem, v), policy, TheCell(x))
            && Target(c, db', x, pt) && Get(db', x) == stored
            && FootAt(c.schemas, db', x) == FootAt(c.schemas, db, x)
  {
    hide Create, WellFormed, ValidSchemas, Denotes;
    var claims := InputClaims(c.schemas, pt.elem, v);
    StoreRetains(c, mid, x, pt, stored, policy);
    CellUnread(c, db, mid, x, claims, policy);
    BaseGrows(c, db, mid, policy);
    RetainsKeeps(c, Base(policy, db), mid, Set(mid, x, stored), claims, {}, policy, TheCell(x));
    DenotesKept(c, Base(policy, db), Base(policy, db), mid, Set(mid, x, stored), pt.elem, v, cell, {}, policy);
    RetainsMore(c, db, mid, claims, Nowhere, claims, TheCell(x), policy);
    RetainsThen(c, db, mid, Set(mid, x, stored), claims, {}, policy, TheCell(x));
    assert claims + {} == claims;
  }

  lemma {:induction false} UnboxHolds(c: Context, db: Db, et: ElementType, v: Input, policy: CreatePolicy,
          current: Option<nat>)
    requires Normal(c, db) && ConsistentInput(c.schemas, et, v, policy) && !policy.Skip?
    requires CurrentFits(db, et, current)
    ensures var u := Unbox(c, db, et, v, policy, current);
            u.res.Ok? ==>
              && Denotes(c.schemas, Base(policy, db), u.db, et, v, u.res.value)
              && Retains(c, db, u.db, InputClaims(c.schemas, et, v), policy, Nowhere)
    decreases Weight(v), v, 3, 0
  {
    hide WellFormed, LegalLog, Replay, RowsKept, GetOrAddRow, Populate, Retains;
    RetainsSame(c, db, InputClaims(c.schemas, et, v), policy, Nowhere);
    if et.ObjectElement? && !v.RowInput? {
      if v.Dict? {
        CreateHolds(c, db, et.target, v, policy, current);
      } else {
        CreateOnlyFromDict(c, db, et.target, v, policy, current);
      }
    }
  }

  // ---- Lists ----

  lemma {:induction false} AssignHolds(c: Context, db: Db, x: Pos, pt: PropertyType, v: Input, policy: CreatePolicy)
    requires Apart(c, db, x, pt, InputFeet(c.schemas, pt.elem, v), policy)
    requires ConsistentInput(c.schemas, pt.elem, v, policy) && !policy.Skip? && pt.Array?
    ensures var s := Assign(c, db, x, pt.elem, v, policy);
            s.res.Ok? ==>
              && HoldsInput(c.schemas, Base(policy, db), s.db, x, pt, v)
              && Retains(c, db, s.db, InputClaims(c.schemas, pt.elem, v), policy, TheCell(x))
    decreases Weight(v), v, 4, 0
  {
    hide Create, WellFormed, LegalLog, Replay, RowsKept, ValidSchemas, Retains;
    var claims := InputClaims(c.schemas, pt.elem, v);
    var empty := Set(db, x, Items([]));
    RetainsSame(c, db, claims, policy, TheCell(x));
    StoreRetains(c, db, x, pt, Items([]), policy);
    if v.NullInput? {
      RetainsMore(c, db, empty, {}, TheCell(x), claims, TheCell(x), policy);
    } else if v.Vector? && policy.UpdateModified? {
      ApartLoose(c, db, x, pt);
      AssignFromHolds(c, db, x, pt, v, 0, |ItemsAt(db, x)|);
    } else if v.Vector? {
      RetainsNormal(c, db, empty, {}, policy, TheCell(x));
      AddFromHolds(c, Base(policy, db), empty, x, pt, v, 0, policy);
      CellUnread(c, db, empty, x, {}, policy);
      if Assign(c, db, x, pt.elem, v, policy).res.Ok? {
        RetainsThen(c, db, empty, Assign(c, db, x, pt.elem, v, policy).db, {}, TailClaims(c.schemas, pt.elem, v, 0),
                    policy, TheCell(x));
        assert {} + claims == claims;
      }
    }
  }

  lemma RetainsNormal(c: Context, db: Db, db': Db, claims: set<Claim>, policy: CreatePolicy, region: Region)
    requires Retains(c, db, db', claims, policy, region)
    ensures Normal(c, db') && Older(Base(policy, db), Base(policy, db'))
  {
  }

  lemma {:induction false} AddFromHolds(c: Context, base: Db, db: Db, x: Pos, pt: PropertyType, v: Input, i: nat,
          policy: CreatePolicy)
    requires pt.Array? && v.Vector? && i <= |v.elements| && !policy.Skip? && Older(base, Base(policy, db))
    requires Apart(c, db, x, pt, TailFeet(c.schemas, pt.elem, v, i), policy)
    requires pt.elem.ObjectElement? ==> ConsistentElements(c.schemas, pt.elem, v, i, policy)
    requires |ItemsAt(db, x)| == i
    ensures var s := AddFrom(c, db, x, pt.elem, v, i, policy);
            s.res.Ok? ==>
              && Get(s.db, x).Items? && |ItemsAt(s.db, x)| == |v.elements|
              && ItemsAt(s.db, x)[..i] == ItemsAt(db, x)
              && DenotesAll(c.schemas, base, s.db, pt.elem, v, ItemsAt(s.db, x), i)
              && Retains(c, db, s.db, TailClaims(c.schemas, pt.elem, v, i), policy, TheCell(x))
    decreases Weight(v), v, 0, |v.elements| - i
  {
    hide Create, WellFormed, LegalLog, Replay, RowsKept, ValidSchemas, Retains, Denotes;
    CurrentFromCell(c, db, x, pt);
    if i >= |v.elements| {
      RetainsSame(c, db, TailClaims(c.schemas, pt.elem, v, i), policy, TheCell(x));
    } else if AddFrom(c, db, x, pt.elem, v, i, policy).res.Ok? {
      var e := v.elements[i];
      var s := AddOne(c, db, x, pt.elem, e, policy);
      var rest := AddFrom(c, s.db, x, pt.elem, v, i + 1, policy);
      ElementHolds(c, db, x, pt, e, i, i, policy);
      RetainsNormal(c, db, s.db, InputClaims(c.schemas, pt.elem, e), policy, TheCell(x));
      AddFromHolds(c, base, s.db, x, pt, v, i + 1, policy);
      ElementStays(c, base, db, s.db, rest.db, x, pt, v, i, policy, ItemsAt(s.db, x)[i]);
      assert ItemsAt(rest.db, x)[i] == ItemsAt(rest.db, x)[..i + 1][i];
      assert ItemsAt(rest.db, x)[..i] == ItemsAt(rest.db, x)[..i + 1][..i];
    }
  }

  lemma {:induction false} AssignFromHolds(c: Context, db: Db, x: Pos, pt: PropertyType, v: Input, i: nat, sz: nat)
    requires pt.Array? && v.Vector? && i <= |v.elements|
    requires Apart(c, db, x, pt, TailFeet(c.schemas, pt.elem, v, i), UpdateModified)
    requires pt.elem.ObjectElement? ==> ConsistentElements(c.schemas, pt.elem, v, i, UpdateModified)
    requires |ItemsAt(db, x)| == if i < sz then sz else i
    ensures var s := AssignFrom(c, db, x, pt.elem, v, i, sz);
            s.res.Ok? ==>
              && Get(s.db, x).Items? && |ItemsAt(s.db, x)| == |v.elements|
              && ItemsAt(s.db, x)[..i] == ItemsAt(db, x)[..i]
              && DenotesAll(c.schemas, map[], s.db, pt.elem, v, ItemsAt(s.db, x), i)
              && Retains(c, db, s.db, TailClaims(c.schemas, pt.elem, v, i), UpdateModified, TheCell(x))
    decreases Weight(v), v, 0, |v.elements| - i
  {
    hide Create, WellFormed, LegalLog, Replay, RowsKept, ValidSchemas, Retains, Denotes;
    CurrentFromCell(c, db, x, pt);
    if i >= |v.elements| {
      TrimResult(db, x, i, sz);
      StoreRetains(c, db, x, pt, Items(ItemsAt(db, x)[..i]), UpdateModified);
      RetainsMore(c, db, Set(db, x, Items(ItemsAt(db, x)[..i])), {}, TheCell(x), TailClaims(c.schemas, pt.elem, v, i),
                  TheCell(x), UpdateModified);
    } else if AssignFrom(c, db, x, pt.elem, v, i, sz).res.Ok? {
      var e := v.elements[i];
      var s := AssignOne(c, db, x, pt.elem, e, i, sz);
      var rest := AssignFrom(c, s.db, x, pt.elem, v, i + 1, sz);
      ElementHolds(c, db, x, pt, e, i, sz, UpdateModified);
      RetainsNormal(c, db, s.db, InputClaims(c.schemas, pt.elem, e), UpdateModified, TheCell(x));
      AssignFromHolds(c, s.db, x, pt, v, i + 1, sz);
      ElementStays(c, map[], db, s.db, rest.db, x, pt, v, i, UpdateModified, ItemsAt(s.db, x)[i]);
      assert ItemsAt(rest.db, x)[i] == ItemsAt(rest.db, x)[..i + 1][i];
      assert ItemsAt(rest.db, x)[..i] == ItemsAt(rest.db, x)[..i + 1][..i];
    }
  }

  // The rest of the list keeps what one element stands for.
  lemma ElementStays(c: Context, base: Db, db: Db, mid: Db, db': Db, x: Pos, pt: PropertyType, v: Input, i: nat,
          policy: CreatePolicy, item: Cell)
    requires v.Vector? && i < |v.elements| && Has(db, x) && Older(base, Base(policy, db))
    requires pt.elem.ObjectElement? ==> ConsistentElements(c.schemas, pt.elem, v, i, policy)
    requires Outside(c, db, x, TailFeet(c.schemas, pt.elem, v, i), policy)
    requires FootAt(c.schemas, mid, x) == FootAt(c.schemas, db, x)
    requires Retains(c, db, mid, InputClaims(c.schemas, pt.elem, v.elements[i]), policy, TheCell(x))
    requires Retains(c, mid, db', TailClaims(c.schemas, pt.elem, v, i + 1), policy, TheCell(x))
    requires Denotes(c.schemas, Base(policy, db), mid, pt.elem, v.elements[i], item)
    ensures Denotes(c.schemas, base, db', pt.elem, v.elements[i], item)
    ensures Retains(c, db, db', TailClaims(c.schemas, pt.elem, v, i), policy, TheCell(x))
  {
    var e := v.elements[i];
    var one := InputClaims(c.schemas, pt.elem, e);
    var tail := TailClaims(c.schemas, pt.elem, v, i + 1);
    assert Compatible(c.schemas, one, tail, policy);
    assert TailClaims(c.schemas, pt.elem, v, i) == one + tail;
    hide Denotes, WellFormed, Retains, Compatible, ConsistentElements;
    CellUnread(c, db, mid, x, one, policy);
    RetainsNormal(c, db, mid, one, policy, TheCell(x));
    RetainsKeeps(c, Base(policy, db), mid, db', one, tail, policy, TheCell(x));
    DenotesKept(c, Base(policy, db), base, mid, db', pt.elem, e, item, tail, policy);
    RetainsThen(c, db, mid, db', one, tail, policy, TheCell(x));
  }

  // One element, overwritten or appended.
  lemma {:induction false} ElementHolds(c: Context, db: Db, x: Pos, pt: PropertyType, e: Input, i: nat, sz: nat,
          policy: CreatePolicy)
    requires pt.Array? && !policy.Skip? && (i < sz ==> policy.UpdateModified?)
    requires Apart(c, db, x, pt, InputFeet(c.schemas, pt.elem, e), policy)
    requires ConsistentInput(c.schemas, pt.elem, e, policy)
    requires |ItemsAt(db, x)| == if i < sz then sz else i
    ensures var s := if i < sz then SetIfDifferent(c, db, x, pt.elem, e, i) else AddOne(c, db, x, pt.elem, e, policy);
            s.res.Ok? ==>
              && Get(s.db, x).Items? && |ItemsAt(s.db, x)| == (if i + 1 < sz then sz else i + 1)
              && ItemsAt(s.db, x)[..i] == ItemsAt(db, x)[..i]
              && Denotes(c.schemas, Base(policy, db), s.db, pt.elem, e, ItemsAt(s.db, x)[i])
              && Target(c, s.db, x, pt) && FootAt(c.schemas, s.db, x) == FootAt(c.schemas, db, x)
              && Retains(c, db, s.db, InputClaims(c.schemas, pt.elem, e), policy, TheCell(x))
    decreases Weight(e), e, 6, 0
  {
    hide Create, WellFormed, LegalLog, Replay, RowsKept, ValidSchemas, Retains, Denotes;
    var items := ItemsAt(db, x);
    var current := if i < sz then LinkedRow(items[i]) else None;
    CurrentFromCell(c, db, x, pt);
    var u := Unbox(c, db, pt.elem, e, policy, current);
    UnboxHolds(c, db, pt.elem, e, policy, current);
    UnboxSpares(c, db, x, pt, e, policy, current);
    if u.res.Ok? {
      var items' := if i < sz then items[i := u.res.value] else items + [u.res.value];
      CurrentFromCell(c, u.db, x, pt);
      StoredHolds(c, db, u.db, x, pt, e, u.res.value, Items(items'), policy);
      if i < sz && items[i] == u.res.value {
        assert items' == items;
        SetSame(u.db, x);
      }
    }
  }
}

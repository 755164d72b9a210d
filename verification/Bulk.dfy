/**
 Setting one property of all results of a query: a loop over a snapshot that amounts to one
 simultaneous update, even when the written property decides what the query matches.
 */
module Bulk {
  import opened Schema
  import opened Store
  import opened Safety
  import opened Accessor
  import opened Runs
  import opened Footprint
  import opened Upsert
  import opened Frame
  import opened Agreement
  import opened Meaning
  import opened Fulfilment
  import opened Economy
  import opened Admission
  import opened Setters

  // What a leaf stands for as the contents of a property.
  function LeafCell(db: Db, pt: PropertyType, v: Input): Result<Cell>
    requires IsLeaf(v)
  {
    if pt.Nullable() && v.NullInput? then Ok(Null)
    else if pt.Array? then
      if v.NullInput? then Ok(Items([]))
      else if v.Vector? then
        var items := LeafItems(db, pt.elem, v.elements, 0);
        if items.Ok? then Ok(Items(items.value)) else Err(items.error)
      else Err(BadCast)
    else LeafItem(db, pt.elem, v)
  }

  function LeafItem(db: Db, et: ElementType, v: Input): Result<Cell> {
    match et
    case ScalarElement(ty) => UnboxScalar(ty, v)
    case ObjectElement(target) =>
      if !v.RowInput? then Err(BadCast)
      else if v.table == target && v.row < RowCount(db, target) then Ok(Link(v.row))
      else Err(DetachedRow)
  }

  function LeafItems(db: Db, et: ElementType, es: seq<Input>, i: nat): Result<seq<Cell>>
    decreases |es| - i
  {
    if i >= |es| then Ok([])
    else
      var head := LeafItem(db, et, es[i]);
      if head.Err? then Err(head.error)
      else
        var tail := LeafItems(db, et, es, i + 1);
        if tail.Err? then tail else Ok([head.value] + tail.value)
  }

  ghost predicate SameRows(db: Db, db': Db) {
    forall t :: RowCount(db, t) == RowCount(db', t)
  }

  lemma {:induction false} LeafItemsSame(db: Db, db': Db, et: ElementType, es: seq<Input>, i: nat)
    requires SameRows(db, db')
    ensures LeafItems(db, et, es, i) == LeafItems(db', et, es, i)
    decreases |es| - i
  {
    if i < |es| {
      LeafItemsSame(db, db', et, es, i + 1);
    }
  }

  lemma LeafCellSame(db: Db, db': Db, pt: PropertyType, v: Input)
    requires SameRows(db, db') && IsLeaf(v)
    ensures LeafCell(db, pt, v) == LeafCell(db', pt, v)
  {
    if v.Vector? {
      LeafItemsSame(db, db', pt.elem, v.elements, 0);
    }
  }

  // ---- One object ----

  lemma UnboxLeaf(c: Context, db: Db, et: ElementType, v: Input, current: Option<nat>)
    requires Normal(c, db) && IsLeaf(v)
    ensures var u := Unbox(c, db, et, v, ForceCreate, current);
            && u.res.Ok? == LeafItem(db, et, v).Ok?
            && (u.res.Ok? ==> u.db == db && u.log == [] && u.res == LeafItem(db, et, v))
  {
    if et.ObjectElement? && !v.RowInput? {
      CreateOnlyFromDict(c, db, et.target, v, ForceCreate, current);
    }
  }

  lemma {:induction false} AddLeaves(c: Context, db: Db, x: Pos, pt: PropertyType, v: Input, i: nat)
    requires Normal(c, db) && Target(c, db, x, pt) && pt.Array? && v.Vector? && IsLeaf(v)
    ensures var s := AddFrom(c, db, x, pt.elem, v, i, ForceCreate);
            var items := LeafItems(db, pt.elem, v.elements, i);
            && s.res.Ok? == items.Ok?
            && (s.res.Ok? ==> s.db == Set(db, x, Items(ItemsAt(db, x) + items.value)))
    decreases |v.elements| - i
  {
    hide Create, LegalLog, Replay;
    CurrentFromCell(c, db, x, pt);
    if i >= |v.elements| {
      assert ItemsAt(db, x) + [] == ItemsAt(db, x);
      SetSame(db, x);
    } else {
      var s := AddOne(c, db, x, pt.elem, v.elements[i], ForceCreate);
      UnboxLeaf(c, db, pt.elem, v.elements[i], None);
      if s.res.Ok? {
        var item := LeafItem(db, pt.elem, v.elements[i]).value;
        AddOneRuns(c, db, x, pt, v.elements[i], ForceCreate);
        RunReady(c, db, s);
        TargetKept(c, db, s, x, pt);
        AddLeaves(c, s.db, x, pt, v, i + 1);
        LeafItemsSame(db, s.db, pt.elem, v.elements, i + 1);
        GetSet(db, x, Items(ItemsAt(db, x) + [item]), x);
        var tail := LeafItems(db, pt.elem, v.elements, i + 1);
        if tail.Ok? {
          assert ItemsAt(db, x) + [item] + tail.value == ItemsAt(db, x) + ([item] + tail.value);
          SetTwice(db, x, Items(ItemsAt(db, x) + [item]), Items(ItemsAt(db, x) + [item] + tail.value));
        }
      }
    }
  }

  lemma SetLeaf(c: Context, db: Db, x: Pos, pt: PropertyType, v: Input)
    requires Normal(c, db) && Target(c, db, x, pt) && IsLeaf(v) && !v.ListInput?
    ensures var s := SetProperty(c, db, x, pt, v, ForceCreate, false);
            && s.res.Ok? == LeafCell(db, pt, v).Ok?
            && (s.res.Ok? ==> s.db == Set(db, x, LeafCell(db, pt, v).value))
            && (s.res.Ok? && pt.Single? ==> s.log == [SetCell(x, LeafCell(db, pt, v).value)])
  {
    hide Create, LegalLog, Replay;
    CurrentFromCell(c, db, x, pt);
    if pt.Array? {
      var cleared := Emit(db, ClearItems(x), ());
      RunEmit(c, db, ClearItems(x), ());
      RunReady(c, db, cleared);
      TargetKept(c, db, cleared, x, pt);
      GetSet(db, x, Items([]), x);
      if v.Vector? {
        AddLeaves(c, cleared.db, x, pt, v, 0);
        LeafItemsSame(db, cleared.db, pt.elem, v.elements, 0);
        var items := LeafItems(db, pt.elem, v.elements, 0);
        if items.Ok? {
          assert [] + items.value == items.value;
          SetTwice(db, x, Items([]), Items(items.value));
        }
      }
    } else if !v.NullInput? || !pt.Nullable() {
      UnboxLeaf(c, db, pt.elem, v, LinkedRow(Get(db, x)));
    }
  }

  // ---- All results ----

  // Every listed row has `cell` in column `col`; everything else is as it was.
  ghost predicate Simultaneous(db: Db, db': Db, t: string, rows: seq<nat>, col: nat, cell: Cell) {
    && SameRows(db, db')
    && forall x ::
         Get(db', x) == if Has(db, x) && x.table == t && x.col == col && x.row in rows then cell else Get(db, x)
  }

  lemma {:induction false} SetEachSimultaneous(c: Context, db: Db, t: string, rows: seq<nat>, col: nat,
          pt: PropertyType, v: Input)
    requires Normal(c, db) && IsLeaf(v) && !v.ListInput?
    requires forall r <- rows :: Target(c, db, Pos(t, r, col), pt)
    requires LeafCell(db, pt, v).Ok?
    ensures var s := SetEach(c, db, t, rows, 0, col, pt, v);
            && s.res.Ok? && Simultaneous(db, s.db, t, rows, col, LeafCell(db, pt, v).value)
            && (pt.Single? ==> s.log == CellWrites(t, rows, col, LeafCell(db, pt, v).value))
    decreases |rows|
  {
    hide Create, SetProperty, LegalLog, Replay, RowsKept, WellFormed, ValidSchemas, LeafCell;
    var cell := LeafCell(db, pt, v).value;
    if rows != [] {
      var x := Pos(t, rows[0], col);
      var p := SetProperty(c, db, x, pt, v, ForceCreate, false);
      SetLeaf(c, db, x, pt, v);
      SetPropertyRuns(c, db, x, pt, v, ForceCreate, false);
      RunReady(c, db, p);
      SetSameRows(db, x, cell);
      LeafCellSame(db, p.db, pt, v);
      forall r | r in rows[1..] ensures Target(c, p.db, Pos(t, r, col), pt) {
        assert r in rows;
        TargetKept(c, db, p, Pos(t, r, col), pt);
      }
      SetEachSimultaneous(c, p.db, t, rows[1..], col, pt, v);
      SetEachShift(c, p.db, t, rows, 1, col, pt, v);
      SimultaneousStep(db, SetEach(c, p.db, t, rows[1..], 0, col, pt, v).db, t, rows, col, cell);
    }
  }

  function CellWrites(t: string, rows: seq<nat>, col: nat, cell: Cell): seq<Write> {
    if rows == [] then [] else [SetCell(Pos(t, rows[0], col), cell)] + CellWrites(t, rows[1..], col, cell)
  }

  lemma SetSameRows(db: Db, x: Pos, cell: Cell)
    ensures SameRows(db, Set(db, x, cell))
  {
  }

  lemma SimultaneousStep(db: Db, db': Db, t: string, rows: seq<nat>, col: nat, cell: Cell)
    requires rows != [] && Has(db, Pos(t, rows[0], col))
    requires Simultaneous(Set(db, Pos(t, rows[0], col), cell), db', t, rows[1..], col, cell)
    ensures Simultaneous(db, db', t, rows, col, cell)
  {
    var x := Pos(t, rows[0], col);
    SetSameRows(db, x, cell);
    assert rows == [rows[0]] + rows[1..];
    forall y
      ensures Get(db', y) == if Has(db, y) && y.table == t && y.col == col && y.row in rows then cell else Get(db, y) {
      GetSet(db, x, cell, y);
    }
  }

  lemma {:induction false} SetEachShift(c: Context, db: Db, t: string, rows: seq<nat>, j: nat, col: nat,
          pt: PropertyType, v: Input)
    requires 1 <= j <= |rows|
    ensures SetEach(c, db, t, rows, j, col, pt, v) == SetEach(c, db, t, rows[1..], j - 1, col, pt, v)
    decreases |rows| - j
  {
    hide SetProperty;
    if j < |rows| {
      var s := SetProperty(c, db, Pos(t, rows[j], col), pt, v, ForceCreate, false);
      SetEachShift(c, s.db, t, rows, j + 1, col, pt, v);
    }
  }

  /** Every row that matches the query at the start has the new value at the end, no other cell
      of the store changes, and for a single-valued property each matching row is written once. */
  lemma SetAllIsSimultaneous(c: Context, db: Db, t: string, query: Query, name: string, col: nat, v: Input)
    requires Normal(c, db) && t in c.schemas && Called(c.schemas[t], name, col) && c.schemas[t].primary != Some(col)
    requires IsLeaf(v) && !v.ListInput?
    ensures var pt := c.schemas[t].props[col].ptype;
            var s := SetAll(c, db, t, query, name, v);
            && (s.res.Ok? <==> LeafCell(db, pt, v).Ok? || forall r: nat | r < RowCount(db, t) :: !query(db, r))
            && (LeafCell(db, pt, v).Ok? ==>
                  && SameRows(db, s.db)
                  && (forall x | Has(db, x) :: Get(s.db, x) ==
                        if x.table == t && x.col == col
                            && query(db, x.row) then LeafCell(db, pt, v).value else Get(db, x))
                  && (pt.Single? ==> forall r: nat | r < RowCount(db, t) ::
                        WritesAt(s.log, Pos(t, r, col)) ==
                          if query(db, r) then [SetCell(Pos(t, r, col), LeafCell(db, pt, v).value)] else []))
  {
    hide Create, SetProperty, LegalLog, Replay, RowsKept, WellFormed, ValidSchemas, WritesAt, CellWrites, LeafCell;
    NameMeans(c, t, name);
    var pt := c.schemas[t].props[col].ptype;
    var rows := Matching(db, t, query, 0);
    forall r <- rows ensures Target(c, db, Pos(t, r, col), pt) {
      SetterTarget(c, db, t, r, name, col);
    }
    if LeafCell(db, pt, v).Ok? {
      var cell := LeafCell(db, pt, v).value;
      SetEachSimultaneous(c, db, t, rows, col, pt, v);
      forall r: nat | pt.Single? && r < RowCount(db, t)
        ensures WritesAt(SetAll(c, db, t, query, name, v).log, Pos(t, r, col))
             == if query(db, r) then [SetCell(Pos(t, r, col), cell)] else []
      {
        WritesOnce(t, rows, col, cell, r);
      }
    } else if rows != [] {
      assert rows[0] in rows;
      SetLeaf(c, db, Pos(t, rows[0], col), pt, v);
    } else {
      forall r: nat | r < RowCount(db, t) ensures !query(db, r) {
        assert r !in rows;
      }
    }
  }

  lemma {:induction false} WritesOnce(t: string, rows: seq<nat>, col: nat, cell: Cell, r: nat)
    requires forall i, j | 0 <= i < j < |rows| :: rows[i] < rows[j]
    ensures WritesAt(CellWrites(t, rows, col, cell), Pos(t, r, col))
         == if r in rows then [SetCell(Pos(t, r, col), cell)] else []
    decreases |rows|
  {
    if rows != [] {
      assert CellWrites(t, rows, col, cell)[1..] == CellWrites(t, rows[1..], col, cell);
      WritesOnce(t, rows[1..], col, cell, r);
      assert rows == [rows[0]] + rows[1..];
    }
  }

  /** One description of a keyed object cannot be given to two results: the second would have to
      create the object again. */
  lemma SetAllCreatesOnce(c: Context, db: Db, t: string, query: Query, name: string, col: nat, v: Input)
    requires Normal(c, db) && t in c.schemas && Called(c.schemas[t], name, col) && c.schemas[t].primary != Some(col)
    requires var pt := c.schemas[t].props[col].ptype;
             pt.Single? && pt.elem.ObjectElement? && c.schemas[pt.elem.target].primary.Some?
    requires v.Dict? && |Matching(db, t, query, 0)| >= 2
    ensures SetAll(c, db, t, query, name, v).res.Err?
  {
    hide LegalLog, Replay, SetProperty;
    NameMeans(c, t, name);
    var pt := c.schemas[t].props[col].ptype;
    var rows := Matching(db, t, query, 0);
    var x0, x1 := Pos(t, rows[0], col), Pos(t, rows[1], col);
    assert rows[0] in rows && rows[1] in rows;
    SetterTarget(c, db, t, rows[0], name, col);
    var s := SetProperty(c, db, x0, pt, v, ForceCreate, false);
    SetPropertyRuns(c, db, x0, pt, v, ForceCreate, false);
    SetPropertyUpserts(c, db, x0, pt, v, ForceCreate, false);
    if s.res.Ok? {
      RunReady(c, db, s);
      SetAgainFails(c, s.db, x1, pt, v);
      assert SetEach(c, s.db, t, rows, 1, col, pt, v).res.Err?;
    }
  }

  lemma SetAgainFails(c: Context, db: Db, x: Pos, pt: PropertyType, v: Input)
    requires Normal(c, db) && Present(c.schemas, db, InputFeet(c.schemas, pt.elem, v))
    requires pt.Single? && pt.elem.ObjectElement? && v.Dict?
    requires pt.elem.target in c.schemas && c.schemas[pt.elem.target].primary.Some?
    ensures SetProperty(c, db, x, pt, v, ForceCreate, false).res.Err?
  {
    var target := pt.elem.target;
    var os := c.schemas[target];
    var key := KeyFor(os, v);
    if key.Ok? {
      OwnFoot(os, target, v, os.primary.value);
      var foot := Foot(target, key.value, os.primary.value);
      assert Claim(foot, Given(v, os.props[os.primary.value].name)) in Claims(c.schemas, target, v);
      assert foot in InputFeet(c.schemas, pt.elem, v);
      FreshKeyFromSearch(c, db, target, os.primary.value, key.value);
    }
    hide Populate;
    assert Create(c, db, target, v, ForceCreate, LinkedRow(Get(db, x))).res.Err?;
  }

  // ---- Values that describe objects ----

  function Targets(t: string, rows: seq<nat>, j: nat, col: nat): set<Pos> {
    set k: nat | j <= k < |rows| :: Pos(t, rows[k], col)
  }

  // Every listed cell can be set from `v`, whatever the others become.
  ghost predicate AllApart(c: Context, db: Db, t: string, rows: seq<nat>, j: nat, col: nat, pt: PropertyType,
          v: Input) {
    && (forall k: nat, l: nat | k < l < |rows| :: rows[k] < rows[l])
    && forall k: nat | j <= k < |rows| ::
         Apart(c, db, Pos(t, rows[k], col), pt, InputFeet(c.schemas, pt.elem, v), ForceCreate)
  }

  // An object without primary key is created anew for each cell.
  predicate OwnObjects(schemas: Schemas, db: Db, db': Db, t: string, rows: seq<nat>, j: nat, col: nat,
          pt: PropertyType, v: Input) {
    pt.Single? && pt.elem.ObjectElement? && v.Dict? && !Shared(schemas, pt.elem.target, ForceCreate) ==>
      && (forall k: nat | j <= k < |rows| ::
            Get(db', Pos(t, rows[k], col)).Link?
            && RowCount(db, pt.elem.target) <= Get(db', Pos(t, rows[k], col)).row)
      && (forall k: nat, l: nat | j <= k < l < |rows| ::
            Get(db', Pos(t, rows[k], col)) != Get(db', Pos(t, rows[l], col)))
  }

  lemma {:induction false} SetEachHolds(c: Context, db: Db, t: string, rows: seq<nat>, j: nat, col: nat,
          pt: PropertyType, v: Input)
    requires Normal(c, db) && AllApart(c, db, t, rows, j, col, pt, v)
    requires ConsistentInput(c.schemas, pt.elem, v, ForceCreate)
    ensures var s := SetEach(c, db, t, rows, j, col, pt, v);
            s.res.Ok? ==>
              && (forall k: nat | j <= k < |rows| :: HoldsInput(c.schemas, db, s.db, Pos(t, rows[k], col), pt, v))
              && Retains(c, db, s.db, InputClaims(c.schemas, pt.elem, v), ForceCreate,
                         TheCells(Targets(t, rows, j, col)))
              && OwnObjects(c.schemas, db, s.db, t, rows, j, col, pt, v)
    decreases |rows| - j
  {
    hide SetProperty, Create, LegalLog, Replay, RowsKept, WellFormed, ValidSchemas, HoldsInput, Retains, Apart,
        OwnObjects;
    var claims := InputClaims(c.schemas, pt.elem, v);
    if j >= |rows| {
      RetainsSame(c, db, claims, ForceCreate, TheCells(Targets(t, rows, j, col)));
      NoObjects(c, db, t, rows, j, col, pt, v);
    } else if SetEach(c, db, t, rows, j, col, pt, v).res.Ok? {
      var x := Pos(t, rows[j], col);
      var s := SetProperty(c, db, x, pt, v, ForceCreate, false);
      var rest := SetEach(c, s.db, t, rows, j + 1, col, pt, v);
      SetPropertyHolds(c, db, x, pt, v, ForceCreate, false);
      RetainsNormal(c, db, s.db, claims, ForceCreate, TheCell(x));
      RestApart(c, db, s.db, t, rows, j, col, pt, v);
      SetEachHolds(c, s.db, t, rows, j + 1, col, pt, v);
      OneOfAll(c, db, s.db, rest.db, t, rows, j, col, pt, v);
    }
  }

  lemma NoObjects(c: Context, db: Db, t: string, rows: seq<nat>, j: nat, col: nat, pt: PropertyType, v: Input)
    requires j >= |rows|
    ensures OwnObjects(c.schemas, db, db, t, rows, j, col, pt, v)
  {
  }

  lemma RestApart(c: Context, db: Db, mid: Db, t: string, rows: seq<nat>, j: nat, col: nat, pt: PropertyType, v: Input)
    requires AllApart(c, db, t, rows, j, col, pt, v) && j < |rows|
    requires Retains(c, db, mid, InputClaims(c.schemas, pt.elem, v), ForceCreate, TheCell(Pos(t, rows[j], col)))
    ensures AllApart(c, mid, t, rows, j + 1, col, pt, v)
  {
    forall k: nat | j < k < |rows|
      ensures Apart(c, mid, Pos(t, rows[k], col), pt, InputFeet(c.schemas, pt.elem, v), ForceCreate)
    {
      ApartOpen(c, db, Pos(t, rows[k], col), pt, InputFeet(c.schemas, pt.elem, v), ForceCreate);
      FootKept(c, db, mid, Pos(t, rows[k], col));
    }
  }

  // The cell set first keeps its value while the others are set.
  lemma OneOfAll(c: Context, db: Db, mid: Db, db': Db, t: string, rows: seq<nat>, j: nat, col: nat, pt: PropertyType,
          v: Input)
    requires AllApart(c, db, t, rows, j, col, pt, v) && j < |rows|
    requires AllApart(c, mid, t, rows, j + 1, col, pt, v) && ConsistentInput(c.schemas, pt.elem, v, ForceCreate)
    requires HoldsInput(c.schemas, db, mid, Pos(t, rows[j], col), pt, v)
    requires Retains(c, db, mid, InputClaims(c.schemas, pt.elem, v), ForceCreate, TheCell(Pos(t, rows[j], col)))
    requires forall k: nat | j < k < |rows| :: HoldsInput(c.schemas, mid, db', Pos(t, rows[k], col), pt, v)
    requires Retains(c, mid, db', InputClaims(c.schemas, pt.elem, v), ForceCreate,
                     TheCells(Targets(t, rows, j + 1, col)))
    requires OwnObjects(c.schemas, mid, db', t, rows, j + 1, col, pt, v)
    ensures forall k: nat | j <= k < |rows| :: HoldsInput(c.schemas, db, db', Pos(t, rows[k], col), pt, v)
    ensures Retains(c, db, db', InputClaims(c.schemas, pt.elem, v), ForceCreate, TheCells(Targets(t, rows, j, col)))
    ensures OwnObjects(c.schemas, db, db', t, rows, j, col, pt, v)
  {
    var x := Pos(t, rows[j], col);
    var claims := InputClaims(c.schemas, pt.elem, v);
    var all, later := TheCells(Targets(t, rows, j, col)), TheCells(Targets(t, rows, j + 1, col));
    ApartOpen(c, db, x, pt, InputFeet(c.schemas, pt.elem, v), ForceCreate);
    FootKept(c, db, mid, x);
    BaseGrows(c, db, mid, ForceCreate);
    BaseGrows(c, mid, db', ForceCreate);
    assert !later.Covers(x) && Get(db', x) == Get(mid, x);
    InputClaimsAgree(c.schemas, pt.elem, v, ForceCreate);
    AllUnread(c, db, mid, t, rows, j, col, pt, v);
    RetainsKeeps(c, db, mid, db', claims, claims, ForceCreate, later);
    HoldsInputKept(c, db, db, mid, db', x, pt, v, claims, ForceCreate);
    forall k: nat | j < k < |rows| ensures HoldsInput(c.schemas, db, db', Pos(t, rows[k], col), pt, v) {
      RebasedInput(c, mid, db, db', Pos(t, rows[k], col), pt, v, ForceCreate);
    }
    RetainsMore(c, db, mid, claims, TheCell(x), claims, all, ForceCreate);
    RetainsMore(c, mid, db', claims, later, claims, all, ForceCreate);
    RetainsThen(c, db, mid, db', claims, claims, ForceCreate, all);
    assert claims + claims == claims;
    NewObject(c, db, mid, db', t, rows, j, col, pt, v);
  }

  lemma AllUnread(c: Context, db: Db, mid: Db, t: string, rows: seq<nat>, j: nat, col: nat, pt: PropertyType, v: Input)
    requires AllApart(c, db, t, rows, j, col, pt, v) && j < |rows|
    requires Retains(c, db, mid, InputClaims(c.schemas, pt.elem, v), ForceCreate, TheCell(Pos(t, rows[j], col)))
    ensures Unread(c, db, mid, TheCells(Targets(t, rows, j, col)), InputClaims(c.schemas, pt.elem, v), ForceCreate)
    ensures Unread(c, db, mid, TheCells(Targets(t, rows, j + 1, col)), InputClaims(c.schemas, pt.elem, v), ForceCreate)
  {
    forall x | x in Targets(t, rows, j, col)
      ensures !Reads(c, db, mid, x, InputClaims(c.schemas, pt.elem, v), ForceCreate)
    {
      ApartOpen(c, db, x, pt, InputFeet(c.schemas, pt.elem, v), ForceCreate);
      FootKept(c, db, mid, x);
    }
  }

  lemma NewObject(c: Context, db: Db, mid: Db, db': Db, t: string, rows: seq<nat>, j: nat, col: nat, pt: PropertyType,
          v: Input)
    requires j < |rows| && Get(db', Pos(t, rows[j], col)) == Get(mid, Pos(t, rows[j], col))
    requires HoldsInput(c.schemas, db, mid, Pos(t, rows[j], col), pt, v)
    requires pt.elem.ObjectElement? ==> RowCount(db, pt.elem.target) <= RowCount(mid, pt.elem.target)
    requires OwnObjects(c.schemas, mid, db', t, rows, j + 1, col, pt, v)
    ensures OwnObjects(c.schemas, db, db', t, rows, j, col, pt, v)
  {
    if pt.Single? && pt.elem.ObjectElement? && v.Dict? && !Shared(c.schemas, pt.elem.target, ForceCreate) {
      var target := pt.elem.target;
      var link := Get(mid, Pos(t, rows[j], col));
      assert Denotes(c.schemas, db, mid, pt.elem, v, link);
      assert Holds(c.schemas, db, mid, target, link.row, v);
      assert RowCount(db, target) <= link.row < RowCount(mid, target);
    }
  }

  /** If setting a property of all results succeeds, every row that matched at the start has what
      the value stands for, whatever objects it describes and whatever the query depends on; no
      other existing cell is changed that the value does not name; and where the value describes
      an object without primary key, every matching row gets a new object of its own. */
  lemma SetAllFulfils(c: Context, db: Db, t: string, query: Query, name: string, col: nat, v: Input)
    requires Normal(c, db) && t in c.schemas && Called(c.schemas[t], name, col) && c.schemas[t].primary != Some(col)
    requires  var et := c.schemas[t].props[col].ptype.elem;
             && ConsistentInput(c.schemas, et, v, ForceCreate)
             && forall r: nat | r < RowCount(db, t) && query(db, r) ::
                  Outside(c, db, Pos(t, r, col), InputFeet(c.schemas, et, v), ForceCreate)
    ensures var pt := c.schemas[t].props[col].ptype;
            var s := SetAll(c, db, t, query, name, v);
            s.res.Ok? ==>
              && (forall r: nat | r < RowCount(db, t) && query(db, r) ::
                    HoldsInput(c.schemas, db, s.db, Pos(t, r, col), pt, v))
              && (forall x | Open(c, db, x) && Outside(c, db, x, InputFeet(c.schemas, pt.elem, v), ForceCreate)
                        && !(x.table == t && x.col == col && query(db, x.row)) ::
                    Get(s.db, x) == Get(db, x))
              && RowsKept(c.schemas, db, s.db, true)
              && OwnObjects(c.schemas, db, s.db, t, Matching(db, t, query, 0), 0, col, pt, v)
  {
    hide SetProperty, Create, LegalLog, Replay, WellFormed, HoldsInput, Apart, OwnObjects;
    NameMeans(c, t, name);
    var pt := c.schemas[t].props[col].ptype;
    var rows := Matching(db, t, query, 0);
    var s := SetAll(c, db, t, query, name, v);
    MatchingApart(c, db, t, query, name, col, v);
    SetEachHolds(c, db, t, rows, 0, col, pt, v);
    forall r: nat | s.res.Ok? && r < RowCount(db, t) && query(db, r)
      ensures HoldsInput(c.schemas, db, s.db, Pos(t, r, col), pt, v)
    {
      assert r in rows;
      var k: nat :| k < |rows| && rows[k] == r;
    }
    forall x | s.res.Ok? && Open(c, db, x) && Outside(c, db, x, InputFeet(c.schemas, pt.elem, v), ForceCreate)
        && !(x.table == t && x.col == col && query(db, x.row))
      ensures Get(s.db, x) == Get(db, x)
    {
      assert forall k: nat | k < |rows| :: rows[k] in rows;
      assert !TheCells(Targets(t, rows, 0, col)).Covers(x);
    }
  }

  lemma MatchingApart(c: Context, db: Db, t: string, query: Query, name: string, col: nat, v: Input)
    requires Normal(c, db) && t in c.schemas && Called(c.schemas[t], name, col) && c.schemas[t].primary != Some(col)
    requires  var et := c.schemas[t].props[col].ptype.elem;
             forall r: nat | r < RowCount(db, t) && query(db, r) ::
               Outside(c, db, Pos(t, r, col), InputFeet(c.schemas, et, v), ForceCreate)
    ensures AllApart(c, db, t, Matching(db, t, query, 0), 0, col, c.schemas[t].props[col].ptype, v)
  {
    var rows := Matching(db, t, query, 0);
    forall k: nat | k < |rows|
      ensures   var pt := c.schemas[t].props[col].ptype;
              Apart(c, db, Pos(t, rows[k], col), pt, InputFeet(c.schemas, pt.elem, v), ForceCreate)
    {
      assert rows[k] in rows;
      SetterTarget(c, db, t, rows[k], name, col);
    }
  }

  /** The refusals, before anything is written: a name that is no persisted property and the primary
      key outside a migration. A computed property is noticed only if a row matches. */
  lemma SetAllRefuses(c: Context, db: Db, t: string, query: Query, name: string, v: Input)
    requires ValidSchemas(c.schemas) && t in c.schemas
    ensures var os := c.schemas[t];
            var s := SetAll(c, db, t, query, name, v);
            && ((forall k: nat :: !Called(os, name, k)) ==>
                  s == if name !in os.computed then Fail(db, InvalidProperty)
                       else if exists r: nat :: r < RowCount(db, t) && query(db, r) then Fail(db, ReadOnlyProperty)
                       else Done(db, ()))
            && ((exists k: nat :: Called(os, name, k) && os.primary == Some(k)) && !c.inMigration ==>
                  s == Fail(db, ModifyPrimaryKey))
  {
    NameMeans(c, t, name);
    var rows := Matching(db, t, query, 0);
    if r: nat :| r < RowCount(db, t) && query(db, r) {
      assert r in rows;
    } else {
      assert rows != [] ==> rows[0] in rows;
    }
  }

  // ---- When it succeeds ----

  // Every listed row admits the value, the first with nothing told and the others with the objects
  // that it describes.
  predicate AllAdmit(schemas: Schemas, db: Db, told: set<Obj>, t: string, rows: seq<nat>, j: nat, col: nat,
          pt: PropertyType, v: Input)
    decreases |rows| - j
  {
    j < |rows| ==>
      && AdmitsInput(schemas, db, told, pt, v, Some(Pos(t, rows[j], col)), true)
      && AllAdmit(schemas, db, told + Told(InputClaims(schemas, pt.elem, v)), t, rows, j + 1, col, pt, v)
  }

  lemma {:induction false} SetEachAdmitted(c: Context, start: Db, last: Db, db: Db, told: set<Obj>, t: string,
          rows: seq<nat>, j: nat, col: nat, pt: PropertyType, v: Input, exact: bool)
    requires Reached(c, start, db, told) && t in c.schemas && (forall r <- rows :: r < RowCount(start, t))
    requires col < |c.schemas[t].props| && c.schemas[t].primary != Some(col) && pt == c.schemas[t].props[col].ptype
    requires exact ==> Exact(c, start, last, ForceCreate, v)
    ensures Decides(AllAdmit(c.schemas, start, told, t, rows, j, col, pt, v), SetEach(c, db, t, rows, j, col, pt, v),
                    exact, last)
    decreases |rows| - j
  {
    hide SetProperty, Create, LegalLog, Replay, RowsKept, WellFormed, ValidSchemas, AdmitsInput, Reached, Exact;
    if j < |rows| {
      var x := Pos(t, rows[j], col);
      var s := SetProperty(c, db, x, pt, v, ForceCreate, false);
      ReachedNormal(c, start, db, told);
      ColumnTarget(c, db, t, col);
      assert rows[j] in rows && RowCount(start, t) <= RowCount(db, t);
      SetPropertyRuns(c, db, x, pt, v, ForceCreate, false);
      SetPropertyAdmitted(c, start, last, db, told, x, pt, v, ForceCreate, false, Some(x), exact);
      if s.res.Ok? {
        RunReady(c, db, s);
        SetPropertyUpserts(c, db, x, pt, v, ForceCreate, false);
        ReachedMore(c, start, db, told, s, InputClaims(c.schemas, pt.elem, v));
        SetEachAdmitted(c, start, last, s.db, told + Told(InputClaims(c.schemas, pt.elem, v)), t, rows, j + 1, col, pt,
                        v, exact);
        ColumnTarget(c, s.db, t, col);
        assert RowCount(db, t) <= RowCount(s.db, t);
        SetEachRuns(c, s.db, t, rows, j + 1, col, pt, v);
        OlderRun(c, s.db, SetEach(c, s.db, t, rows, j + 1, col, pt, v), last);
      }
    }
  }

  lemma ColumnTarget(c: Context, db: Db, t: string, col: nat)
    requires Normal(c, db) && t in c.schemas && col < |c.schemas[t].props| && c.schemas[t].primary != Some(col)
    ensures forall r: nat | r < RowCount(db, t) :: Target(c, db, Pos(t, r, col), c.schemas[t].props[col].ptype)
  {
    forall r: nat | r < RowCount(db, t) ensures Target(c, db, Pos(t, r, col), c.schemas[t].props[col].ptype) {
      assert RowFits(db, c.schemas[t], db[t][r]);
    }
  }

  /** Setting a property of all results succeeds exactly if every row that matches at the start
      admits the value, where from the second on the objects it describes exist already. */
  lemma SetAllSucceeds(c: Context, db: Db, t: string, query: Query, name: string, col: nat, v: Input)
    requires Normal(c, db) && t in c.schemas && Called(c.schemas[t], name, col) && c.schemas[t].primary != Some(col)
    ensures var s := SetAll(c, db, t, query, name, v);
            var pt := c.schemas[t].props[col].ptype;
            var ok := AllAdmit(c.schemas, db, {}, t, Matching(db, t, query, 0), 0, col, pt, v);
            && (ok ==> s.res.Ok?)
            && (Accessors(c, db, s.db, v) ==> (s.res.Ok? <==> ok))
  {
    hide AllAdmit, Reached, SetEach;
    NameMeans(c, t, name);
    var rows := Matching(db, t, query, 0);
    var s := SetAll(c, db, t, query, name, v);
    ReachedStart(c, db);
    SetEachAdmitted(c, db, s.db, db, {}, t, rows, 0, col, c.schemas[t].props[col].ptype, v, Accessors(c, db, s.db, v));
  }
}

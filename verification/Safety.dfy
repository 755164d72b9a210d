/**
 The transition system that every accessor operation runs in: which single writes are
 legal in which store, and what every legal write keeps.
 */
module Safety {
  import opened Schema
  import opened Store

  // ---- Well-formed stores ----

  predicate ItemFits(db: Db, et: ElementType, c: Cell) {
    match et
    case ScalarElement(ty) => c.Value? && TypeOf(c.v) == ty
    case ObjectElement(target) => c.Link? && c.row < RowCount(db, target)
  }

  predicate CellFits(db: Db, pt: PropertyType, c: Cell) {
    if pt.Array? then c.Items? && forall item <- c.items :: ItemFits(db, pt.elem, item)
    else ItemFits(db, pt.elem, c) || (c == Null && pt.Nullable())
  }

  predicate RowFits(db: Db, os: ObjectSchema, row: Row) {
    |row| == |os.props| && forall i | 0 <= i < |row| :: CellFits(db, os.props[i].ptype, row[i])
  }

  // Every cell has its property's type, and every link and list element names an existing row.
  predicate WellFormed(schemas: Schemas, db: Db) {
    db.Keys == schemas.Keys
    && forall t, r | t in db && 0 <= r < |db[t]| :: RowFits(db, schemas[t], db[t][r])
  }

  // No two rows of a table share a primary key.
  predicate UniqueKeys(schemas: Schemas, db: Db) {
    forall t | t in schemas && schemas[t].primary.Some? :: UniqueColumn(db, t, schemas[t].primary.value)
  }

  predicate UniqueColumn(db: Db, t: string, pk: nat) {
    forall r1: nat, r2: nat | r1 < r2 < RowCount(db, t) :: Get(db, Pos(t, r1, pk)) != Get(db, Pos(t, r2, pk))
  }

  // Rows stay where they are and, unless `keysToo` is false, keep their primary key.
  ghost predicate RowsKept(schemas: Schemas, db: Db, db': Db, keysToo: bool) {
    (forall t :: RowCount(db, t) <= RowCount(db', t))
    && (keysToo ==>
          forall t, r: nat | t in schemas && schemas[t].primary.Some? && r < RowCount(db, t) ::
            KeyAt(schemas, db', t, r) == KeyAt(schemas, db, t, r))
  }

  function KeyAt(schemas: Schemas, db: Db, t: string, r: nat): Cell {
    if t in schemas && schemas[t].primary.Some? then Get(db, Pos(t, r, schemas[t].primary.value)) else Null
  }

  lemma RowsKeptTransitive(schemas: Schemas, a: Db, b: Db, d: Db)
    requires RowsKept(schemas, a, b, true) && RowsKept(schemas, b, d, true)
    ensures RowsKept(schemas, a, d, true)
  {
    forall t ensures RowCount(a, t) <= RowCount(d, t) {
      assert RowCount(a, t) <= RowCount(b, t);
    }
    forall t, r: nat | t in schemas && schemas[t].primary.Some? && r < RowCount(a, t)
      ensures KeyAt(schemas, d, t, r) == KeyAt(schemas, a, t, r)
    {
      assert RowCount(a, t) <= RowCount(b, t);
      assert KeyAt(schemas, b, t, r) == KeyAt(schemas, a, t, r);
    }
  }

  // ---- Legal writes ----

  predicate FreshKey(db: Db, t: string, pk: nat, key: Cell) {
    forall r: nat | r < RowCount(db, t) :: Get(db, Pos(t, r, pk)) != key
  }

  predicate LegalNewRow(c: Context, db: Db, t: string, cells: Row) {
    && t in c.schemas
    && var os := c.schemas[t];
       if os.primary.Some? && !(c.inMigration && cells == EmptyRow(os)) then
         var pk := os.primary.value;
         && pk < |os.props| == |cells|
         && cells == EmptyRow(os)[pk := cells[pk]]
         && CellFits(db, os.props[pk].ptype, cells[pk])
         && FreshKey(db, t, pk, cells[pk])
       else cells == EmptyRow(os)
  }

  predicate Column(c: Context, db: Db, x: Pos, isList: bool) {
    && Has(db, x)
    && x.table in c.schemas
    && x.col < |c.schemas[x.table].props|
    && c.schemas[x.table].props[x.col].ptype.Array? == isList
    && (c.schemas[x.table].IsPrimary(x.col) ==> c.inMigration)
  }

  predicate LegalWrite(c: Context, db: Db, w: Write) {
    match w
    case NewRow(t, cells) => LegalNewRow(c, db, t, cells)
    case SetCell(x, cell) =>
      Column(c, db, x, false) && CellFits(db, c.schemas[x.table].props[x.col].ptype, cell)
    case SetItem(x, i, item) =>
      && Column(c, db, x, true) && i < |ItemsAt(db, x)|
      && ItemFits(db, c.schemas[x.table].props[x.col].ptype.elem, item)
    case AddItem(x, item) =>
      Column(c, db, x, true) && ItemFits(db, c.schemas[x.table].props[x.col].ptype.elem, item)
    case RemoveItem(x, i) => Column(c, db, x, true) && i < |ItemsAt(db, x)|
    case ClearItems(x) => Column(c, db, x, true)
  }

  predicate LegalLog(c: Context, db: Db, log: seq<Write>) {
    log == [] || (LegalWrite(c, db, log[0]) && LegalLog(c, Apply(db, log[0]), log[1..]))
  }

  lemma {:induction false} LegalConcat(c: Context, db: Db, a: seq<Write>, b: seq<Write>)
    requires LegalLog(c, db, a) && LegalLog(c, Replay(db, a), b)
    ensures LegalLog(c, db, a + b)
    decreases a
  {
    if a == [] {
      assert a + b == b;
    } else {
      assert (a + b)[1..] == a[1..] + b;
      LegalConcat(c, Apply(db, a[0]), a[1..], b);
    }
  }

  // ---- What a legal write keeps ----

  lemma CellFitsGrows(db: Db, db': Db, pt: PropertyType, cell: Cell)
    requires forall t :: RowCount(db, t) <= RowCount(db', t)
    requires CellFits(db, pt, cell)
    ensures CellFits(db', pt, cell)
  {
  }

  lemma RowFitsGrows(db: Db, db': Db, os: ObjectSchema, row: Row)
    requires forall t :: RowCount(db, t) <= RowCount(db', t)
    requires RowFits(db, os, row)
    ensures RowFits(db', os, row)
  {
    forall i | 0 <= i < |row| ensures CellFits(db', os.props[i].ptype, row[i]) {
      CellFitsGrows(db, db', os.props[i].ptype, row[i]);
    }
  }

  lemma EmptyRowFits(db: Db, schemas: Schemas, os: ObjectSchema)
    requires ValidObjectSchema(schemas, os)
    ensures RowFits(db, os, EmptyRow(os))
  {
  }

  lemma SetKeepsWellFormed(c: Context, db: Db, x: Pos, cell: Cell)
    requires WellFormed(c.schemas, db) && Has(db, x)
    requires CellFits(db, c.schemas[x.table].props[x.col].ptype, cell)
    ensures WellFormed(c.schemas, Set(db, x, cell))
  {
    var db' := Set(db, x, cell);
    forall t, r | t in db' && 0 <= r < |db'[t]| ensures RowFits(db', c.schemas[t], db'[t][r]) {
      RowFitsGrows(db, db', c.schemas[t], db[t][r]);
      CellFitsGrows(db, db', c.schemas[x.table].props[x.col].ptype, cell);
    }
  }

  lemma NewRowKeepsWellFormed(c: Context, db: Db, t: string, cells: Row)
    requires ValidSchemas(c.schemas) && WellFormed(c.schemas, db) && LegalNewRow(c, db, t, cells)
    ensures WellFormed(c.schemas, Apply(db, NewRow(t, cells)))
  {
    var db' := Apply(db, NewRow(t, cells));
    EmptyRowFits(db, c.schemas, c.schemas[t]);
    assert RowFits(db, c.schemas[t], cells);
    forall u, r | u in db' && 0 <= r < |db'[u]| ensures RowFits(db', c.schemas[u], db'[u][r]) {
      RowFitsGrows(db, db', c.schemas[u], if r < |db[u]| then db[u][r] else cells);
    }
  }

  lemma WriteKeepsWellFormed(c: Context, db: Db, w: Write)
    requires ValidSchemas(c.schemas) && WellFormed(c.schemas, db) && LegalWrite(c, db, w)
    ensures WellFormed(c.schemas, Apply(db, w))
  {
    match w
    case NewRow(t, cells) => NewRowKeepsWellFormed(c, db, t, cells);
    case SetCell(x, cell) => SetKeepsWellFormed(c, db, x, cell);
    case _ =>
      var x := w.at;
      var pt := c.schemas[x.table].props[x.col].ptype;
      assert RowFits(db, c.schemas[x.table], db[x.table][x.row]);
      assert CellFits(db, pt, Get(db, x));
      SetKeepsWellFormed(c, db, x, Get(Apply(db, w), x));
  }

  lemma WriteKeepsRows(c: Context, db: Db, w: Write)
    requires ValidSchemas(c.schemas) && LegalWrite(c, db, w)
    ensures RowsKept(c.schemas, db, Apply(db, w), !c.inMigration)
  {
  }

  lemma WriteKeepsUniqueKeys(c: Context, db: Db, w: Write)
    requires ValidSchemas(c.schemas) && LegalWrite(c, db, w) && !c.inMigration
    requires WellFormed(c.schemas, db) && UniqueKeys(c.schemas, db)
    ensures UniqueKeys(c.schemas, Apply(db, w))
  {
    var db' := Apply(db, w);
    WriteKeepsRows(c, db, w);
    forall t | t in c.schemas && c.schemas[t].primary.Some? ensures UniqueColumn(db', t, c.schemas[t].primary.value) {
      var pk := c.schemas[t].primary.value;
      assert UniqueColumn(db, t, pk);
      forall r1: nat, r2: nat | r1 < r2 < RowCount(db', t)
        ensures Get(db', Pos(t, r1, pk)) != Get(db', Pos(t, r2, pk))
      {
        assert KeyAt(c.schemas, db', t, r1) == KeyAt(c.schemas, db, t, r1);
        if r2 < RowCount(db, t) {
          assert KeyAt(c.schemas, db', t, r2) == KeyAt(c.schemas, db, t, r2);
        } else {
          assert w.NewRow? && FreshKey(db, t, pk, w.cells[pk]);
        }
      }
    }
  }

  // ---- What every run keeps ----

  lemma {:induction false} LogKeepsRows(c: Context, db: Db, log: seq<Write>)
    requires ValidSchemas(c.schemas) && WellFormed(c.schemas, db) && LegalLog(c, db, log)
    ensures WellFormed(c.schemas, Replay(db, log))
    ensures RowsKept(c.schemas, db, Replay(db, log), !c.inMigration)
    decreases log
  {
    if log != [] {
      var mid := Apply(db, log[0]);
      WriteKeepsWellFormed(c, db, log[0]);
      WriteKeepsRows(c, db, log[0]);
      LogKeepsRows(c, mid, log[1..]);
      forall t, r: nat | !c.inMigration && t in c.schemas && c.schemas[t].primary.Some? && r < RowCount(db, t)
        ensures KeyAt(c.schemas, Replay(db, log), t, r) == KeyAt(c.schemas, db, t, r)
      {
        assert RowCount(db, t) <= RowCount(mid, t);
        assert KeyAt(c.schemas, mid, t, r) == KeyAt(c.schemas, db, t, r);
      }
    }
  }

  lemma {:induction false} LogKeepsUniqueKeys(c: Context, db: Db, log: seq<Write>)
    requires ValidSchemas(c.schemas) && WellFormed(c.schemas, db) && LegalLog(c, db, log)
    requires !c.inMigration && UniqueKeys(c.schemas, db)
    ensures UniqueKeys(c.schemas, Replay(db, log))
    decreases log
  {
    if log != [] {
      WriteKeepsWellFormed(c, db, log[0]);
      WriteKeepsUniqueKeys(c, db, log[0]);
      LogKeepsUniqueKeys(c, Apply(db, log[0]), log[1..]);
    }
  }
}

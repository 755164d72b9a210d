/**
 The tables of a Realm file and the writes the accessor code issues to them.

 Rows are only ever appended, so a row index identifies an object for good.
 */
module Store {
  import opened Schema

  // A link cell holds a row of the property's target type; a null link is `Null`.
  datatype Cell = Null | Value(v: Scalar) | Link(row: nat) | Items(items: seq<Cell>)

  type Row = seq<Cell>
  type Db = map<string, seq<Row>>

  predicate Has(db: Db, x: Pos) {
    x.table in db && x.row < |db[x.table]| && x.col < |db[x.table][x.row]|
  }

  function Get(db: Db, x: Pos): Cell {
    if Has(db, x) then db[x.table][x.row][x.col] else Null
  }

  function Set(db: Db, x: Pos, c: Cell): Db {
    if Has(db, x) then
      db[x.table := db[x.table][x.row := db[x.table][x.row][x.col := c]]]
    else db
  }

  function ItemsAt(db: Db, x: Pos): seq<Cell> {
    if Get(db, x).Items? then Get(db, x).items else []
  }

  function LinkedRow(c: Cell): Option<nat> {
    if c.Link? then Some(c.row) else None
  }

  function RowCount(db: Db, t: string): nat {
    if t in db then |db[t]| else 0
  }

  function DefaultCell(pt: PropertyType): Cell {
    if pt.Array? then Items([])
    else if pt.Nullable() then Null
    else if pt.elem.ScalarElement? then Value(Zero(pt.elem.ty))
    else Null
  }

  function EmptyRow(os: ObjectSchema): Row {
    seq(|os.props|, i requires 0 <= i < |os.props| => DefaultCell(os.props[i].ptype))
  }

  // The first row, if any, whose column `col` holds `key`.
  function FindFirst(rows: seq<Row>, col: nat, key: Cell): (r: Option<nat>)
    ensures r.Some? ==>
              r.value < |rows| && col < |rows[r.value]| && rows[r.value][col] == key
              && forall i | 0 <= i < r.value && col < |rows[i]| :: rows[i][col] != key
    ensures r.None? ==> forall i | 0 <= i < |rows| && col < |rows[i]| :: rows[i][col] != key
  {
    FindFrom(rows, col, key, 0)
  }

  function FindFrom(rows: seq<Row>, col: nat, key: Cell, from: nat): (r: Option<nat>)
    requires from <= |rows|
    ensures r.Some? ==>
              from <= r.value < |rows| && col < |rows[r.value]| && rows[r.value][col] == key
              && forall i | from <= i < r.value && col < |rows[i]| :: rows[i][col] != key
    ensures r.None? ==> forall i | from <= i < |rows| && col < |rows[i]| :: rows[i][col] != key
    decreases |rows| - from
  {
    if from == |rows| then None
    else if col < |rows[from]| && rows[from][col] == key then Some(from)
    else FindFrom(rows, col, key, from + 1)
  }

  // ---- Writes ----

  datatype Write =
    | NewRow(table: string, cells: Row)
    | SetCell(at: Pos, cell: Cell)
    | SetItem(at: Pos, index: nat, item: Cell)
    | AddItem(at: Pos, item: Cell)
    | RemoveItem(at: Pos, index: nat)
    | ClearItems(at: Pos)

  function Apply(db: Db, w: Write): Db {
    match w
    case NewRow(t, cells) => if t in db then db[t := db[t] + [cells]] else db
    case SetCell(x, cell) => Set(db, x, cell)
    case SetItem(x, i, item) =>
      var items := ItemsAt(db, x);
      if i < |items| then Set(db, x, Items(items[i := item])) else db
    case AddItem(x, item) => Set(db, x, Items(ItemsAt(db, x) + [item]))
    case RemoveItem(x, i) =>
      var items := ItemsAt(db, x);
      if i < |items| then Set(db, x, Items(items[..i] + items[i + 1..])) else db
    case ClearItems(x) => Set(db, x, Items([]))
  }

  function Replay(db: Db, log: seq<Write>): Db {
    if log == [] then db else Replay(Apply(db, log[0]), log[1..])
  }

  lemma {:induction false} ReplayConcat(db: Db, a: seq<Write>, b: seq<Write>)
    ensures Replay(db, a + b) == Replay(Replay(db, a), b)
    decreases a
  {
    if a == [] {
      assert a + b == b;
    } else {
      assert (a + b)[1..] == a[1..] + b;
      ReplayConcat(Apply(db, a[0]), a[1..], b);
    }
  }

  // ---- Cell algebra ----

  lemma GetSet(db: Db, x: Pos, c: Cell, y: Pos)
    ensures Has(Set(db, x, c), y) == Has(db, y)
    ensures Get(Set(db, x, c), y) == if x == y && Has(db, x) then c else Get(db, y)
  {
  }

  lemma SetSame(db: Db, x: Pos)
    ensures Set(db, x, Get(db, x)) == db
  {
    if Has(db, x) {
      assert db[x.table][x.row][x.col := db[x.table][x.row][x.col]] == db[x.table][x.row];
      assert db[x.table][x.row := db[x.table][x.row]] == db[x.table];
      assert db[x.table := db[x.table]] == db;
    }
  }

  lemma SetTwice(db: Db, x: Pos, a: Cell, b: Cell)
    ensures Set(Set(db, x, a), x, b) == Set(db, x, b)
  {
    if Has(db, x) {
      var r := db[x.table][x.row];
      assert r[x.col := a][x.col := b] == r[x.col := b];
      var rows := db[x.table];
      assert rows[x.row := r[x.col := a]][x.row := r[x.col := b]] == rows[x.row := r[x.col := b]];
    }
  }

  lemma SetSwap(db: Db, x: Pos, a: Cell, y: Pos, b: Cell)
    requires x != y
    ensures Set(Set(db, x, a), y, b) == Set(Set(db, y, b), x, a)
  {
    if Has(db, x) && Has(db, y) {
      if x.table == y.table {
        var rows := db[x.table];
        if x.row == y.row {
          assert rows[x.row][x.col := a][y.col := b] == rows[x.row][y.col := b][x.col := a];
        }
        assert Set(Set(db, x, a), y, b)[x.table] == Set(Set(db, y, b), x, a)[x.table];
      }
      assert Set(Set(db, x, a), y, b) == Set(Set(db, y, b), x, a);
    }
  }
}

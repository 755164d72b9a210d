/**
 Building link paths for an include descriptor from key paths.
 */
module KeyPaths {
  import opened Schema

  type Table = string

  datatype PathError = EmptyPath | InvalidElement | NotALink

  // One step that the key path mapping finds: a column of `table`, which is the current table for
  // a forward property and the origin table for a backlink. No column stands for `npos`.
  datatype Element = Element(table: Table, column: Option<nat>, isLink: bool, isBacklink: bool)

  datatype Found = Found(element: Element, index: nat)

  datatype PathResult<+T> = Path(value: T) | Invalid(error: PathError)

  // The tables of the file: the target table of each link column.
  type Links = map<(Table, nat), Table>

  // A step of a link path; `from` is given for backlinks only.
  datatype LinkPathPart = LinkPathPart(column: nat, from: Option<Table>)

  type KeyPath = seq<string>

  // The mapping from a table, a key path and a position in it to the next element.
  type Mapping = (Table, KeyPath, nat) -> Option<Found>

  // What the mapping guarantees: it consumes at least one name and stays within the path, a link
  // it finds is a link column, and a backlink's column links to the current table.
  ghost predicate ValidMapping(links: Links, mapping: Mapping) {
    forall table, path, index: nat | index < |path| && mapping(table, path, index).Some? ::
      var found := mapping(table, path, index).value;
      var e := found.element;
      && index < found.index <= |path|
      && (e.isLink ==> e.column.Some? && (e.table, e.column.value) in links)
      && (e.isBacklink ==> e.isLink && links[(e.table, e.column.value)] == table)
      && (!e.isBacklink ==> e.table == table)
  }

  // Where one part leads from a table: forward to the target of its column, or backward to the
  // origin of a column that links to the table. None if it is no link there.
  function PartLeads(links: Links, table: Table, part: LinkPathPart): Option<Table> {
    if part.from.Some? then
      if (part.from.value, part.column) in links && links[(part.from.value, part.column)] == table then part.from
      else None
    else if (table, part.column) in links then Some(links[(table, part.column)])
    else None
  }

  // The table that following the path from `table` leads to, if every part is a link there.
  function Follow(links: Links, table: Table, parts: seq<LinkPathPart>): Option<Table>
    decreases |parts|
  {
    if parts == [] then Some(table)
    else
      var next := PartLeads(links, table, parts[0]);
      if next.None? then None else Follow(links, next.value, parts[1..])
  }

  // Where the loop goes next. For a backlink whose origin is the current table it follows the
  // column forward.
  function NextTable(links: Links, current: Table, e: Element): Table
    requires e.column.Some? && (e.table, e.column.value) in links
  {
    if e.table == current then links[(e.table, e.column.value)] else e.table
  }

  function PartFor(e: Element): LinkPathPart
    requires e.column.Some?
  {
    LinkPathPart(e.column.value, if e.isBacklink then Some(e.table) else None)
  }

  // The parts for the names of the path from `index` on.
  function PartsFrom(links: Links, mapping: Mapping, current: Table, path: KeyPath,
          index: nat): PathResult<seq<LinkPathPart>>
    requires ValidMapping(links, mapping)
    decreases |path| - index
  {
    if index >= |path| then Path([])
    else
      var found := mapping(current, path, index);
      if found.None? then Invalid(InvalidElement)
      else if !found.value.element.isLink then Invalid(NotALink)
      else
        var e := found.value.element;
        var rest := PartsFrom(links, mapping, NextTable(links, current, e), path, found.value.index);
        if rest.Invalid? then rest else Path([PartFor(e)] + rest.value)
  }

  /** A backlink from a table to itself: the shortcut lands on the same table as for any other
      backlink, its origin. */
  lemma SelfBacklinkLands(links: Links, mapping: Mapping, table: Table, path: KeyPath, index: nat)
    requires ValidMapping(links, mapping) && index < |path| && mapping(table, path, index).Some?
    requires mapping(table, path, index).value.element.isBacklink
    ensures var e := mapping(table, path, index).value.element;
            NextTable(links, table, e) == e.table
  {
    var e := mapping(table, path, index).value.element;
    assert e.table == table ==> links[(e.table, e.column.value)] == table;
  }

  /** The parts built for a path are a chain of links: each starts at the table reached so far,
      forward links move to their target and backlinks to their origin. */
  lemma {:induction false} PartsAreLinked(links: Links, mapping: Mapping, current: Table, path: KeyPath, index: nat)
    requires ValidMapping(links, mapping)
    ensures var r := PartsFrom(links, mapping, current, path, index);
            r.Path? ==>
              && Follow(links, current, r.value).Some?
              && (index < |path| ==> 0 < |r.value| <= |path| - index)
    decreases |path| - index
  {
    if index < |path| {
      var found := mapping(current, path, index);
      if found.Some? && found.value.element.isLink {
        var e := found.value.element;
        PartsAreLinked(links, mapping, NextTable(links, current, e), path, found.value.index);
        assert PartLeads(links, current, PartFor(e)) == Some(NextTable(links, current, e));
      }
    }
  }

  // ---- The walk along a path ----

  // The elements that the mapping yields one after the other: `stops` are the positions in the path
  // and `tables` the tables where it is asked. A forward link leads to the table its column links
  // to, a backlink to its origin.
  ghost predicate Walk(links: Links, mapping: Mapping, path: KeyPath, found: seq<Element>, stops: seq<nat>,
          tables: seq<Table>) {
    && |stops| == |tables| == |found| + 1
    && forall j: nat | j < |found| ::
         Leads(links, mapping, path, found[j], stops[j], stops[j + 1], tables[j], tables[j + 1])
  }

  ghost predicate Leads(links: Links, mapping: Mapping, path: KeyPath, e: Element, stop: nat, next: nat,
          table: Table, target: Table) {
    && stop < |path| && mapping(table, path, stop) == Some(Found(e, next))
    && e.isLink && e.column.Some?
    && (if e.isBacklink then target == e.table
        else (table, e.column.value) in links && target == links[(table, e.column.value)])
  }

  // Where the walk got to, and what that makes of the path.
  ghost predicate Ends(links: Links, mapping: Mapping, path: KeyPath, found: seq<Element>, stops: seq<nat>,
          tables: seq<Table>, r: PathResult<seq<LinkPathPart>>)
    requires |stops| == |tables| == |found| + 1
  {
    var stop, table := stops[|found|], tables[|found|];
    match r
    case Path(parts) =>
      && stop >= |path| && |parts| == |found|
      && forall j: nat | j < |parts| :: found[j].column.Some? && parts[j] == PartFor(found[j])
    case Invalid(InvalidElement) => stop < |path| && mapping(table, path, stop).None?
    case Invalid(NotALink) =>
      stop < |path| && mapping(table, path, stop).Some? && !mapping(table, path, stop).value.element.isLink
    case Invalid(EmptyPath) => false
  }

  /** The parts of a path are the elements that the mapping yields along all of it; a path is refused
      exactly where the mapping yields nothing or something that is not a link. */
  lemma {:induction false} PartsAreMapped(links: Links, mapping: Mapping, current: Table, path: KeyPath, index: nat)
    requires ValidMapping(links, mapping)
    ensures exists found, stops, tables ::
              && Walk(links, mapping, path, found, stops, tables) && stops[0] == index && tables[0] == current
              && Ends(links, mapping, path, found, stops, tables, PartsFrom(links, mapping, current, path, index))
    decreases |path| - index
  {
    var r := PartsFrom(links, mapping, current, path, index);
    if index < |path| && mapping(current, path, index).Some? && mapping(current, path, index).value.element.isLink {
      var e := mapping(current, path, index).value.element;
      var next := mapping(current, path, index).value.index;
      var table := NextTable(links, current, e);
      PartsAreMapped(links, mapping, table, path, next);
      var found, stops, tables :|
        && Walk(links, mapping, path, found, stops, tables) && stops[0] == next && tables[0] == table
        && Ends(links, mapping, path, found, stops, tables, PartsFrom(links, mapping, table, path, next));
      if e.isBacklink { SelfBacklinkLands(links, mapping, current, path, index); }
      WalkStep(links, mapping, current, path, index, found, stops, tables);
      assert Ends(links, mapping, path, [e] + found, [index] + stops, [current] + tables, r);
    } else {
      assert Walk(links, mapping, path, [], [index], [current]);
      assert Ends(links, mapping, path, [], [index], [current], r);
    }
  }

  lemma WalkStep(links: Links, mapping: Mapping, current: Table, path: KeyPath, index: nat, found: seq<Element>,
          stops: seq<nat>, tables: seq<Table>)
    requires ValidMapping(links, mapping) && index < |path|
    requires mapping(current, path, index).Some? && mapping(current, path, index).value.element.isLink
    requires Walk(links, mapping, path, found, stops, tables)
    requires stops[0] == mapping(current, path, index).value.index
    requires tables[0] == NextTable(links, current, mapping(current, path, index).value.element)
    ensures var e := mapping(current, path, index).value.element;
            Walk(links, mapping, path, [e] + found, [index] + stops, [current] + tables)
  {
    var e := mapping(current, path, index).value.element;
    if e.isBacklink { SelfBacklinkLands(links, mapping, current, path, index); }
    var found', stops', tables' := [e] + found, [index] + stops, [current] + tables;
    forall j: nat | j < |found'|
      ensures Leads(links, mapping, path, found'[j], stops'[j], stops'[j + 1], tables'[j], tables'[j + 1])
    {
      if j > 0 {
        assert Leads(links, mapping, path, found[j - 1], stops[j - 1], stops[j - 1 + 1], tables[j - 1],
                     tables[j - 1 + 1]);
      }
    }
  }

  method LinksForPath(links: Links, mapping: Mapping, base: Table,
          path: KeyPath) returns (res: PathResult<seq<LinkPathPart>>)
    requires ValidMapping(links, mapping)
    ensures res == PartsFrom(links, mapping, base, path, 0)
  {
    var index: nat := 0;
    var parts: seq<LinkPathPart> := [];
    var current := base;
    ghost var whole := PartsFrom(links, mapping, base, path, 0);
    assert whole.Path? ==> parts + whole.value == whole.value;
    while index < |path|
      invariant index <= |path|
      invariant var rest := PartsFrom(links, mapping, current, path, index);
                whole == if rest.Path? then Path(parts + rest.value) else rest
      decreases |path| - index
    {
      var found := mapping(current, path, index);
      if found.None? {
        return Invalid(InvalidElement);
      }
      var e := found.value.element;
      if !e.isLink {
        return Invalid(NotALink);
      }
      ghost var rest := PartsFrom(links, mapping, NextTable(links, current, e), path, found.value.index);
      assert rest.Path? ==> parts + ([PartFor(e)] + rest.value) == parts + [PartFor(e)] + rest.value;
      current := NextTable(links, current, e);
      parts := parts + [PartFor(e)];
      index := found.value.index;
    }
    assert parts + [] == parts;
    return Path(parts);
  }

  /** One well-typed chain of links from the base table for each key path, in order; the first
      path that is empty or leads over something else than links is an error. */
  method GenerateInclude(links: Links, mapping: Mapping, base: Table, paths: seq<KeyPath>)
    returns (res: PathResult<seq<seq<LinkPathPart>>>)
    requires ValidMapping(links, mapping)
    ensures res.Path? <==>
              forall i | 0 <= i < |paths| :: paths[i] != [] && PartsFrom(links, mapping, base, paths[i], 0).Path?
    ensures res.Path? ==>
              |res.value| == |paths| && forall i | 0 <= i < |paths| ::
                && PartsFrom(links, mapping, base, paths[i], 0) == Path(res.value[i])
                && res.value[i] != [] && Follow(links, base, res.value[i]).Some?
  {
    var properties: seq<seq<LinkPathPart>> := [];
    var i := 0;
    while i < |paths|
      invariant i <= |paths| && |properties| == i
      invariant forall j | 0 <= j < i ::
                  && paths[j] != [] && PartsFrom(links, mapping, base, paths[j], 0) == Path(properties[j])
                  && properties[j] != [] && Follow(links, base, properties[j]).Some?
    {
      if paths[i] == [] {
        return Invalid(EmptyPath);
      }
      var r := LinksForPath(links, mapping, base, paths[i]);
      PartsAreLinked(links, mapping, base, paths[i], 0);
      if r.Invalid? {
        return Invalid(r.error);
      }
      properties := properties + [r.value];
      i := i + 1;
    }
    return Path(properties);
  }
}

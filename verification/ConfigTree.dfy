/** The tree of keys and values that the TOML text of Herdr's configuration stands for,
    and its sidebar rows (src/herdr_config.rs). */
module ConfigTree {
  import opened Wrappers

  /** A value: a string, an array, or anything else, by its text. */
  datatype Value = Str(text: string) | Arr(elements: seq<Value>) | Other(text: string)

  /** What a key holds: a value, a table, or an array of tables. */
  datatype Item = Leaf(value: Value) | Node(table: Table) | Tables(tables: seq<Table>)

  datatype Table = Table(entries: map<string, Item>)

  const EMPTY := Table(map[])

  datatype ConfigError = NotATable | RowsNotAnArray | NoDefaultRows | MoreThanOneRowChanged

  const PORTS_ROW := Arr([Str("$port_forward_status")])

  predicate HasPortsRow(rows: seq<Value>) { PORTS_ROW in rows }

  /** How many rows are the ports row. */
  function PortsRows(rows: seq<Value>): nat { multiset(rows)[PORTS_ROW] }

  function OtherRows(rows: seq<Value>): seq<Value> {
    if rows == [] then []
    else OtherRows(rows[..|rows| - 1]) + if rows[|rows| - 1] == PORTS_ROW then [] else [rows[|rows| - 1]]
  }

  /** The first ports row is taken out. */
  function WithoutPortsRow(rows: seq<Value>): seq<Value> {
    if rows == [] then []
    else if rows[0] == PORTS_ROW then rows[1..]
    else [rows[0]] + WithoutPortsRow(rows[1..])
  }

  /** The table with one key set. */
  function Put(t: Table, key: string, item: Item): Table { Table(t.entries[key := item]) }

  /** `table_at`, one step. */
  function Below(t: Table, key: string): Option<Table> {
    if key in t.entries && t.entries[key].Node? then Some(t.entries[key].table) else None
  }

  function Spaces(root: Table): Option<Table> {
    match Below(root, "ui")
    case None => None
    case Some(ui) =>
      match Below(ui, "sidebar")
      case None => None
      case Some(sidebar) => Below(sidebar, "spaces")
  }

  /** `sidebar_rows_or_error`: the explicit rows, none, or rows that are no array. */
  function SidebarRows(root: Table): Result<Option<seq<Value>>, ConfigError> {
    match Spaces(root)
    case None => Ok(None)
    case Some(spaces) =>
      if "rows" !in spaces.entries then Ok(None)
      else
        var rows := spaces.entries["rows"];
        if rows.Leaf? && rows.value.Arr? then Ok(Some(rows.value.elements)) else Err(RowsNotAnArray)
  }

  /** `ensure_table`: the table under a key, a new one if there is nothing. */
  function EnsureTable(parent: Table, key: string): Result<Table, ConfigError> {
    if key !in parent.entries then Ok(EMPTY)
    else if parent.entries[key].Node? then Ok(parent.entries[key].table) else Err(NotATable)
  }

  /** The configuration with these explicit rows. */
  function SetRows(root: Table, rows: seq<Value>): Result<Table, ConfigError> {
    match EnsureTable(root, "ui")
    case Err(e) => Err(e)
    case Ok(ui) =>
      match EnsureTable(ui, "sidebar")
      case Err(e) => Err(e)
      case Ok(sidebar) =>
        match EnsureTable(sidebar, "spaces")
        case Err(e) => Err(e)
        case Ok(spaces) =>
          var spaces' := Put(spaces, "rows", Leaf(Arr(rows)));
          var sidebar' := Put(sidebar, "spaces", Node(spaces'));
          var ui' := Put(ui, "sidebar", Node(sidebar'));
          Ok(Put(root, "ui", Node(ui')))
  }

  // ---------------------------------------------------------------------------
  // Paths
  // ---------------------------------------------------------------------------

  datatype Step = Key(name: string) | Index(position: nat)

  type Path = seq<Step>

  const ROWS_PATH: Path := [Key("ui"), Key("sidebar"), Key("spaces"), Key("rows")]

  /** The value at the end of a path, if the path leads to one. */
  function ValueAt(t: Table, path: Path): Option<Value>
    decreases |path|, 0
  {
    if path == [] || !path[0].Key? || path[0].name !in t.entries then None
    else ValueIn(t.entries[path[0].name], path[1..])
  }

  function ValueIn(item: Item, path: Path): Option<Value>
    decreases |path|, 1
  {
    match item
    case Leaf(v) => if path == [] then Some(v) else None
    case Node(table) => if path == [] then None else ValueAt(table, path)
    case Tables(tables) =>
      if path != [] && path[0].Index? && path[0].position < |tables|
      then ValueAt(tables[path[0].position], path[1..])
      else None
  }

  /** The same values at the same paths, the rows apart. */
  ghost predicate SameOutside(a: Table, b: Table) {
    forall path: Path :: !(ROWS_PATH <= path) ==> ValueAt(a, path) == ValueAt(b, path)
  }
}

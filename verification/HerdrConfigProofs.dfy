/** How the edits of Herdr's configuration combine. A refused edit leaves the
    configuration as it is, so that every edit is a function on configurations. */
module HerdrConfigProofs {
  import opened Wrappers
  import opened ConfigTree
  import opened HerdrConfig

  function RowsOf(root: Table): Option<seq<Value>> {
    if SidebarRows(root).Ok? then SidebarRows(root).value else None
  }

  lemma PortsRowSetCases(root: Table, enabled: bool, defaults: Option<seq<Value>>)
    ensures SidebarRows(root).Err? ==> PortsRowSet(root, enabled, defaults) == root
    ensures SidebarRows(root).Ok? && enabled ==>
              var before := if RowsOf(root).Some? then RowsOf(root) else defaults;
              PortsRowSet(root, enabled, defaults) ==
              if before.None? || HasPortsRow(before.value) || SetRows(root, before.value + [PORTS_ROW]).Err? then root
              else SetRows(root, before.value + [PORTS_ROW]).value
    ensures SidebarRows(root).Ok? && !enabled ==>
              PortsRowSet(root, enabled, defaults) ==
              if RowsOf(root).None? || PortsRows(RowsOf(root).value) != 1
                 || SetRows(root, WithoutPortsRow(RowsOf(root).value)).Err? then root
              else SetRows(root, WithoutPortsRow(RowsOf(root).value)).value
  {
    hide SidebarRows, SetRows, HasPortsRow, PortsRows, WithoutPortsRow;
  }

  lemma PushedHasPortsRow(rows: seq<Value>)
    ensures HasPortsRow(rows + [PORTS_ROW])
  {
    assert (rows + [PORTS_ROW])[|rows|] == PORTS_ROW;
  }

  /** Switching the row on twice is like once, and so is switching it off twice. */
  lemma SwitchingIsIdempotent(root: Table, enabled: bool, defaults: Option<seq<Value>>)
    ensures var once := PortsRowSet(root, enabled, defaults); PortsRowSet(once, enabled, defaults) == once
  {
    hide *;
    var once := PortsRowSet(root, enabled, defaults);
    PortsRowSetCases(root, enabled, defaults);
    PortsRowSetCases(once, enabled, defaults);
    if once != root {
      RowsWereFound(root);
      if enabled {
        var before := if RowsOf(root).Some? then RowsOf(root) else defaults;
        RowsAreSet(root, before.value + [PORTS_ROW]);
        RowsWereSet(once, before.value + [PORTS_ROW]);
        PushedHasPortsRow(before.value);
      } else {
        var rows := RowsOf(root).value;
        RowsAreSet(root, WithoutPortsRow(rows));
        RowsWereSet(once, WithoutPortsRow(rows));
        CountsOfRows(rows);
        WithoutIs(rows);
      }
    }
  }

  lemma RowsWereSet(root: Table, rows: seq<Value>)
    requires SidebarRows(root) == Ok(Some(rows))
    ensures RowsOf(root) == Some(rows)
  {
  }

  lemma RowsWereFound(root: Table)
    ensures SidebarRows(root).Err? ==> RowsOf(root) == None
    ensures SidebarRows(root).Ok? ==> SidebarRows(root) == Ok(RowsOf(root))
  {
  }

  lemma {:induction false} PushAndTakeOut(rows: seq<Value>)
    requires !HasPortsRow(rows)
    ensures WithoutPortsRow(rows + [PORTS_ROW]) == rows
  {
    if rows == [] {
      assert (rows + [PORTS_ROW])[1..] == [];
    } else {
      assert (rows + [PORTS_ROW])[0] == rows[0] && (rows + [PORTS_ROW])[1..] == rows[1..] + [PORTS_ROW];
      PushAndTakeOut(rows[1..]);
    }
  }

  lemma SameRows(root: Table, rows: seq<Value>)
    requires SidebarRows(root) == Ok(Some(rows))
    ensures SetRows(root, rows) == Ok(root)
  {
    var ui := root.entries["ui"].table;
    var sidebar := ui.entries["sidebar"].table;
    var spaces := sidebar.entries["spaces"].table;
    PutSame(spaces, "rows", Leaf(Arr(rows)));
    PutSame(sidebar, "spaces", Node(spaces));
    PutSame(ui, "sidebar", Node(sidebar));
    PutSame(root, "ui", Node(ui));
  }

  /** Switching explicit rows on and off again restores the configuration if and only
      if they did not hold exactly one ports row. */
  lemma OnAndOffRestores(root: Table, rows: seq<Value>, defaults: Option<seq<Value>>)
    requires SidebarRows(root) == Ok(Some(rows))
    ensures PortsRowSet(PortsRowSet(root, true, defaults), false, defaults) == root <==> PortsRows(rows) != 1
  {
    hide *;
    RowsWereSet(root, rows);
    CountsOfRows(rows);
    var on := PortsRowSet(root, true, defaults);
    var off := PortsRowSet(on, false, defaults);
    PortsRowSetCases(root, true, defaults);
    PortsRowSetCases(on, false, defaults);
    if HasPortsRow(rows) {
      if PortsRows(rows) == 1 {
        RowsCanBeSet(root, WithoutPortsRow(rows));
        RowsAreSet(root, WithoutPortsRow(rows));
        WithoutIs(rows);
      }
    } else {
      RowsCanBeSet(root, rows + [PORTS_ROW]);
      RowsAreSet(root, rows + [PORTS_ROW]);
      RowsWereSet(on, rows + [PORTS_ROW]);
      PushAndTakeOut(rows);
      RowsAreReset(root, rows + [PORTS_ROW], rows);
      SameRows(root, rows);
    }
  }

  /** Without explicit rows, switching on and off leaves the default rows written down. */
  lemma OnAndOffWritesDefaults(root: Table, defaults: seq<Value>)
    requires SidebarRows(root) == Ok(None) && SetRows(root, defaults).Ok? && !HasPortsRow(defaults)
    ensures Ok(PortsRowSet(PortsRowSet(root, true, Some(defaults)), false, Some(defaults))) == SetRows(root, defaults)
  {
    hide *;
    RowsWereFound(root);
    CountsOfRows(defaults);
    SetRowsFails(root, defaults, defaults + [PORTS_ROW]);
    var on := PortsRowSet(root, true, Some(defaults));
    PortsRowSetCases(root, true, Some(defaults));
    PortsRowSetCases(on, false, Some(defaults));
    RowsAreSet(root, defaults + [PORTS_ROW]);
    RowsWereSet(on, defaults + [PORTS_ROW]);
    PushAndTakeOut(defaults);
    RowsAreReset(root, defaults + [PORTS_ROW], defaults);
  }

  // ---------------------------------------------------------------------------
  // The two settings do not disturb each other
  // ---------------------------------------------------------------------------

  /** Switching on Herdr's notifications; a refusal leaves the configuration. */
  function Notify(root: Table): Table { if Notified(root).Ok? then Notified(root).value else root }

  lemma PutsCommute(t: Table, a: string, x: Item, b: string, y: Item)
    requires a != b
    ensures Put(Put(t, a, x), b, y) == Put(Put(t, b, y), a, x)
  {
    assert t.entries[a := x][b := y] == t.entries[b := y][a := x];
  }

  /** Notifications touch only the toast table below `ui`. */
  lemma NotifyKeepsRows(root: Table)
    ensures SidebarRows(Notify(root)) == SidebarRows(root)
    ensures EnsureTable(Notify(root), "ui").Ok? <==> EnsureTable(root, "ui").Ok?
  {
  }

  /** What setting rows and notifying do to the table below `ui`. */
  function RowsInUi(ui: Table, rows: seq<Value>): Result<Table, ConfigError> {
    match EnsureTable(ui, "sidebar")
    case Err(e) => Err(e)
    case Ok(sidebar) =>
      match EnsureTable(sidebar, "spaces")
      case Err(e) => Err(e)
      case Ok(spaces) =>
        var inSpaces := Node(Put(spaces, "rows", Leaf(Arr(rows))));
        Ok(Put(ui, "sidebar", Node(Put(sidebar, "spaces", inSpaces))))
  }

  function ToastInUi(ui: Table): Result<Table, ConfigError> {
    match EnsureTable(ui, "toast")
    case Err(e) => Err(e)
    case Ok(toast) => Ok(Put(ui, "toast", Node(Put(toast, "delivery", DELIVERY))))
  }

  lemma ThroughUi(root: Table, rows: seq<Value>)
    ensures SetRows(root, rows) ==
            match EnsureTable(root, "ui")
            case Err(e) => Err(e)
            case Ok(ui) => match RowsInUi(ui, rows) case Err(e) => Err(e) case Ok(t) => Ok(Put(root, "ui", Node(t)))
    ensures Notified(root) ==
            match EnsureTable(root, "ui")
            case Err(e) => Err(e)
            case Ok(ui) => match ToastInUi(ui) case Err(e) => Err(e) case Ok(t) => Ok(Put(root, "ui", Node(t)))
  {
  }

  lemma UiCommutes(ui: Table, rows: seq<Value>)
    requires RowsInUi(ui, rows).Ok? && ToastInUi(ui).Ok?
    ensures RowsInUi(ToastInUi(ui).value, rows).Ok? && ToastInUi(RowsInUi(ui, rows).value).Ok?
    ensures RowsInUi(ToastInUi(ui).value, rows) == ToastInUi(RowsInUi(ui, rows).value)
  {
    var sidebar, toast := EnsureTable(ui, "sidebar").value, EnsureTable(ui, "toast").value;
    var spaces := EnsureTable(sidebar, "spaces").value;
    var x := Node(Put(sidebar, "spaces", Node(Put(spaces, "rows", Leaf(Arr(rows))))));
    var y := Node(Put(toast, "delivery", DELIVERY));
    PutsCommute(ui, "sidebar", x, "toast", y);
  }

  lemma UiPut(root: Table, ui: Table)
    ensures EnsureTable(Put(root, "ui", Node(ui)), "ui") == Ok(ui)
  {
  }

  lemma UiIndependent(ui: Table, rows: seq<Value>)
    ensures ToastInUi(ui).Ok? ==> (RowsInUi(ToastInUi(ui).value, rows).Ok? <==> RowsInUi(ui, rows).Ok?)
    ensures RowsInUi(ui, rows).Ok? ==> (ToastInUi(RowsInUi(ui, rows).value).Ok? <==> ToastInUi(ui).Ok?)
  {
  }

  /** Explicit rows and notifications, in either order. */
  lemma SettingCommutes(root: Table, rows: seq<Value>)
    ensures SetRows(Notify(root), rows).Ok? <==> SetRows(root, rows).Ok?
    ensures SetRows(root, rows).Ok? ==> SetRows(Notify(root), rows) == Ok(Notify(SetRows(root, rows).value))
  {
    hide RowsInUi, ToastInUi, EnsureTable, SetRows, Notified, Put;
    ThroughUi(root, rows);
    ThroughUi(Notify(root), rows);
    if EnsureTable(root, "ui").Ok? {
      var ui := EnsureTable(root, "ui").value;
      UiIndependent(ui, rows);
      if RowsInUi(ui, rows).Ok? {
        var withRows := RowsInUi(ui, rows).value;
        ThroughUi(Put(root, "ui", Node(withRows)), rows);
        UiPut(root, withRows);
        if ToastInUi(ui).Ok? {
          UiCommutes(ui, rows);
          var both := ToastInUi(withRows).value;
          UiPut(root, ToastInUi(ui).value);
          PutTwice(root, "ui", Node(withRows), Node(both));
          PutTwice(root, "ui", Node(ToastInUi(ui).value), Node(both));
        }
      } else if ToastInUi(ui).Ok? {
        UiPut(root, ToastInUi(ui).value);
      }
    }
  }

  /** The sidebar edit and the notification edit give the same configuration in either
      order, whether each of them succeeds, has nothing to do, or refuses. */
  lemma EditsCommute(root: Table, enabled: bool, defaults: Option<seq<Value>>)
    ensures PortsRowSet(Notify(root), enabled, defaults) == Notify(PortsRowSet(root, enabled, defaults))
  {
    hide *;
    NotifyKeepsRows(root);
    RowsWereFound(root);
    RowsWereFound(Notify(root));
    PortsRowSetCases(root, enabled, defaults);
    PortsRowSetCases(Notify(root), enabled, defaults);
    if SidebarRows(root).Ok? {
      if enabled {
        var before := if RowsOf(root).Some? then RowsOf(root) else defaults;
        if before.Some? {
          SettingCommutes(root, before.value + [PORTS_ROW]);
        }
      } else if RowsOf(root).Some? {
        SettingCommutes(root, WithoutPortsRow(RowsOf(root).value));
      }
    }
  }
}

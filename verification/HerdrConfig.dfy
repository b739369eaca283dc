/** Edits of Herdr's configuration (src/herdr_config.rs). */
module HerdrConfig {
  import opened Wrappers
  import opened ConfigTree
  import opened ConfigFingerprint

  // ---------------------------------------------------------------------------
  // The self-check
  // ---------------------------------------------------------------------------

  /** `verify_ports_row_change`: the same fingerprint, and only one ports row may have
      come or gone. */
  ghost predicate OnlyPortsRowChanged(original: Table, updated: Table, enabled: bool, defaults: Option<seq<Value>>) {
    SameFingerprint(original, updated) && RowsAgree(original, updated, enabled, defaults)
  }

  predicate RowsAgree(original: Table, updated: Table, enabled: bool, defaults: Option<seq<Value>>) {
    && SidebarRows(original).Ok? && SidebarRows(updated).Ok? && SidebarRows(updated).value.Some?
    && var before := if SidebarRows(original).value.Some? then SidebarRows(original).value else defaults;
       && before.Some?
       && var rows, rows' := before.value, SidebarRows(updated).value.value;
          && OtherRows(rows) == OtherRows(rows')
          && PortsRows(rows) == (if enabled then 0 else 1) && PortsRows(rows') == (if enabled then 1 else 0)
  }

  method Verify(original: Table, updated: Table, enabled: bool, defaults: Option<seq<Value>>) returns (ok: bool)
    ensures ok <==> OnlyPortsRowChanged(original, updated, enabled, defaults)
  {
    hide RowsAgree, SameFingerprint, LinesOf;
    var ofOriginal := Collect(original, []);
    var ofUpdated := Collect(updated, []);
    LinesCompare(original, updated, ofOriginal, ofUpdated);
    ok := ofOriginal == ofUpdated && RowsAgree(original, updated, enabled, defaults);
  }

  // ---------------------------------------------------------------------------
  // The edits
  // ---------------------------------------------------------------------------

  /** A parsed configuration that is edited in place. */
  class Document {
    var root: Table

    constructor (root: Table)
      ensures this.root == root
    {
      this.root := root;
    }

    /** `add_ports_row_to_document`; whether a row was added. (Defaults that were
        written down first may stay behind in a document that is then thrown away.) */
    method AddPortsRow(defaults: Option<seq<Value>>) returns (r: Result<bool, ConfigError>)
      modifies this
      ensures r.Ok? ==>
                && SidebarRows(old(root)).Ok?
                && var rows := if SidebarRows(old(root)).value.Some? then SidebarRows(old(root)).value else defaults;
                   && rows.Some? && (r.value <==> !HasPortsRow(rows.value))
                   && (r.value ==> SetRows(old(root), rows.value + [PORTS_ROW]) == Ok(root))
                   && (!r.value && SidebarRows(old(root)).value.Some? ==> root == old(root))
                   && (!r.value && SidebarRows(old(root)).value.None? ==> SetRows(old(root), rows.value) == Ok(root))
      ensures r.Err? && SidebarRows(old(root)).Ok? ==>
                && SidebarRows(old(root)).value.None?
                && (defaults.Some? ==> SetRows(old(root), defaults.value).Err?)
      ensures r != Err(MoreThanOneRowChanged)
    {
      var rows := SidebarRows(root);
      if rows.Err? {
        return Err(rows.error);
      }
      ghost var before := root;
      if rows.value.None? {
        if defaults.None? {
          return Err(NoDefaultRows);
        }
        var written := SetRows(root, defaults.value);
        if written.Err? {
          return Err(written.error);
        }
        RowsAreSet(root, defaults.value);
        RowsAreReset(root, defaults.value, defaults.value + [PORTS_ROW]);
        root := written.value;
        rows := Ok(defaults);
      }
      if HasPortsRow(rows.value.value) {
        return Ok(false);
      }
      RowsCanBeSet(root, rows.value.value + [PORTS_ROW]);
      root := SetRows(root, rows.value.value + [PORTS_ROW]).value;
      r := Ok(true);
    }

    /** `remove_ports_row_from_document`. */
    method RemovePortsRow() returns (r: Result<bool, ConfigError>)
      modifies this
      ensures r.Err? <==> SidebarRows(old(root)).Err?
      ensures r != Err(MoreThanOneRowChanged)
      ensures r.Ok? && !r.value ==> root == old(root)
      ensures r.Ok? ==>
                var rows := SidebarRows(old(root)).value;
                && (r.value <==> rows.Some? && HasPortsRow(rows.value))
                && (r.value ==> SetRows(old(root), WithoutPortsRow(rows.value)) == Ok(root))
    {
      var rows := SidebarRows(root);
      if rows.Err? {
        return Err(rows.error);
      }
      if rows.value.None? || !HasPortsRow(rows.value.value) {
        return Ok(false);
      }
      RowsCanBeSet(root, WithoutPortsRow(rows.value.value));
      root := SetRows(root, WithoutPortsRow(rows.value.value)).value;
      r := Ok(true);
    }

    /** The edit of `update_herdr_notifications`. */
    method SetDelivery() returns (r: Result<bool, ConfigError>)
      modifies this
      ensures r.Err? <==> Notified(old(root)).Err?
      ensures r.Ok? ==> Notified(old(root)) == Ok(root) && (r.value <==> root != old(root))
    {
      var ui := EnsureTable(root, "ui");
      if ui.Err? {
        return Err(ui.error);
      }
      var toast := EnsureTable(ui.value, "toast");
      if toast.Err? {
        return Err(toast.error);
      }
      if Delivers(toast.value) {
        DeliveredAlready(root);
        return Ok(false);
      }
      NotDeliveredYet(root);
      root := Put(root, "ui", Node(Put(ui.value, "toast", Node(Put(toast.value, "delivery", DELIVERY)))));
      r := Ok(true);
    }
  }

  lemma RowsAreSet(root: Table, rows: seq<Value>)
    requires SetRows(root, rows).Ok?
    ensures SidebarRows(SetRows(root, rows).value) == Ok(Some(rows))
  {
  }

  lemma PutTwice(t: Table, key: string, a: Item, b: Item)
    ensures Put(Put(t, key, a), key, b) == Put(t, key, b)
  {
    assert t.entries[key := a][key := b] == t.entries[key := b];
  }

  lemma RowsAreReset(root: Table, rows: seq<Value>, rows': seq<Value>)
    requires SetRows(root, rows).Ok?
    ensures SetRows(root, rows').Ok? && SetRows(SetRows(root, rows).value, rows') == SetRows(root, rows')
  {
    var ui := EnsureTable(root, "ui").value;
    var sidebar := EnsureTable(ui, "sidebar").value;
    var spaces := EnsureTable(sidebar, "spaces").value;
    var first, second := Put(spaces, "rows", Leaf(Arr(rows))), Put(spaces, "rows", Leaf(Arr(rows')));
    PutTwice(spaces, "rows", Leaf(Arr(rows)), Leaf(Arr(rows')));
    PutTwice(sidebar, "spaces", Node(first), Node(second));
    var a, b := Put(sidebar, "spaces", Node(first)), Put(sidebar, "spaces", Node(second));
    PutTwice(ui, "sidebar", Node(a), Node(b));
    PutTwice(root, "ui", Node(Put(ui, "sidebar", Node(a))), Node(Put(ui, "sidebar", Node(b))));
  }

  lemma RowsCanBeSet(root: Table, rows: seq<Value>)
    requires SidebarRows(root).Ok? && SidebarRows(root).value.Some?
    ensures SetRows(root, rows).Ok?
  {
  }

  const DELIVERY := Leaf(Str("herdr"))

  predicate Delivers(toast: Table) { "delivery" in toast.entries && toast.entries["delivery"] == DELIVERY }

  lemma PutSame(t: Table, key: string, item: Item)
    requires key in t.entries && t.entries[key] == item
    ensures Put(t, key, item) == t
  {
    assert t.entries[key := item] == t.entries;
  }

  lemma DeliveredAlready(root: Table)
    requires EnsureTable(root, "ui").Ok? && EnsureTable(EnsureTable(root, "ui").value, "toast").Ok?
    requires Delivers(EnsureTable(EnsureTable(root, "ui").value, "toast").value)
    ensures Notified(root) == Ok(root)
  {
    var ui := root.entries["ui"].table;
    var toast := ui.entries["toast"].table;
    PutSame(toast, "delivery", DELIVERY);
    PutSame(ui, "toast", Node(toast));
    PutSame(root, "ui", Node(ui));
  }

  lemma NotDeliveredYet(root: Table)
    requires EnsureTable(root, "ui").Ok? && EnsureTable(EnsureTable(root, "ui").value, "toast").Ok?
    requires !Delivers(EnsureTable(EnsureTable(root, "ui").value, "toast").value)
    ensures Notified(root) != Ok(root)
  {
    var ui := EnsureTable(root, "ui").value;
    var toast := EnsureTable(ui, "toast").value;
    var toast' := Put(toast, "delivery", DELIVERY);
    var ui' := Put(ui, "toast", Node(toast'));
    assert EnsureTable(Put(root, "ui", Node(ui')), "ui") == Ok(ui') && EnsureTable(ui', "toast") == Ok(toast');
    assert Delivers(toast');
  }

  /** The configuration with Herdr's toast delivery switched on. */
  function Notified(root: Table): Result<Table, ConfigError> {
    match EnsureTable(root, "ui")
    case Err(e) => Err(e)
    case Ok(ui) =>
      match EnsureTable(ui, "toast")
      case Err(e) => Err(e)
      case Ok(toast) => Ok(Put(root, "ui", Node(Put(ui, "toast", Node(Put(toast, "delivery", DELIVERY))))))
  }

  /** The configuration after switching the ports row on or off; a refusal leaves it. */
  ghost function PortsRowSet(root: Table, enabled: bool, defaults: Option<seq<Value>>): Table {
    if SidebarRows(root).Err? then root else
    var rows := SidebarRows(root).value;
    if enabled then
      var before := if rows.Some? then rows else defaults;
      if before.None? || HasPortsRow(before.value) then root
      else match SetRows(root, before.value + [PORTS_ROW]) case Err(_) => root case Ok(t) => t
    else if rows.None? || PortsRows(rows.value) != 1 then root
    else match SetRows(root, WithoutPortsRow(rows.value)) case Err(_) => root case Ok(t) => t
  }

  // ---------------------------------------------------------------------------
  // What the edits leave alone
  // ---------------------------------------------------------------------------

  /** Below a key there is what the table under it holds, old or new. */
  lemma PutChild(parent: Table, key: string, child: Table, child': Table, path: Path)
    requires EnsureTable(parent, key) == Ok(child)
    ensures path != [] && path[0] == Key(key) ==>
              && ValueAt(parent, path) == ValueIn(Node(child), path[1..])
              && ValueAt(Put(parent, key, Node(child')), path) == ValueIn(Node(child'), path[1..])
    ensures !(path != [] && path[0] == Key(key)) ==>
              ValueAt(Put(parent, key, Node(child')), path) == ValueAt(parent, path)
  {
    hide ValueIn;
    if path != [] && path[0] == Key(key) && key !in parent.entries {
      NothingIn(path[1..]);
    }
  }

  lemma NothingIn(path: Path)
    ensures ValueIn(Node(EMPTY), path) == None
  {
  }

  lemma RowsOnly(spaces: Table, rows: seq<Value>, path: Path)
    requires SidebarLeaf(spaces)
    requires path != [Key("rows")]
    ensures ValueIn(Node(Put(spaces, "rows", Leaf(Arr(rows)))), path) == ValueIn(Node(spaces), path)
  {
    var after := Put(spaces, "rows", Leaf(Arr(rows)));
    NodeValue(spaces, after, path);
    if path != [] && path[0] == Key("rows") {
      assert path == [Key("rows")] + path[1..];
      assert path[1..] == [] ==> path == [Key("rows")];
      assert ValueAt(after, path) == ValueIn(Leaf(Arr(rows)), path[1..]) == None;
      assert ValueAt(spaces, path) == None;
    }
  }

  /** The rows, if they are there, are a value. */
  predicate SidebarLeaf(spaces: Table) { "rows" in spaces.entries ==> spaces.entries["rows"].Leaf? }

  lemma SetRowsKeepsOutside(root: Table, rows: seq<Value>)
    requires SetRows(root, rows).Ok? && SidebarRows(root).Ok?
    ensures SameOutside(root, SetRows(root, rows).value)
  {
    hide ValueAt, ValueIn, Put;
    var ui := EnsureTable(root, "ui").value;
    var sidebar := EnsureTable(ui, "sidebar").value;
    var spaces := EnsureTable(sidebar, "spaces").value;
    var spaces' := Put(spaces, "rows", Leaf(Arr(rows)));
    var sidebar' := Put(sidebar, "spaces", Node(spaces'));
    var ui' := Put(ui, "sidebar", Node(sidebar'));
    forall path: Path | !(ROWS_PATH <= path)
      ensures ValueAt(root, path) == ValueAt(SetRows(root, rows).value, path)
    {
      PutChild(root, "ui", ui, ui', path);
      if path != [] && path[0] == Key("ui") {
        var inUi := path[1..];
        NodeValue(ui, ui', inUi);
        PutChild(ui, "sidebar", sidebar, sidebar', inUi);
        if inUi != [] && inUi[0] == Key("sidebar") {
          var inSidebar := inUi[1..];
          NodeValue(sidebar, sidebar', inSidebar);
          PutChild(sidebar, "spaces", spaces, spaces', inSidebar);
          if inSidebar != [] && inSidebar[0] == Key("spaces") {
            assert path == [Key("ui"), Key("sidebar"), Key("spaces")] + inSidebar[1..];
            assert inSidebar[1..] == [Key("rows")] ==> path == ROWS_PATH;
            RowsOnly(spaces, rows, inSidebar[1..]);
          }
        }
      }
    }
  }

  const DELIVERY_PATH: Path := [Key("ui"), Key("toast"), Key("delivery")]

  /** Switching on the notifications sets one value and leaves all others, in the same
      tables and everywhere else; it is refused exactly when `ui` or `toast` is there and
      is not a table. */
  lemma NotifiedKeepsOthers(root: Table)
    ensures Notified(root).Err? <==>
            "ui" in root.entries &&
            (!root.entries["ui"].Node? ||
             ("toast" in root.entries["ui"].table.entries && !root.entries["ui"].table.entries["toast"].Node?))
    ensures Notified(root).Ok? ==>
              && ValueAt(Notified(root).value, DELIVERY_PATH) == Some(Str("herdr"))
              && forall path: Path :: !(DELIVERY_PATH <= path) ==>
                   ValueAt(Notified(root).value, path) == ValueAt(root, path)
  {
    hide ValueIn, Put;
    if Notified(root).Ok? {
      var ui := EnsureTable(root, "ui").value;
      var toast := EnsureTable(ui, "toast").value;
      var toast' := Put(toast, "delivery", DELIVERY);
      var ui' := Put(ui, "toast", Node(toast'));
      forall path: Path
        ensures if path == DELIVERY_PATH then ValueAt(Notified(root).value, path) == Some(Str("herdr"))
                else !(DELIVERY_PATH <= path) ==> ValueAt(Notified(root).value, path) == ValueAt(root, path)
      {
        PutChild(root, "ui", ui, ui', path);
        if path != [] && path[0] == Key("ui") {
          NodeValue(ui, ui', path[1..]);
          PutChild(ui, "toast", toast, toast', path[1..]);
          if path[1..] != [] && path[1..][0] == Key("toast") {
            assert path == [Key("ui"), Key("toast")] + path[1..][1..];
            DeliveryOnly(toast, path[1..][1..]);
          }
        }
      }
    }
  }

  lemma DeliveryOnly(toast: Table, path: Path)
    ensures var after := Put(toast, "delivery", DELIVERY);
            if path == [Key("delivery")] then ValueIn(Node(after), path) == Some(Str("herdr"))
            else !([Key("delivery")] <= path) ==> ValueIn(Node(after), path) == ValueIn(Node(toast), path)
  {
    var after := Put(toast, "delivery", DELIVERY);
    NodeValue(toast, after, path);
  }

  lemma NodeValue(a: Table, b: Table, path: Path)
    ensures ValueIn(Node(a), path) == if path == [] then None else ValueAt(a, path)
    ensures ValueIn(Node(b), path) == if path == [] then None else ValueAt(b, path)
  {
  }

  lemma OtherRowsPushed(rows: seq<Value>)
    ensures OtherRows(rows + [PORTS_ROW]) == OtherRows(rows)
  {
    assert (rows + [PORTS_ROW])[..|rows|] == rows;
  }

  lemma {:induction false} OtherRowsJoin(a: seq<Value>, b: seq<Value>)
    ensures OtherRows(a + b) == OtherRows(a) + OtherRows(b)
    decreases |b|
  {
    if b == [] {
      assert a + b == a;
    } else {
      assert (a + b)[..|a + b| - 1] == a + b[..|b| - 1];
      OtherRowsJoin(a, b[..|b| - 1]);
    }
  }

  lemma OneOtherRow(row: Value)
    ensures OtherRows([row]) == if row == PORTS_ROW then [] else [row]
  {
    assert [row][..0] == [];
    assert OtherRows([]) == [];
  }

  /** Taking out the first ports row: one fewer, the others as they were. */
  lemma {:induction false} WithoutIs(rows: seq<Value>)
    requires HasPortsRow(rows)
    ensures OtherRows(WithoutPortsRow(rows)) == OtherRows(rows)
    ensures PortsRows(WithoutPortsRow(rows)) == PortsRows(rows) - 1
  {
    var rest := rows[1..];
    assert rows == [rows[0]] + rest;
    OtherRowsJoin([rows[0]], rest);
    OneOtherRow(rows[0]);
    if rows[0] != PORTS_ROW {
      WithoutIs(rest);
      OtherRowsJoin([rows[0]], WithoutPortsRow(rest));
    }
  }

  lemma CountsOfRows(rows: seq<Value>)
    ensures HasPortsRow(rows) <==> PortsRows(rows) > 0
    ensures PortsRows(rows + [PORTS_ROW]) == PortsRows(rows) + 1
  {
    assert PORTS_ROW in rows <==> PORTS_ROW in multiset(rows);
  }

  lemma SetRowsFails(root: Table, rows: seq<Value>, rows': seq<Value>)
    ensures SetRows(root, rows).Err? <==> SetRows(root, rows').Err?
  {
    hide Put;
  }

  /** An added row always passes the self-check. */
  lemma AddedIsVerified(config: Table, defaults: Option<seq<Value>>, root: Table)
    requires SidebarRows(config).Ok?
    requires var rows := if SidebarRows(config).value.Some? then SidebarRows(config).value else defaults;
             rows.Some? && !HasPortsRow(rows.value) && SetRows(config, rows.value + [PORTS_ROW]) == Ok(root)
    ensures OnlyPortsRowChanged(config, root, true, defaults) && PortsRowSet(config, true, defaults) == root
    ensures SameOutside(config, root)
  {
    hide SameFingerprint, SameOutside, SetRows, SidebarRows, OtherRows, PortsRows, HasPortsRow;
    var rows := (if SidebarRows(config).value.Some? then SidebarRows(config).value else defaults).value;
    RowsAreSet(config, rows + [PORTS_ROW]);
    SetRowsKeepsOutside(config, rows + [PORTS_ROW]);
    SameOutsideSameFingerprint(config, root);
    OtherRowsPushed(rows);
    CountsOfRows(rows);
  }

  /** A removed row passes the self-check if and only if there was just one. */
  lemma RemovedIsVerified(config: Table, root: Table)
    requires SidebarRows(config).Ok? && SidebarRows(config).value.Some?
    requires var rows := SidebarRows(config).value.value;
             HasPortsRow(rows) && SetRows(config, WithoutPortsRow(rows)) == Ok(root)
    ensures OnlyPortsRowChanged(config, root, false, None) <==> PortsRows(SidebarRows(config).value.value) == 1
    ensures forall defaults :: OnlyPortsRowChanged(config, root, false, defaults) <==>
              OnlyPortsRowChanged(config, root, false, None)
    ensures SameOutside(config, root)
    ensures PortsRowSet(config, false, None) == if PortsRows(SidebarRows(config).value.value) == 1 then root else config
    ensures forall defaults :: PortsRowSet(config, false, defaults) == PortsRowSet(config, false, None)
  {
    hide SameFingerprint, SameOutside, SetRows, SidebarRows, OtherRows, PortsRows, HasPortsRow, WithoutPortsRow;
    var rows := SidebarRows(config).value.value;
    RowsAreSet(config, WithoutPortsRow(rows));
    SetRowsKeepsOutside(config, WithoutPortsRow(rows));
    SameOutsideSameFingerprint(config, root);
    WithoutIs(rows);
  }

  /** A document that was not changed, or could not be, is left alone. */
  lemma NotAdded(config: Table, defaults: Option<seq<Value>>)
    requires SidebarRows(config).Ok? ==>
               var rows := if SidebarRows(config).value.Some? then SidebarRows(config).value else defaults;
               rows.None? || HasPortsRow(rows.value) || SetRows(config, rows.value).Err?
    ensures PortsRowSet(config, true, defaults) == config
  {
    hide SetRows, SidebarRows, HasPortsRow;
    if SidebarRows(config).Ok? {
      var rows := if SidebarRows(config).value.Some? then SidebarRows(config).value else defaults;
      if rows.Some? {
        SetRowsFails(config, rows.value, rows.value + [PORTS_ROW]);
      }
    }
  }

  lemma NotRemoved(config: Table, defaults: Option<seq<Value>>)
    requires SidebarRows(config).Ok? ==>
               SidebarRows(config).value.None? || !HasPortsRow(SidebarRows(config).value.value)
    ensures PortsRowSet(config, false, defaults) == config
    ensures SidebarRows(config).Ok? && SidebarRows(config).value.Some? ==>
              PortsRows(SidebarRows(config).value.value) == 0
  {
    hide SetRows, SidebarRows, HasPortsRow, PortsRows;
    if SidebarRows(config).Ok? && SidebarRows(config).value.Some? {
      CountsOfRows(SidebarRows(config).value.value);
    }
  }

  lemma SameAsItself(t: Table)
    ensures SameOutside(t, t)
  {
  }

  /** What the switch does to the list of rows: on, the ports row stands at its end unless
      it is there already; off, the one ports row is taken out and the others move up. */
  lemma RowsAfterSwitch(config: Table, enabled: bool, defaults: Option<seq<Value>>)
    requires !Refused(config, enabled, defaults)
    ensures var ports := Arr([Str("$port_forward_status")]);
            var rows := SidebarRows(config).value;
            var before := if rows.Some? then rows.value else if defaults.Some? then defaults.value else [];
            var after := PortsRowSet(config, enabled, defaults);
            if enabled then
              if ports in before then after == config else SidebarRows(after) == Ok(Some(before + [ports]))
            else if rows.None? || ports !in before then after == config
            else exists i :: 0 <= i < |before| && before[i] == ports
                             && SidebarRows(after) == Ok(Some(before[..i] + before[i + 1..]))
  {
    hide SetRows, SidebarRows, PortsRows, SetRows, WithoutPortsRow;
    var rows := SidebarRows(config).value;
    if enabled {
      var before := (if rows.Some? then rows else defaults).value;
      SetRowsFails(config, before, before + [PORTS_ROW]);
      if rows.Some? { RowsCanBeSet(config, before + [PORTS_ROW]); }
      if SetRows(config, before + [PORTS_ROW]).Ok? { RowsAreSet(config, before + [PORTS_ROW]); }
    } else if rows.Some? {
      CountsOfRows(rows.value);
      RowsCanBeSet(config, WithoutPortsRow(rows.value));
      RowsAreSet(config, WithoutPortsRow(rows.value));
      if HasPortsRow(rows.value) {
        var i := TakenOut(rows.value);
        assert rows.value[i] == Arr([Str("$port_forward_status")]);
      }
    }
  }

  lemma {:induction false} TakenOut(rows: seq<Value>) returns (i: nat)
    requires HasPortsRow(rows)
    ensures i < |rows| && rows[i] == PORTS_ROW && WithoutPortsRow(rows) == rows[..i] + rows[i + 1..]
  {
    if rows[0] == PORTS_ROW {
      i := 0;
    } else {
      i := TakenOut(rows[1..]);
      assert rows[..i + 1] == [rows[0]] + rows[1..][..i];
      i := i + 1;
    }
  }

  /** When the switch is refused: the rows are there and are no array; there are none and
      no defaults, or these cannot be written down; or, switching off, there is more than
      one ports row. */
  ghost predicate Refused(config: Table, enabled: bool, defaults: Option<seq<Value>>) {
    || SidebarRows(config).Err?
    || (enabled && SidebarRows(config).value.None? && (defaults.None? || SetRows(config, defaults.value).Err?))
    || (!enabled && SidebarRows(config).value.Some? && PortsRows(SidebarRows(config).value.value) >= 2)
  }

  lemma RefusedMeans(config: Table, enabled: bool, defaults: Option<seq<Value>>)
    ensures Refused(config, enabled, defaults) <==>
            || SidebarRows(config).Err?
            || (enabled && SidebarRows(config).value.None? && (defaults.None? || SetRows(config, defaults.value).Err?))
            || (!enabled && SidebarRows(config).value.Some? && PortsRows(SidebarRows(config).value.value) >= 2)
  {
  }

  /** `update_ports_row_with_default_rows`: edit a copy, check it, and return it or
      refuse. The self-check never refuses an added row, and refuses a removed one only
      if there is more than one. */
  method UpdatePortsRow(config: Table, enabled: bool, defaults: Option<seq<Value>>)
    returns (r: Result<Table, ConfigError>)
    ensures (if r.Ok? then r.value else config) == PortsRowSet(config, enabled, defaults)
    ensures r.Ok? ==> SameOutside(config, r.value)
    ensures r.Err? <==> Refused(config, enabled, defaults)
    ensures enabled ==> r != Err(MoreThanOneRowChanged)
    ensures !enabled ==> (r == Err(MoreThanOneRowChanged) <==>
              SidebarRows(config).Ok? && SidebarRows(config).value.Some? &&
                PortsRows(SidebarRows(config).value.value) >= 2)
  {
    if enabled {
      r := EnablePortsRow(config, defaults);
    } else {
      r := DisablePortsRow(config, defaults);
    }
  }

  method EnablePortsRow(config: Table, defaults: Option<seq<Value>>) returns (r: Result<Table, ConfigError>)
    ensures (if r.Ok? then r.value else config) == PortsRowSet(config, true, defaults)
    ensures r != Err(MoreThanOneRowChanged)
    ensures r.Ok? ==> SameOutside(config, r.value)
    ensures r.Err? <==> Refused(config, true, defaults)
  {
    hide *;
    SameAsItself(config);
    RefusedMeans(config, true, defaults);
    if defaults.Some? {
      SetRowsFails(config, defaults.value, defaults.value + [PORTS_ROW]);
    }
    var document := new Document(config);
    var changed := document.AddPortsRow(defaults);
    if changed.Err? {
      NotAdded(config, defaults);
      return Err(changed.error);
    }
    if !changed.value {
      NotAdded(config, defaults);
      return Ok(config);
    }
    AddedIsVerified(config, defaults, document.root);
    var good := Verify(config, document.root, true, defaults);
    if !good {
      return Err(MoreThanOneRowChanged);
    }
    r := Ok(document.root);
  }

  method DisablePortsRow(config: Table, defaults: Option<seq<Value>>) returns (r: Result<Table, ConfigError>)
    ensures (if r.Ok? then r.value else config) == PortsRowSet(config, false, defaults)
    ensures r.Ok? ==> SameOutside(config, r.value)
    ensures r.Err? <==> Refused(config, false, defaults)
    ensures r == Err(MoreThanOneRowChanged) <==>
              SidebarRows(config).Ok? && SidebarRows(config).value.Some? &&
                PortsRows(SidebarRows(config).value.value) >= 2
  {
    hide *;
    SameAsItself(config);
    RefusedMeans(config, false, defaults);
    var document := new Document(config);
    var changed := document.RemovePortsRow();
    if changed.Err? {
      NotRemoved(config, defaults);
      return Err(changed.error);
    }
    if !changed.value {
      NotRemoved(config, defaults);
      return Ok(config);
    }
    RemovedIsVerified(config, document.root);
    CountsOfRows(SidebarRows(config).value.value);
    var good := Verify(config, document.root, false, defaults);
    if !good {
      return Err(MoreThanOneRowChanged);
    }
    r := Ok(document.root);
  }
}

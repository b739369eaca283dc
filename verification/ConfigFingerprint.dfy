/** The fingerprint by which the configuration edits check themselves
    (`config_fingerprint` of src/herdr_config.rs): a line for every value outside the
    sidebar rows, made of its keys joined by dots and its text. What differs outside the
    rows need not have different fingerprints. */
module ConfigFingerprint {
  import opened Wrappers
  import opened ConfigTree
  import Decimal

  // ---------------------------------------------------------------------------
  // The fingerprint
  // ---------------------------------------------------------------------------

  /** The name of a step: array indices are printed. */
  function StepName(step: Step): string {
    match step case Key(name) => name case Index(position) => Decimal.Print(position)
  }

  function Names(path: Path): seq<string> {
    if path == [] then [] else [StepName(path[0])] + Names(path[1..])
  }

  /** `join(".")`. */
  function Join(names: seq<string>): string {
    if names == [] then [] else if |names| == 1 then names[0] else names[0] + "." + Join(names[1..])
  }

  const ROWS_NAMES := ["ui", "sidebar", "spaces", "rows"]

  /** A line of the fingerprint: a joined path and the value at its end. Several values
      may have the same line. The program sorts the lines before it compares them. */
  type Line = (string, Value)

  type Values = set<(Path, Value)>

  function LineOf(entry: (Path, Value)): Line { (Join(Names(entry.0)), entry.1) }

  /** The values of a table with their full paths, the rows apart. */
  ghost function Listing(t: Table, path: Path): Values
    decreases t, 2
  {
    ListingOf(t, path, t.entries.Keys)
  }

  ghost function ListingOf(t: Table, path: Path, keys: set<string>): Values
    requires keys <= t.entries.Keys
    decreases t, 1
  {
    set key, entry | key in keys && path + [Key(key)] != ROWS_PATH
                     && entry in ListingIn(t.entries[key], path + [Key(key)]) :: entry
  }

  ghost function ListingIn(item: Item, path: Path): Values
    decreases item, 0
  {
    match item
    case Leaf(v) => {(path, v)}
    case Node(table) => Listing(table, path)
    case Tables(tables) => set n, entry | 0 <= n < |tables| && entry in Listing(tables[n], path + [Index(n)]) :: entry
  }

  /** The definitions above, one entry at a time. */
  ghost predicate ListedUnder(entry: (Path, Value), t: Table, path: Path, key: string)
    requires key in t.entries
  {
    path + [Key(key)] != ROWS_PATH && entry in ListingIn(t.entries[key], path + [Key(key)])
  }

  lemma ListingOfMembers(t: Table, path: Path, keys: set<string>, entry: (Path, Value))
    requires keys <= t.entries.Keys
    ensures entry in ListingOf(t, path, keys) <==> exists key :: key in keys && ListedUnder(entry, t, path, key)
  {
    if entry in ListingOf(t, path, keys) {
      var key :| key in keys && path + [Key(key)] != ROWS_PATH && entry in ListingIn(t.entries[key], path + [Key(key)]);
      assert ListedUnder(entry, t, path, key);
    }
  }

  lemma ListingMembers(t: Table, path: Path, entry: (Path, Value))
    ensures entry in Listing(t, path) <==> exists key :: key in t.entries && ListedUnder(entry, t, path, key)
  {
    hide ListedUnder;
    assert Listing(t, path) == ListingOf(t, path, t.entries.Keys);
    ListingOfMembers(t, path, t.entries.Keys, entry);
  }

  ghost predicate Listed(entry: (Path, Value), t: Table, path: Path) {
    && path <= entry.0 && !(ROWS_PATH <= entry.0)
    && ValueAt(t, entry.0[|path|..]) == Some(entry.1)
  }

  ghost predicate ListedIn(entry: (Path, Value), item: Item, path: Path) {
    path <= entry.0 && !(ROWS_PATH <= entry.0) && ValueIn(item, entry.0[|path|..]) == Some(entry.1)
  }

  lemma NotBelowRows(path: Path, step: Step)
    requires !(ROWS_PATH <= path) && path + [step] != ROWS_PATH
    ensures !(ROWS_PATH <= path + [step])
  {
    if |path| >= 4 {
      assert (path + [step])[..4] == path[..4];
    }
  }

  lemma NotRows(path: Path, n: nat)
    ensures path + [Index(n)] != ROWS_PATH
  {
    assert (path + [Index(n)])[|path|] == Index(n);
  }

  /** Going down by one key. */
  lemma ListedBelow(entry: (Path, Value), t: Table, path: Path, key: string)
    requires key in t.entries
    ensures path + [Key(key)] <= entry.0 <==> path < entry.0 && entry.0[|path|] == Key(key)
    ensures path + [Key(key)] <= entry.0 ==>
              (Listed(entry, t, path) <==> ListedIn(entry, t.entries[key], path + [Key(key)]))
  {
    if path < entry.0 && entry.0[|path|] == Key(key) {
      assert entry.0[..|path| + 1] == path + [Key(key)];
    }
    if path + [Key(key)] <= entry.0 {
      var suffix := entry.0[|path|..];
      assert suffix[0] == Key(key) && suffix[1..] == entry.0[|path| + 1..];
    }
  }

  lemma ListedStarts(entry: (Path, Value), t: Table, path: Path)
    requires Listed(entry, t, path)
    ensures path < entry.0 && entry.0[|path|].Key? && entry.0[|path|].name in t.entries && !(ROWS_PATH <= entry.0)
    ensures path + [entry.0[|path|]] != ROWS_PATH
  {
    assert entry.0[..|path| + 1] == path + [entry.0[|path|]];
  }

  /** A listing holds exactly the values that paths lead to. */
  lemma {:induction false} ListingIsExact(t: Table, path: Path)
    requires !(ROWS_PATH <= path)
    ensures forall entry :: entry in Listing(t, path) <==> Listed(entry, t, path)
    decreases t, 1
  {
    hide Listed, ListedIn, ListingIn, Listing;
    forall entry: (Path, Value)
      ensures entry in Listing(t, path) <==> Listed(entry, t, path)
    {
      ListingMembers(t, path, entry);
      if key :| key in t.entries && ListedUnder(entry, t, path, key) {
        NotBelowRows(path, Key(key));
        ListingInIsExact(t.entries[key], path + [Key(key)]);
        ListedInExtends(entry, t.entries[key], path + [Key(key)]);
        ListedBelow(entry, t, path, key);
      }
      if Listed(entry, t, path) {
        ListedStarts(entry, t, path);
        var key := entry.0[|path|].name;
        NotBelowRows(path, Key(key));
        ListingInIsExact(t.entries[key], path + [Key(key)]);
        ListedBelow(entry, t, path, key);
        assert ListedUnder(entry, t, path, key);
      }
    }
  }

  lemma ListedInExtends(entry: (Path, Value), item: Item, path: Path)
    requires ListedIn(entry, item, path)
    ensures path <= entry.0
  {
  }

  lemma {:induction false} ListingInIsExact(item: Item, path: Path)
    requires !(ROWS_PATH <= path)
    ensures forall entry :: entry in ListingIn(item, path) <==> ListedIn(entry, item, path)
    decreases item, 0
  {
    match item {
      case Leaf(v) =>
        forall entry: (Path, Value) | ListedIn(entry, item, path)
          ensures entry == (path, v)
        {
          assert entry.0 == path + entry.0[|path|..] == path;
        }
      case Node(table) =>
        ListingIsExact(table, path);
      case Tables(tables) =>
        forall n | 0 <= n < |tables|
          ensures forall entry :: entry in Listing(tables[n], path + [Index(n)]) <==>
                    Listed(entry, tables[n], path + [Index(n)])
        {
          NotRows(path, n);
          NotBelowRows(path, Index(n));
          ListingIsExact(tables[n], path + [Index(n)]);
        }
        TablesListing(tables, path);
    }
  }

  lemma TablesListing(tables: seq<Table>, path: Path)
    requires forall n :: 0 <= n < |tables| ==> forall entry :: entry in Listing(tables[n], path + [Index(n)]) <==>
                 Listed(entry, tables[n], path + [Index(n)])
    ensures forall entry :: entry in ListingIn(Tables(tables), path) <==> ListedIn(entry, Tables(tables), path)
  {
    hide Listing;
    forall entry: (Path, Value)
      ensures entry in ListingIn(Tables(tables), path) <==> ListedIn(entry, Tables(tables), path)
    {
      if path < entry.0 {
        assert entry.0[|path|..][1..] == entry.0[|path| + 1..];
        assert entry.0[..|path| + 1] == path + [entry.0[|path|]];
      }
      if entry in ListingIn(Tables(tables), path) {
        var n :| 0 <= n < |tables| && entry in Listing(tables[n], path + [Index(n)]);
        assert Listed(entry, tables[n], path + [Index(n)]);
        assert path + [Index(n)] <= entry.0 && entry.0[|path|] == Index(n);
      }
      if ListedIn(entry, Tables(tables), path) {
        var n := entry.0[|path|].position;
        assert Listed(entry, tables[n], path + [Index(n)]);
      }
    }
  }

  // ---------------------------------------------------------------------------
  // Collecting the lines
  // ---------------------------------------------------------------------------

  ghost function Lined(values: Values, line: Line): Values { set entry | entry in values && LineOf(entry) == line }

  /** As many copies of each line as there are values with that line. */
  ghost predicate LinesOf(lines: multiset<Line>, values: Values) {
    forall line :: lines[line] == |Lined(values, line)|
  }

  lemma NoLines()
    ensures LinesOf(multiset{}, {})
  {
    forall line: Line
      ensures Lined({}, line) == {}
    {
    }
  }

  lemma OneLine(entry: (Path, Value))
    ensures LinesOf(multiset{LineOf(entry)}, {entry})
  {
    forall line: Line
      ensures Lined({entry}, line) == if line == LineOf(entry) then {entry} else {}
    {
    }
  }

  lemma LinesJoin(a: multiset<Line>, ofA: Values, b: multiset<Line>, ofB: Values)
    requires LinesOf(a, ofA) && LinesOf(b, ofB) && ofA !! ofB
    ensures LinesOf(a + b, ofA + ofB)
  {
    forall line: Line
      ensures (a + b)[line] == |Lined(ofA + ofB, line)|
    {
      assert Lined(ofA + ofB, line) == Lined(ofA, line) + Lined(ofB, line);
      assert Lined(ofA, line) !! Lined(ofB, line);
    }
  }

  lemma RowsByName(path: Path)
    ensures Names(path) == ROWS_NAMES <==> path == ROWS_PATH
  {
    hide Names, StepName;
    NamesAreNames(path);
    NamesAreNames(ROWS_PATH);
    assert |ROWS_PATH| == |ROWS_NAMES| == 4;
    forall i | 0 <= i < |path| && i < 4
      ensures StepName(path[i]) == ROWS_NAMES[i] <==> path[i] == ROWS_PATH[i]
    {
      StepByName(path[i], ROWS_NAMES[i]);
    }
    if Names(path) == ROWS_NAMES {
      forall i | 0 <= i < 4
        ensures path[i] == ROWS_PATH[i]
      {
        assert Names(path)[i] == ROWS_NAMES[i];
      }
    }
  }

  lemma StepByName(step: Step, name: string)
    requires name != [] && !Decimal.IsDigit(name[0])
    ensures StepName(step) == name <==> step == Key(name)
  {
    if step.Index? {
      assert Decimal.IsDigit(Decimal.Print(step.position)[0]);
    }
  }

  lemma {:induction false} NamesAreNames(path: Path)
    ensures |Names(path)| == |path| && forall i :: 0 <= i < |path| ==> Names(path)[i] == StepName(path[i])
  {
    if path != [] {
      NamesAreNames(path[1..]);
    }
  }

  /** `collect_config_fingerprint`. */
  method Collect(t: Table, path: Path) returns (lines: multiset<Line>)
    requires !(ROWS_PATH <= path)
    ensures LinesOf(lines, Listing(t, path))
    decreases t, 1
  {
    hide LinesOf, ListingOf;
    ListingIsOfAll(t, path);
    lines := multiset{};
    var todo := t.entries.Keys;
    ghost var done: set<string> := {};
    NothingListed(t, path);
    NoLines();
    while todo != {}
      invariant todo <= t.entries.Keys && done == t.entries.Keys - todo
      invariant LinesOf(lines, ListingOf(t, path, done))
      decreases |todo|
    {
      var key :| key in todo;
      todo := todo - {key};
      RowsByName(path + [Key(key)]);
      ListingOneMore(t, path, done, key);
      if Names(path + [Key(key)]) != ROWS_NAMES {
        NotBelowRows(path, Key(key));
        var below := CollectItem(t.entries[key], path + [Key(key)]);
        LinesJoin(lines, ListingOf(t, path, done), below, ListingIn(t.entries[key], path + [Key(key)]));
        lines := lines + below;
      }
      done := done + {key};
    }
    assert done == t.entries.Keys;
  }

  lemma ListingIsOfAll(t: Table, path: Path)
    ensures Listing(t, path) == ListingOf(t, path, t.entries.Keys)
  {
  }

  lemma NothingListed(t: Table, path: Path)
    ensures ListingOf(t, path, {}) == {}
  {
  }

  /** One key more: nothing for the rows, else the values below it, none of them listed yet. */
  lemma ListingOneMore(t: Table, path: Path, done: set<string>, key: string)
    requires !(ROWS_PATH <= path) && done + {key} <= t.entries.Keys && key !in done
    ensures var below := ListingIn(t.entries[key], path + [Key(key)]);
            if path + [Key(key)] == ROWS_PATH then ListingOf(t, path, done + {key}) == ListingOf(t, path, done)
            else ListingOf(t, path, done + {key}) == ListingOf(t, path, done) + below
                 && ListingOf(t, path, done) !! below
  {
    hide ListingIn, ListingOf, ListedUnder;
    var below := ListingIn(t.entries[key], path + [Key(key)]);
    forall entry: (Path, Value)
      ensures entry in ListingOf(t, path, done + {key}) <==>
                entry in ListingOf(t, path, done) || ListedUnder(entry, t, path, key)
      ensures entry in ListingOf(t, path, done) ==> !ListedUnder(entry, t, path, key)
      ensures ListedUnder(entry, t, path, key) <==> path + [Key(key)] != ROWS_PATH && entry in below
    {
      UnderMeans(entry, t, path, key);
      ListingOfMembers(t, path, done, entry);
      ListingOfMembers(t, path, done + {key}, entry);
      if other :| other in done && ListedUnder(entry, t, path, other) {
        UnderMeans(entry, t, path, other);
      }
    }
  }

  lemma UnderMeans(entry: (Path, Value), t: Table, path: Path, key: string)
    requires !(ROWS_PATH <= path) && key in t.entries
    ensures ListedUnder(entry, t, path, key) <==>
              path + [Key(key)] != ROWS_PATH && entry in ListingIn(t.entries[key], path + [Key(key)])
    ensures ListedUnder(entry, t, path, key) ==> path < entry.0 && entry.0[|path|] == Key(key)
  {
    if ListedUnder(entry, t, path, key) {
      NotBelowRows(path, Key(key));
      ListingInIsExact(t.entries[key], path + [Key(key)]);
      assert (path + [Key(key)])[|path|] == Key(key);
    }
  }

  method CollectItem(item: Item, path: Path) returns (lines: multiset<Line>)
    requires !(ROWS_PATH <= path)
    ensures LinesOf(lines, ListingIn(item, path))
    decreases item, 0
  {
    hide LinesOf, Listing;
    match item
    case Leaf(v) =>
      lines := multiset{LineOf((path, v))};
      OneLine((path, v));
    case Node(table) =>
      lines := Collect(table, path);
    case Tables(tables) =>
      lines := multiset{};
      var n := 0;
      NoTablesListed(tables, path);
      NoLines();
      while n < |tables|
        invariant 0 <= n <= |tables|
        invariant LinesOf(lines, ListingIn(Tables(tables[..n]), path))
      {
        NotRows(path, n);
        NotBelowRows(path, Index(n));
        var more := Collect(tables[n], path + [Index(n)]);
        TablesOneMore(tables, path, n);
        LinesJoin(lines, ListingIn(Tables(tables[..n]), path), more, Listing(tables[n], path + [Index(n)]));
        lines := lines + more;
        n := n + 1;
      }
      assert tables[..n] == tables;
  }

  lemma NoTablesListed(tables: seq<Table>, path: Path)
    ensures ListingIn(Tables(tables[..0]), path) == {}
  {
  }

  lemma TablesOneMore(tables: seq<Table>, path: Path, n: nat)
    requires !(ROWS_PATH <= path) && n < |tables|
    ensures var before, more := ListingIn(Tables(tables[..n]), path), Listing(tables[n], path + [Index(n)]);
            ListingIn(Tables(tables[..n + 1]), path) == before + more && before !! more
  {
    hide Listing, ListingIn;
    var before, more := ListingIn(Tables(tables[..n]), path), Listing(tables[n], path + [Index(n)]);
    forall entry: (Path, Value)
      ensures entry in ListingIn(Tables(tables[..n + 1]), path) <==> entry in before || entry in more
      ensures !(entry in before && entry in more)
    {
      TablesMembers(tables[..n], path, entry);
      TablesMembers(tables[..n + 1], path, entry);
      NumberedPaths(tables, path, n, entry);
      if m :| 0 <= m < n && entry in Listing(tables[..n][m], path + [Index(m)]) {
        assert tables[..n][m] == tables[m] == tables[..n + 1][m];
        NumberedPaths(tables, path, m, entry);
      }
      if m :| 0 <= m < n + 1 && entry in Listing(tables[..n + 1][m], path + [Index(m)]) {
        assert tables[..n + 1][m] == tables[m];
        assert m < n ==> tables[..n][m] == tables[m];
      }
      assert tables[..n + 1][n] == tables[n];
    }
  }

  lemma TablesMembers(tables: seq<Table>, path: Path, entry: (Path, Value))
    ensures entry in ListingIn(Tables(tables), path) <==>
              exists n :: 0 <= n < |tables| && entry in Listing(tables[n], path + [Index(n)])
  {
    hide Listing;
  }

  lemma NumberedPaths(tables: seq<Table>, path: Path, n: nat, entry: (Path, Value))
    requires !(ROWS_PATH <= path) && n < |tables|
    ensures entry in Listing(tables[n], path + [Index(n)]) ==> path < entry.0 && entry.0[|path|] == Index(n)
  {
    hide Listing;
    NotRows(path, n);
    NotBelowRows(path, Index(n));
    ListingIsExact(tables[n], path + [Index(n)]);
    assert (path + [Index(n)])[|path|] == Index(n);
  }

  /** The two documents have the same fingerprint. */
  ghost predicate SameFingerprint(a: Table, b: Table) {
    forall line :: |Lined(Listing(a, []), line)| == |Lined(Listing(b, []), line)|
  }

  lemma LinesCompare(a: Table, b: Table, ofA: multiset<Line>, ofB: multiset<Line>)
    requires LinesOf(ofA, Listing(a, [])) && LinesOf(ofB, Listing(b, []))
    ensures ofA == ofB <==> SameFingerprint(a, b)
  {
    if SameFingerprint(a, b) {
      forall line: Line
        ensures ofA[line] == ofB[line]
      {
        assert |Lined(Listing(a, []), line)| == |Lined(Listing(b, []), line)|;
      }
    }
  }

  lemma ListedAtTop(t: Table)
    ensures forall entry: (Path, Value) :: entry in Listing(t, []) <==>
              !(ROWS_PATH <= entry.0) && ValueAt(t, entry.0) == Some(entry.1)
  {
    hide Listing;
    ListingIsExact(t, []);
    forall entry: (Path, Value)
      ensures entry in Listing(t, []) <==> !(ROWS_PATH <= entry.0) && ValueAt(t, entry.0) == Some(entry.1)
    {
      assert Listed(entry, t, []) <==> entry in Listing(t, []);
      assert entry.0[0..] == entry.0;
    }
  }

  /** Documents that differ in the rows only have the same fingerprint. */
  lemma SameOutsideSameFingerprint(a: Table, b: Table)
    requires SameOutside(a, b)
    ensures SameFingerprint(a, b)
  {
    hide Listing;
    ListedAtTop(a);
    ListedAtTop(b);
    assert Listing(a, []) == Listing(b, []);
  }

  // ---------------------------------------------------------------------------
  // What a fingerprint can tell apart
  // ---------------------------------------------------------------------------

  /** All keys of the document, at any depth, are among these names. */
  ghost predicate Over(t: Table, names: iset<string>)
    decreases t, 1
  {
    forall key :: key in t.entries ==> key in names && ItemOver(t.entries[key], names)
  }

  ghost predicate ItemOver(item: Item, names: iset<string>)
    decreases item, 0
  {
    match item
    case Leaf(_) => true
    case Node(table) => Over(table, names)
    case Tables(tables) => forall n :: 0 <= n < |tables| ==> Over(tables[n], names)
  }

  /** The fingerprint tells apart whatever differs outside the rows. */
  ghost predicate FaithfulOn(names: iset<string>) {
    forall a, b :: Over(a, names) && Over(b, names) && SameFingerprint(a, b) ==> SameOutside(a, b)
  }

  ghost predicate Numeral(name: string) { exists i: nat :: Decimal.Print(i) == name }

  /** A name without a dot that is not the numeral of an array index. */
  ghost predicate Plain(name: string) { '.' !in name && !Numeral(name) }

  /** With a name that contains dots come its parts. */
  ghost predicate ClosedUnderDots(names: iset<string>) {
    forall before: string, after: string :: before + "." + after in names ==> before in names && after in names
  }

  lemma JoinMore(names: seq<string>)
    requires |names| > 1
    ensures Join(names) == names[0] + "." + Join(names[1..])
    ensures Join(names)[|names[0]|] == '.' && Join(names)[..|names[0]|] == names[0]
    ensures Join(names)[|names[0]| + 1..] == Join(names[1..])
  {
  }

  lemma {:induction false} JoinInjective(a: seq<string>, b: seq<string>)
    requires a != [] && b != [] && Join(a) == Join(b)
    requires (forall name :: name in a ==> '.' !in name) && forall name :: name in b ==> '.' !in name
    ensures a == b
  {
    assert '.' !in a[0] && '.' !in b[0];
    if |a| > 1 { JoinMore(a); assert '.' in Join(a); }
    if |b| > 1 { JoinMore(b); assert '.' in Join(b); }
    if |a| > 1 && |b| > 1 {
      FirstDot(a[0], b[0], Join(a));
      JoinInjective(a[1..], b[1..]);
      assert a == [a[0]] + a[1..] && b == [b[0]] + b[1..];
    }
  }

  lemma FirstDot(a: string, b: string, s: string)
    requires '.' !in a && '.' !in b && |a| < |s| && |b| < |s| && s[|a|] == s[|b|] == '.'
    requires s[..|a|] == a && s[..|b|] == b
    ensures a == b
  {
    assert forall i :: 0 <= i < |a| ==> s[i] == a[i] != '.';
    assert forall i :: 0 <= i < |b| ==> s[i] == b[i] != '.';
  }

  ghost predicate PlainKeys(path: Path) { forall i :: 0 <= i < |path| && path[i].Key? ==> Plain(path[i].name) }

  lemma NamesWithoutDots(path: Path)
    requires PlainKeys(path)
    ensures forall name :: name in Names(path) ==> '.' !in name
  {
    NamesAreNames(path);
    forall i | 0 <= i < |path|
      ensures '.' !in Names(path)[i]
    {
      if path[i].Index? {
        var digits := Decimal.Print(path[i].position);
        assert forall k :: 0 <= k < |digits| ==> Decimal.IsDigit(digits[k]);
      }
    }
  }

  /** Paths over plain names can be told from their joined text. */
  lemma PlainPathsJoinApart(p: Path, q: Path)
    requires p != [] && q != [] && PlainKeys(p) && PlainKeys(q)
    requires Join(Names(p)) == Join(Names(q))
    ensures p == q
  {
    hide Join, Names;
    NamesAreNames(p);
    NamesAreNames(q);
    NamesWithoutDots(p);
    NamesWithoutDots(q);
    JoinInjective(Names(p), Names(q));
    forall i | 0 <= i < |p|
      ensures p[i] == q[i]
    {
      assert StepName(p[i]) == Names(p)[i] == Names(q)[i] == StepName(q[i]);
      if p[i].Index? && q[i].Index? {
        Decimal.PrintInjective(p[i].position, q[i].position);
      }
    }
  }

  /** A path that leads to a value in some document over these names, outside the rows. */
  ghost predicate IsPathOver(path: Path, names: iset<string>) { IsWay(path, names) && !(ROWS_PATH <= path) }

  /** It begins and ends with a key, and a key follows every index. */
  ghost predicate IsWay(path: Path, names: iset<string>) {
    && path != [] && path[0].Key? && path[|path| - 1].Key?
    && (forall i :: 0 <= i < |path| && path[i].Key? ==> path[i].name in names)
    && (forall i :: 0 <= i < |path| - 1 && path[i].Index? ==> path[i + 1].Key?)
  }

  /** Different paths over these names have different joined texts. */
  ghost predicate PathsJoinApart(names: iset<string>) {
    forall p, q :: IsPathOver(p, names) && IsPathOver(q, names) && Join(Names(p)) == Join(Names(q)) ==> p == q
  }

  lemma {:induction false} WaysOver(t: Table, names: iset<string>, path: Path)
    requires Over(t, names) && ValueAt(t, path).Some?
    ensures IsWay(path, names)
    decreases |path|, 0
  {
    assert path == [path[0]] + path[1..];
    var item := t.entries[path[0].name];
    if path[1..] != [] {
      WaysBelow(item, names, path[1..]);
    }
  }

  lemma {:induction false} WaysBelow(item: Item, names: iset<string>, path: Path)
    requires ItemOver(item, names) && path != [] && ValueIn(item, path).Some?
    ensures if path[0].Key? then IsWay(path, names) else IsWay(path[1..], names)
    decreases |path|, 1
  {
    match item
    case Leaf(_) =>
    case Node(table) => WaysOver(table, names, path);
    case Tables(tables) => WaysOver(tables[path[0].position], names, path[1..]);
  }

  /** Whatever one document holds, a document with the same fingerprint holds too. */
  lemma FoundAgain(a: Table, b: Table, names: iset<string>, path: Path)
    requires PathsJoinApart(names) && Over(a, names) && Over(b, names) && SameFingerprint(a, b)
    requires !(ROWS_PATH <= path) && ValueAt(a, path).Some?
    ensures ValueAt(b, path) == ValueAt(a, path)
  {
    hide ValueAt, Over, Join, Names, Listing, IsWay;
    ListedAtTop(a);
    ListedAtTop(b);
    var entry := (path, ValueAt(a, path).value);
    var line := LineOf(entry);
    assert entry in Lined(Listing(a, []), line);
    assert |Lined(Listing(b, []), line)| > 0;
    var other :| other in Lined(Listing(b, []), line);
    WaysOver(a, names, path);
    WaysOver(b, names, other.0);
    assert IsPathOver(path, names) && IsPathOver(other.0, names);
  }

  /** A document with one value. */
  ghost predicate HoldsOnly(t: Table, path: Path, v: Value) {
    forall other :: ValueAt(t, other) == if other == path then Some(v) else None
  }

  /** Two documents with one value each, under paths that join alike. */
  lemma Confused(a: Table, p: Path, b: Table, q: Path, v: Value, names: iset<string>)
    requires Over(a, names) && Over(b, names) && HoldsOnly(a, p, v) && HoldsOnly(b, q, v)
    requires !(ROWS_PATH <= p) && !(ROWS_PATH <= q)
    requires p != q && Join(Names(p)) == Join(Names(q))
    ensures SameFingerprint(a, b) && !SameOutside(a, b) && !FaithfulOn(names)
  {
    hide ValueAt, Over, Join, Names, Listing;
    ListedAtTop(a);
    ListedAtTop(b);
    assert Listing(a, []) == {(p, v)} && Listing(b, []) == {(q, v)};
    forall line: Line
      ensures |Lined({(p, v)}, line)| == |Lined({(q, v)}, line)|
    {
      OneLine((p, v));
      OneLine((q, v));
      assert LineOf((p, v)) == LineOf((q, v));
    }
    assert ValueAt(a, p) != ValueAt(b, p);
  }

  const SOME_VALUE := Other("1")

  function Single(key: string, item: Item): Table { Table(map[key := item]) }

  lemma OverSingle(key: string, item: Item, names: iset<string>)
    requires key in names && ItemOver(item, names)
    ensures Over(Single(key, item), names)
  {
  }

  lemma HoldsValue(key: string)
    ensures HoldsOnly(Single(key, Leaf(SOME_VALUE)), [Key(key)], SOME_VALUE)
  {
  }

  lemma HoldsBelow(key: string, inner: Table, path: Path)
    requires HoldsOnly(inner, path, SOME_VALUE) && path != []
    ensures HoldsOnly(Single(key, Node(inner)), [Key(key)] + path, SOME_VALUE)
  {
    var t := Single(key, Node(inner));
    forall other: Path
      ensures ValueAt(t, other) == if other == [Key(key)] + path then Some(SOME_VALUE) else None
    {
      if other != [] && other[0] == Key(key) {
        assert other == [Key(key)] + other[1..];
        assert ValueAt(inner, other[1..]) == if other[1..] == path then Some(SOME_VALUE) else None;
      }
    }
  }

  function Numbered(i: nat, inner: Table): seq<Table> { seq(i, _ => EMPTY) + [inner] }

  lemma HoldsNumbered(key: string, i: nat, inner: Table, path: Path)
    requires HoldsOnly(inner, path, SOME_VALUE)
    ensures HoldsOnly(Single(key, Tables(Numbered(i, inner))), [Key(key), Index(i)] + path, SOME_VALUE)
  {
    var t := Single(key, Tables(Numbered(i, inner)));
    forall other: Path
      ensures ValueAt(t, other) == if other == [Key(key), Index(i)] + path then Some(SOME_VALUE) else None
    {
      if other != [] && other[0] == Key(key) {
        NumberedValue(i, inner, path, other[1..]);
        assert other == [Key(key)] + other[1..];
        assert [Key(key), Index(i)] + path == [Key(key)] + ([Index(i)] + path);
      }
    }
  }

  lemma NumberedValue(i: nat, inner: Table, path: Path, other: Path)
    requires HoldsOnly(inner, path, SOME_VALUE)
    ensures ValueIn(Tables(Numbered(i, inner)), other) ==
            if other == [Index(i)] + path then Some(SOME_VALUE) else None
  {
    var tables := Numbered(i, inner);
    if other != [] && other[0].Index? && other[0].position < |tables| {
      assert other == [other[0]] + other[1..];
      assert ValueAt(inner, other[1..]) == if other[1..] == path then Some(SOME_VALUE) else None;
      assert tables[other[0].position] == if other[0].position == i then inner else EMPTY;
      assert ValueAt(EMPTY, other[1..]) == None;
    }
  }

  /** `"a.b" = 1`, and `b = 1` in `[a]`. */
  lemma DottedNamesAreConfused(before: string, after: string, names: iset<string>)
    requires before in names && after in names && before + "." + after in names
    ensures var a := Single(before + "." + after, Leaf(SOME_VALUE));
            var b := Single(before, Node(Single(after, Leaf(SOME_VALUE))));
            SameFingerprint(a, b) && !SameOutside(a, b) && !FaithfulOn(names)
  {
    hide SameFingerprint, SameOutside, FaithfulOn, Over, HoldsOnly;
    assert |ROWS_PATH| == 4;
    var name := before + "." + after;
    var inner := Single(after, Leaf(SOME_VALUE));
    var a, b := Single(name, Leaf(SOME_VALUE)), Single(before, Node(inner));
    var p, q := [Key(name)], [Key(before), Key(after)];
    HoldsValue(name);
    HoldsValue(after);
    assert q == [Key(before)] + [Key(after)];
    HoldsBelow(before, inner, [Key(after)]);
    OverSingle(name, Leaf(SOME_VALUE), names);
    OverSingle(after, Leaf(SOME_VALUE), names);
    OverSingle(before, Node(inner), names);
    NamesAreNames(p);
    NamesAreNames(q);
    assert Names(p) == [name] && Names(q) == [before, after] && Names(q)[1..] == [after];
    Confused(a, p, b, q, SOME_VALUE, names);
  }

  /** The table number `i` of an array, and the table under the key that spells `i`. */
  lemma NumeralsAreConfused(i: nat, names: iset<string>)
    requires Decimal.Print(i) in names
    ensures var n := Decimal.Print(i);
            var inner := Single(n, Leaf(SOME_VALUE));
            var a, b := Single(n, Node(Single(n, Node(inner)))), Single(n, Tables(Numbered(i, inner)));
            SameFingerprint(a, b) && !SameOutside(a, b) && !FaithfulOn(names)
  {
    hide SameFingerprint, SameOutside, FaithfulOn, Over, HoldsOnly, Decimal.Print;
    assert ROWS_PATH[1].Key? && |ROWS_PATH| == 4;
    var n := Decimal.Print(i);
    var inner := Single(n, Leaf(SOME_VALUE));
    var middle := Single(n, Node(inner));
    var a, b := Single(n, Node(middle)), Single(n, Tables(Numbered(i, inner)));
    var p, q := [Key(n), Key(n), Key(n)], [Key(n), Index(i), Key(n)];
    HoldsValue(n);
    assert [Key(n), Key(n)] == [Key(n)] + [Key(n)] && p == [Key(n)] + [Key(n), Key(n)];
    HoldsBelow(n, inner, [Key(n)]);
    HoldsBelow(n, middle, [Key(n), Key(n)]);
    assert q == [Key(n), Index(i)] + [Key(n)];
    HoldsNumbered(n, i, inner, [Key(n)]);
    OverSingle(n, Leaf(SOME_VALUE), names);
    OverSingle(n, Node(inner), names);
    OverSingle(n, Node(middle), names);
    OverNumbered(i, inner, names);
    OverSingle(n, Tables(Numbered(i, inner)), names);
    NamesAreNames(p);
    NamesAreNames(q);
    assert Names(p) == Names(q);
    Confused(a, p, b, q, SOME_VALUE, names);
  }

  lemma OverNumbered(i: nat, inner: Table, names: iset<string>)
    requires Over(inner, names)
    ensures ItemOver(Tables(Numbered(i, inner)), names)
  {
    assert Over(EMPTY, names);
  }

  /** The document with one value at the end of a path. */
  function TableAt(path: Path): Table
    decreases |path|, 0
  {
    if path == [] then EMPTY else Single(StepName(path[0]), ItemAt(path[1..]))
  }

  function ItemAt(path: Path): Item
    decreases |path|, 1
  {
    if path == [] then Leaf(SOME_VALUE)
    else if path[0].Key? then Node(TableAt(path))
    else Tables(Numbered(path[0].position, TableAt(path[1..])))
  }

  lemma {:induction false} HoldsAtItsEnd(path: Path, names: iset<string>)
    requires IsWay(path, names)
    ensures HoldsOnly(TableAt(path), path, SOME_VALUE) && Over(TableAt(path), names)
    decreases |path|
  {
    hide HoldsOnly, Over, ValueAt;
    var key := path[0].name;
    assert path == [Key(key)] + path[1..];
    if |path| == 1 {
      assert path == [Key(key)] && TableAt(path) == Single(key, Leaf(SOME_VALUE));
      HoldsValue(key);
      OverSingle(key, Leaf(SOME_VALUE), names);
    } else if path[1].Key? {
      var inner := TableAt(path[1..]);
      HoldsAtItsEnd(path[1..], names);
      HoldsBelow(key, inner, path[1..]);
      OverSingle(key, Node(inner), names);
    } else {
      var i, inner := path[1].position, TableAt(path[2..]);
      assert path[1..][1..] == path[2..] && path == [Key(key), Index(i)] + path[2..];
      HoldsAtItsEnd(path[2..], names);
      HoldsNumbered(key, i, inner, path[2..]);
      OverNumbered(i, inner, names);
      OverSingle(key, Tables(Numbered(i, inner)), names);
    }
  }

  /** A fingerprint tells apart whatever differs outside the rows, in documents over
      these names, if and only if different paths over them join differently. */
  lemma FingerprintIsFaithful(names: iset<string>)
    ensures FaithfulOn(names) <==> PathsJoinApart(names)
  {
    hide Over, SameFingerprint, SameOutside, IsWay, Join, Names, TableAt;
    if PathsJoinApart(names) {
      forall a, b | Over(a, names) && Over(b, names) && SameFingerprint(a, b)
        ensures SameOutside(a, b)
      {
        SameDocuments(a, b, names);
      }
    }
    forall p, q | IsPathOver(p, names) && IsPathOver(q, names) && Join(Names(p)) == Join(Names(q)) && p != q
      ensures !FaithfulOn(names)
    {
      HoldsAtItsEnd(p, names);
      HoldsAtItsEnd(q, names);
      Confused(TableAt(p), p, TableAt(q), q, SOME_VALUE, names);
    }
  }

  lemma SameDocuments(a: Table, b: Table, names: iset<string>)
    requires PathsJoinApart(names) && Over(a, names) && Over(b, names) && SameFingerprint(a, b)
    ensures SameOutside(a, b)
  {
    hide Over, SameFingerprint, PathsJoinApart, ValueAt;
    Symmetric(a, b);
    forall path: Path | !(ROWS_PATH <= path)
      ensures ValueAt(a, path) == ValueAt(b, path)
    {
      if ValueAt(a, path).Some? {
        FoundAgain(a, b, names, path);
      } else if ValueAt(b, path).Some? {
        FoundAgain(b, a, names, path);
      }
    }
  }

  /** For names that come with their parts, that is to say: no name contains a dot or
      is a numeral. Plain names always suffice. */
  lemma PlainNamesJoinApart(names: iset<string>)
    ensures (forall name :: name in names ==> Plain(name)) ==> PathsJoinApart(names)
    ensures ClosedUnderDots(names) ==> (PathsJoinApart(names) <==> forall name :: name in names ==> Plain(name))
  {
    hide Plain, Join, Names, FaithfulOn, Decimal.Print;
    if forall name :: name in names ==> Plain(name) {
      forall p, q | IsPathOver(p, names) && IsPathOver(q, names) && Join(Names(p)) == Join(Names(q))
        ensures p == q
      {
        PlainPathsJoinApart(p, q);
      }
    }
    FingerprintIsFaithful(names);
    forall name | ClosedUnderDots(names) && name in names && !Plain(name)
      ensures !FaithfulOn(names)
    {
      NotPlain(names, name);
    }
  }

  lemma NotPlain(names: iset<string>, name: string)
    requires ClosedUnderDots(names) && name in names && !Plain(name)
    ensures !FaithfulOn(names)
  {
    hide FaithfulOn, SameFingerprint, SameOutside, Decimal.Print;
    if '.' in name {
      var i :| 0 <= i < |name| && name[i] == '.';
      assert name == name[..i] + "." + name[i + 1..];
      DottedNamesAreConfused(name[..i], name[i + 1..], names);
    } else {
      var i: nat :| Decimal.Print(i) == name;
      NumeralsAreConfused(i, names);
    }
  }

  lemma Symmetric(a: Table, b: Table)
    requires SameFingerprint(a, b)
    ensures SameFingerprint(b, a)
  {
    hide Listing;
  }
}

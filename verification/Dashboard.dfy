/** The dashboard's tree of forwards (src/bin/plugin/dashboard_render.rs): the order of
    the entries, the lines that are drawn, the scroll window, and which entry a click
    on a row means. */
module Dashboard {
  import opened Wrappers
  import opened RegistrySpec
  import Sorting

  const U64_LAST: nat := 0xffff_ffff_ffff_ffff

  /** Where Herdr shows a pane. */
  datatype PaneLocation = PaneLocation(space: string, spaceNumber: nat, tab: string, tabNumber: nat)

  type Locations = map<string, PaneLocation>

  /** `location_info`: a pane that is not in the snapshot stands for itself, at the end. */
  function LocationOf(f: Forward, locations: Locations): PaneLocation {
    if f.paneId in locations then locations[f.paneId]
    else PaneLocation(f.paneId, U64_LAST, f.paneId, U64_LAST)
  }

  // ---------------------------------------------------------------------------
  // The order
  // ---------------------------------------------------------------------------

  /** Strings are compared character by character. */
  predicate TextLess(a: string, b: string) {
    b != [] && (a == [] || a[0] < b[0] || (a[0] == b[0] && TextLess(a[1..], b[1..])))
  }

  /** Manual entries come last, by id; the others by space, tab and pane. */
  datatype Key = Key(group: nat, spaceNumber: nat, space: string, tabNumber: nat, tab: string, last: string)

  function KeyOf(f: Forward, locations: Locations): Key {
    if f.automatic then
      var l := LocationOf(f, locations);
      Key(0, l.spaceNumber, l.space, l.tabNumber, l.tab, f.paneId)
    else Key(1, U64_LAST, "", U64_LAST, "", f.id)
  }

  predicate KeyAtMost(a: Key, b: Key) {
    if a.group != b.group then a.group < b.group
    else if a.spaceNumber != b.spaceNumber then a.spaceNumber < b.spaceNumber
    else if a.space != b.space then TextLess(a.space, b.space)
    else if a.tabNumber != b.tabNumber then a.tabNumber < b.tabNumber
    else if a.tab != b.tab then TextLess(a.tab, b.tab)
    else a.last == b.last || TextLess(a.last, b.last)
  }

  function KeyAt(forwards: seq<Forward>, locations: Locations, i: nat): Key {
    if i < |forwards| then KeyOf(forwards[i], locations) else Key(2, 0, "", 0, "", "")
  }

  function Ranks(forwards: seq<Forward>, locations: Locations): (nat, nat) -> bool {
    (i: nat, j: nat) => KeyAtMost(KeyAt(forwards, locations, i), KeyAt(forwards, locations, j))
  }

  function Indexes(n: nat): seq<nat> { seq(n, i => i) }

  /** `tree_forward_indexes`: a stable sort of the positions. */
  function Order(forwards: seq<Forward>, locations: Locations): seq<nat> {
    Sorting.StableSort(Indexes(|forwards|), Ranks(forwards, locations))
  }

  lemma {:induction false} TextLessIsStrict(a: string, b: string)
    ensures TextLess(a, b) ==> a != b && !TextLess(b, a)
    ensures a == b || TextLess(a, b) || TextLess(b, a)
  {
    if a != [] && b != [] && a[0] == b[0] {
      TextLessIsStrict(a[1..], b[1..]);
      assert a == [a[0]] + a[1..] && b == [b[0]] + b[1..];
    }
  }

  lemma {:induction false} TextLessIsTransitive(a: string, b: string, c: string)
    requires TextLess(a, b) && TextLess(b, c)
    ensures TextLess(a, c)
  {
    if a != [] && a[0] == b[0] && b[0] == c[0] {
      TextLessIsTransitive(a[1..], b[1..], c[1..]);
    }
  }

  lemma TextOrder(a: string, b: string, c: string)
    ensures a == b || TextLess(a, b) || TextLess(b, a)
    ensures TextLess(a, b) ==> a != b && !TextLess(b, a)
    ensures TextLess(a, b) && TextLess(b, c) ==> TextLess(a, c) && a != c
  {
    TextLessIsStrict(a, b);
    if TextLess(a, b) && TextLess(b, c) {
      TextLessIsTransitive(a, b, c);
      TextLessIsStrict(a, c);
    }
  }

  lemma KeysAreOrdered(a: Key, b: Key, c: Key)
    ensures KeyAtMost(a, b) || KeyAtMost(b, a)
    ensures KeyAtMost(a, b) && KeyAtMost(b, c) ==> KeyAtMost(a, c)
    ensures KeyAtMost(a, b) && KeyAtMost(b, a) ==> a == b
  {
    hide TextLess;
    TextOrder(a.space, b.space, c.space);
    TextOrder(a.tab, b.tab, c.tab);
    TextOrder(a.last, b.last, c.last);
    TextOrder(b.space, a.space, c.space);
    TextOrder(b.tab, a.tab, c.tab);
    TextOrder(b.last, a.last, c.last);
  }

  lemma RanksAreOrdered(forwards: seq<Forward>, locations: Locations)
    ensures Sorting.TotalPreorder(Ranks(forwards, locations))
  {
    hide KeyAtMost, KeyAt;
    var leq := Ranks(forwards, locations);
    forall x, y
      ensures leq(x, y) || leq(y, x)
    {
      KeysAreOrdered(KeyAt(forwards, locations, x), KeyAt(forwards, locations, y), KeyAt(forwards, locations, x));
    }
    forall x, y, z | leq(x, y) && leq(y, z)
      ensures leq(x, z)
    {
      KeysAreOrdered(KeyAt(forwards, locations, x), KeyAt(forwards, locations, y), KeyAt(forwards, locations, z));
    }
  }

  ghost predicate IsOrder(forwards: seq<Forward>, locations: Locations, order: seq<nat>) {
    && |order| == |forwards|
    && (forall p :: 0 <= p < |order| ==> order[p] < |forwards|)
    && (forall i :: 0 <= i < |forwards| ==> i in order)
    && (forall p, q :: 0 <= p < q < |order| ==>
          && order[p] != order[q]
          && KeyAtMost(KeyOf(forwards[order[p]], locations), KeyOf(forwards[order[q]], locations))
          && (KeyOf(forwards[order[p]], locations) == KeyOf(forwards[order[q]], locations) ==> order[p] < order[q]))
  }

  predicate Before(i: nat, j: nat) { i < j }

  /** The order is a sorted permutation that keeps equal entries in place. */
  lemma OrderIsStable(forwards: seq<Forward>, locations: Locations)
    ensures IsOrder(forwards, locations, Order(forwards, locations))
  {
    hide KeyAtMost, KeyOf, Sorting.StableSort;
    var n := |forwards|;
    var order, leq := Order(forwards, locations), Ranks(forwards, locations);
    RanksAreOrdered(forwards, locations);
    Sorting.StableSortOrders(Indexes(n), leq, Before);
    forall i
      ensures i in order <==> 0 <= i < n
    {
      assert i in order <==> i in multiset(order);
      assert i in Indexes(n) <==> i in multiset(Indexes(n));
      if 0 <= i < n { assert Indexes(n)[i] == i; }
    }
    forall p | 0 <= p < |order|
      ensures order[p] < n
    {
      assert order[p] in order;
    }
    forall p, q | 0 <= p < q < |order|
      ensures order[p] != order[q]
    {
      PositionsDiffer(order, n, p, q);
    }
    forall p, q | 0 <= p < q < |order|
      ensures KeyAtMost(KeyOf(forwards[order[p]], locations), KeyOf(forwards[order[q]], locations))
      ensures KeyOf(forwards[order[p]], locations) == KeyOf(forwards[order[q]], locations) ==> order[p] < order[q]
    {
      assert leq(order[p], order[q]);
      KeyIsReflexive(KeyOf(forwards[order[p]], locations));
    }
  }

  /** `a` stands before `b` in a dictionary: it is a proper beginning of it, or the first
      character in which they differ is smaller. */
  ghost predicate InDictionaryBefore(a: string, b: string) {
    exists k :: 0 <= k <= |a| && k < |b| && a[..k] == b[..k] && (k == |a| || a[k] < b[k])
  }

  lemma {:induction false} TextLessIsDictionary(a: string, b: string)
    ensures TextLess(a, b) <==> InDictionaryBefore(a, b)
  {
    if a != [] && b != [] && a[0] == b[0] {
      TextLessIsDictionary(a[1..], b[1..]);
      if TextLess(a[1..], b[1..]) {
        var k :| 0 <= k <= |a[1..]| && k < |b[1..]| && a[1..][..k] == b[1..][..k]
                 && (k == |a[1..]| || a[1..][k] < b[1..][k]);
        assert a[..k + 1] == [a[0]] + a[1..][..k] && b[..k + 1] == [b[0]] + b[1..][..k];
      }
      if k :| 0 <= k <= |a| && k < |b| && a[..k] == b[..k] && (k == |a| || a[k] < b[k]) {
        assert k > 0;
        assert a[1..][..k - 1] == a[..k][1..] && b[1..][..k - 1] == b[..k][1..];
      }
    } else if b != [] && (a == [] || a[0] < b[0]) {
      assert a[..0] == b[..0];
    } else if a != [] && b != [] {
      forall k | 0 < k <= |a| && k < |b|
        ensures a[..k] != b[..k]
      {
        assert a[..k][0] == a[0] && b[..k][0] == b[0];
      }
    }
  }

  /** The one shown first, if they are not equal. */
  ghost predicate SameOrBefore(a: string, b: string) { a == b || InDictionaryBefore(a, b) }

  /** What the order means for two automatic entries: by the number of the space, its id,
      the number of the tab, its id, and the pane. */
  ghost predicate ShownBefore(l: PaneLocation, pane: string, m: PaneLocation, other: string) {
    && l.spaceNumber <= m.spaceNumber
    && (l.spaceNumber == m.spaceNumber ==> SameOrBefore(l.space, m.space))
    && (l.spaceNumber == m.spaceNumber && l.space == m.space ==>
          && l.tabNumber <= m.tabNumber
          && (l.tabNumber == m.tabNumber ==> SameOrBefore(l.tab, m.tab))
          && (l.tabNumber == m.tabNumber && l.tab == m.tab ==> SameOrBefore(pane, other)))
  }

  /** Of two entries in a list sorted for display, a manual one is never before an automatic
      one, two manual ones stand by their ids, and two automatic ones by their places; a
      pane without a known place counts as a space and a tab of its own at the very end. */
  lemma OrderMeans(forwards: seq<Forward>, locations: Locations, p: nat, q: nat)
    requires p < q < |forwards|
    ensures var order := Order(forwards, locations);
            && |order| == |forwards| && order[p] < |forwards| && order[q] < |forwards| &&
            var f, g := forwards[order[p]], forwards[order[q]];
            && (g.automatic ==> f.automatic)
            && (!f.automatic && !g.automatic ==> SameOrBefore(f.id, g.id))
            && (f.automatic && g.automatic ==>
                  var unknown := 0xffff_ffff_ffff_ffff;
                  var l := if f.paneId in locations then locations[f.paneId]
                           else PaneLocation(f.paneId, unknown, f.paneId, unknown);
                  var m := if g.paneId in locations then locations[g.paneId]
                           else PaneLocation(g.paneId, unknown, g.paneId, unknown);
                  ShownBefore(l, f.paneId, m, g.paneId))
  {
    hide TextLess, InDictionaryBefore, Order;
    OrderIsStable(forwards, locations);
    var order := Order(forwards, locations);
    var a, b := KeyOf(forwards[order[p]], locations), KeyOf(forwards[order[q]], locations);
    assert KeyAtMost(a, b);
    TextLessIsDictionary(a.space, b.space);
    TextLessIsDictionary(a.tab, b.tab);
    TextLessIsDictionary(a.last, b.last);
  }

  lemma KeyIsReflexive(a: Key)
    ensures KeyAtMost(a, a)
  {
  }

  lemma PositionsDiffer(order: seq<nat>, n: nat, p: nat, q: nat)
    requires multiset(order) == multiset(Indexes(n)) && p < q < |order|
    ensures order[p] != order[q]
  {
    if order[p] == order[q] {
      assert order == order[..p] + [order[p]] + order[p + 1..q] + [order[q]] + order[q + 1..];
      assert multiset(order)[order[p]] >= 2;
      CountOfIndex(n, order[p]);
    }
  }

  lemma {:induction false} CountOfIndex(n: nat, i: nat)
    ensures multiset(Indexes(n))[i] <= 1
  {
    if n > 0 {
      CountOfIndex(n - 1, i);
      assert Indexes(n) == Indexes(n - 1) + [n - 1];
      assert i == n - 1 ==> i !in Indexes(n - 1);
    }
  }

  // ---------------------------------------------------------------------------
  // Sorting the entries themselves
  // ---------------------------------------------------------------------------

  /** `sort_for_display`. */
  method SortForDisplay(forwards: seq<Forward>, locations: Locations) returns (sorted: seq<Forward>)
    ensures |sorted| == |forwards|
    ensures forall p :: 0 <= p < |sorted| ==>
              Order(forwards, locations)[p] < |forwards| && sorted[p] == forwards[Order(forwards, locations)[p]]
  {
    hide Order;
    OrderIsStable(forwards, locations);
    var indexes := Order(forwards, locations);
    sorted := [];
    for p := 0 to |indexes|
      invariant |sorted| == p
      invariant forall q :: 0 <= q < p ==> sorted[q] == forwards[indexes[q]]
    {
      sorted := sorted + [forwards[indexes[p]]];
    }
  }

  /** Once sorted, the positions are already in the order in which they are shown. */
  lemma SortedIsShownInOrder(forwards: seq<Forward>, locations: Locations, sorted: seq<Forward>)
    requires |sorted| == |forwards|
    requires forall p :: 0 <= p < |sorted| ==>
               Order(forwards, locations)[p] < |forwards| && sorted[p] == forwards[Order(forwards, locations)[p]]
    ensures Order(sorted, locations) == Indexes(|sorted|)
  {
    hide KeyAtMost, KeyOf, Sorting.StableSort;
    OrderIsStable(forwards, locations);
    var leq := Ranks(sorted, locations);
    forall i | 0 < i < |sorted|
      ensures leq(Indexes(|sorted|)[i - 1], Indexes(|sorted|)[i])
    {
      assert KeyAtMost(KeyOf(sorted[i - 1], locations), KeyOf(sorted[i], locations));
    }
    Sorting.SortedStays(Indexes(|sorted|), leq);
  }

  // ---------------------------------------------------------------------------
  // The lines
  // ---------------------------------------------------------------------------

  /** What a line is; texts and branch drawings are left out. */
  datatype Line =
    | Blank
    | ManualHeader
    | SpaceHeading(space: string)
    | TabHeading(space: string, tab: string)
    | PaneHeading(space: string, tab: string, pane: string)
    | ForwardLine(index: nat, second: bool)

  datatype Place = Place(space: string, tab: string, pane: string)

  const NOWHERE := Place("", "", "")

  function PlaceOf(f: Forward, locations: Locations): Place {
    var l := LocationOf(f, locations);
    Place(l.space, l.tab, f.paneId)
  }

  /** The headings between two entries; a new space or tab starts afresh below it. */
  function Headings(previous: Place, here: Place): seq<Line> {
    if here.space != previous.space then
      [SpaceHeading(here.space)] + (if here.tab != "" then [TabHeading(here.space, here.tab)] else [])
      + (if here.pane != "" then [PaneHeading(here.space, here.tab, here.pane)] else [])
    else if here.tab != previous.tab then
      [TabHeading(here.space, here.tab)]
      + (if here.pane != "" then [PaneHeading(here.space, here.tab, here.pane)] else [])
    else if here.pane != previous.pane then [PaneHeading(here.space, here.tab, here.pane)]
    else []
  }

  function EntryLines(i: nat): seq<Line> { [ForwardLine(i, false), ForwardLine(i, true)] }

  /** The place of the entry shown just before position `p`. */
  function PlaceBefore(forwards: seq<Forward>, locations: Locations, order: seq<nat>, p: nat): Place
    requires p <= |order| && forall q :: 0 <= q < |order| ==> order[q] < |forwards|
  {
    if p == 0 || !forwards[order[p - 1]].automatic then NOWHERE else PlaceOf(forwards[order[p - 1]], locations)
  }

  /** What stands above the entry at position `p` and below the one before it. */
  function HeadingsAt(forwards: seq<Forward>, locations: Locations, order: seq<nat>, p: nat): seq<Line>
    requires p < |order| && forall q :: 0 <= q < |order| ==> order[q] < |forwards|
  {
    var f := forwards[order[p]];
    if f.automatic then Headings(PlaceBefore(forwards, locations, order, p), PlaceOf(f, locations))
    else if p > 0 && !forwards[order[p - 1]].automatic then []
    else (if p > 0 then [Blank] else []) + [ManualHeader]
  }

  /** What position `p` adds to the tree. */
  function Block(forwards: seq<Forward>, locations: Locations, order: seq<nat>, p: nat): seq<Line>
    requires p < |order| && forall q :: 0 <= q < |order| ==> order[q] < |forwards|
  {
    HeadingsAt(forwards, locations, order, p) + EntryLines(order[p])
  }

  function Tree(forwards: seq<Forward>, locations: Locations, order: seq<nat>, p: nat): seq<Line>
    requires p <= |order| && forall q :: 0 <= q < |order| ==> order[q] < |forwards|
  {
    if p == 0 then [] else Tree(forwards, locations, order, p - 1) + Block(forwards, locations, order, p - 1)
  }

  /** The automatic entries come first. */
  lemma AutomaticFirst(forwards: seq<Forward>, locations: Locations, order: seq<nat>, p: nat)
    requires IsOrder(forwards, locations, order) && p + 1 < |order| && forwards[order[p + 1]].automatic
    ensures forwards[order[p]].automatic
  {
    hide TextLess, LocationOf;
    assert KeyAtMost(KeyOf(forwards[order[p]], locations), KeyOf(forwards[order[p + 1]], locations));
  }

  /** The headings above an automatic entry, one test after the other. */
  method AddHeadings(lines: seq<Line>, previous: Place, here: Place) returns (more: seq<Line>, now: Place)
    ensures more == lines + Headings(previous, here) && now == here
  {
    more, now := lines, previous;
    if here.space != now.space {
      more := more + [SpaceHeading(here.space)];
      now := Place(here.space, "", "");
    }
    if here.tab != now.tab {
      more := more + [TabHeading(here.space, here.tab)];
      now := Place(here.space, here.tab, "");
    }
    if here.pane != now.pane {
      more := more + [PaneHeading(here.space, here.tab, here.pane)];
      now := here;
    }
  }

  /** One turn of the loop over the shown entries. */
  method AddEntry(forwards: seq<Forward>, locations: Locations, order: seq<nat>, p: nat,
                  lines: seq<Line>, previous: Place, manualSection: bool)
    returns (more: seq<Line>, now: Place, manual: bool)
    requires IsOrder(forwards, locations, order) && p < |order| && (lines == [] <==> p == 0)
    requires manualSection <==> p > 0 && !forwards[order[p - 1]].automatic
    requires !manualSection ==> previous == PlaceBefore(forwards, locations, order, p)
    ensures more == lines + Block(forwards, locations, order, p)
    ensures manual <==> !forwards[order[p]].automatic
    ensures !manual ==> now == PlaceBefore(forwards, locations, order, p + 1)
  {
    hide KeyAtMost, KeyOf, LocationOf, Headings, EntryLines;
    more, now, manual := lines, previous, manualSection;
    var f := forwards[order[p]];
    if f.automatic {
      if p > 0 { AutomaticFirst(forwards, locations, order, p - 1); }
      more, now := AddHeadings(more, now, PlaceOf(f, locations));
    } else if !manual {
      if more != [] { more := more + [Blank]; }
      more := more + [ManualHeader];
      manual := true;
    }
    assert more == lines + HeadingsAt(forwards, locations, order, p);
    more := more + EntryLines(order[p]);
  }

  /** `tree_lines`. */
  method TreeLines(forwards: seq<Forward>, locations: Locations) returns (lines: seq<Line>)
    ensures IsOrder(forwards, locations, Order(forwards, locations))
    ensures lines == Tree(forwards, locations, Order(forwards, locations), |forwards|)
  {
    hide Order, KeyAtMost, KeyOf, Block;
    OrderIsStable(forwards, locations);
    var order := Order(forwards, locations);
    lines := [];
    var previous, manualSection := NOWHERE, false;
    for p := 0 to |order|
      invariant lines == Tree(forwards, locations, order, p)
      invariant !manualSection ==> previous == PlaceBefore(forwards, locations, order, p)
      invariant manualSection <==> p > 0 && !forwards[order[p - 1]].automatic
    {
      TreeHasLines(forwards, locations, order, p);
      lines, previous, manualSection := AddEntry(forwards, locations, order, p, lines, previous, manualSection);
    }
  }

  lemma TreeHasLines(forwards: seq<Forward>, locations: Locations, order: seq<nat>, p: nat)
    requires p <= |order| && forall q :: 0 <= q < |order| ==> order[q] < |forwards|
    ensures Tree(forwards, locations, order, p) == [] <==> p == 0
  {
  }

  // ---------------------------------------------------------------------------
  // The window and the mouse
  // ---------------------------------------------------------------------------

  function Least(a: nat, b: nat): nat { if a < b then a else b }

  /** `saturating_sub`. */
  function Minus(a: nat, b: nat): nat { if a < b then 0 else a - b }

  /** `tree_scroll_window`: which lines are drawn. */
  function ScrollWindow(count: nat, selected: nat, visible: nat): (r: (nat, nat))
    ensures r.0 <= r.1 <= count
  {
    var rows := Least(visible, count);
    var start := Least(Minus(selected + 2, rows), Minus(count, rows));
    (start, start + rows)
  }

  /** The first line of the selected entry; the top if there is none. */
  function SelectedLine(lines: seq<Line>, selected: nat): nat {
    if lines == [] || (forall k :: 0 <= k < |lines| ==> !(lines[k].ForwardLine? && lines[k].index == selected)) then 0
    else if lines[0].ForwardLine? && lines[0].index == selected then 0
    else 1 + SelectedLine(lines[1..], selected)
  }

  /** The order in which the entries are shown. */
  function Shown(forwards: seq<Forward>, locations: Locations): (order: seq<nat>)
    ensures IsOrder(forwards, locations, order)
  {
    OrderIsStable(forwards, locations);
    Order(forwards, locations)
  }

  /** `forward_index_at`. */
  function ForwardIndexAt(row: nat, height: nat, selected: nat, forwards: seq<Forward>,
                          locations: Locations): Option<nat> {
    if row < 3 || row >= Minus(height, 2) || forwards == [] then None else
    var lines := Tree(forwards, locations, Shown(forwards, locations), |forwards|);
    var visible := Minus(height, 5);
    if visible == 0 then None else
    var (start, end) := ScrollWindow(|lines|, SelectedLine(lines, selected), visible);
    var at := start + (row - 3);
    if at >= end then None
    else if lines[at].ForwardLine? then Some(lines[at].index) else None
  }
}

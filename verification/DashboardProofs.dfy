/** What the dashboard's tree promises its reader: every entry under its own headings,
    every heading once, two lines per entry, the selected entry in sight, and clicks
    that mean what is drawn. */
module DashboardProofs {
  import opened Wrappers
  import opened RegistrySpec
  import opened Dashboard

  ghost predicate InRange(forwards: seq<Forward>, order: seq<nat>) {
    forall q :: 0 <= q < |order| ==> order[q] < |forwards|
  }

  // ---------------------------------------------------------------------------
  // Two lines per entry
  // ---------------------------------------------------------------------------

  /** The first of the two lines of position `q`. */
  function RowOf(forwards: seq<Forward>, locations: Locations, order: seq<nat>, q: nat): int
    requires q < |order| && forall p :: 0 <= p < |order| ==> order[p] < |forwards|
  {
    |Tree(forwards, locations, order, q + 1)| - 2
  }

  lemma BlockEnds(forwards: seq<Forward>, locations: Locations, order: seq<nat>, p: nat)
    requires p < |order| && InRange(forwards, order)
    ensures var block := Block(forwards, locations, order, p);
            && |block| >= 2 && block[|block| - 2..] == EntryLines(order[p])
            && forall k :: 0 <= k < |block| - 2 ==> !block[k].ForwardLine?
  {
    hide LocationOf;
  }

  lemma {:induction false} TreeGrows(forwards: seq<Forward>, locations: Locations, order: seq<nat>, p: nat, q: nat)
    requires p <= q <= |order| && InRange(forwards, order)
    ensures Tree(forwards, locations, order, p) <= Tree(forwards, locations, order, q)
    decreases q
  {
    hide Block;
    if p < q {
      TreeGrows(forwards, locations, order, p, q - 1);
    }
  }

  /** Every line belongs to the block of one position. */
  lemma {:induction false} BlockOfLine(forwards: seq<Forward>, locations: Locations, order: seq<nat>, n: nat, k: nat)
    returns (p: nat)
    requires n <= |order| && InRange(forwards, order) && k < |Tree(forwards, locations, order, n)|
    ensures p < n && |Tree(forwards, locations, order, p)| <= k < |Tree(forwards, locations, order, p + 1)|
    ensures var at := k - |Tree(forwards, locations, order, p)|;
            && at < |Block(forwards, locations, order, p)|
            && Tree(forwards, locations, order, n)[k] == Block(forwards, locations, order, p)[at]
    decreases n
  {
    hide Block;
    if k < |Tree(forwards, locations, order, n - 1)| {
      p := BlockOfLine(forwards, locations, order, n - 1, k);
    } else {
      p := n - 1;
    }
  }

  /** Each entry owns exactly two lines, one below the other. */
  lemma TwoLinesEach(forwards: seq<Forward>, locations: Locations, order: seq<nat>, q: nat)
    requires IsOrder(forwards, locations, order) && q < |order|
    ensures var lines, k := Tree(forwards, locations, order, |order|), RowOf(forwards, locations, order, q);
            && 0 <= k && k + 1 < |lines|
            && lines[k] == ForwardLine(order[q], false) && lines[k + 1] == ForwardLine(order[q], true)
            && forall j :: 0 <= j < |lines| && lines[j].ForwardLine? && lines[j].index == order[q] ==>
                 j == k || j == k + 1
  {
    hide Block, KeyAtMost, KeyOf;
    var lines, k := Tree(forwards, locations, order, |order|), RowOf(forwards, locations, order, q);
    TreeGrows(forwards, locations, order, q + 1, |order|);
    BlockEnds(forwards, locations, order, q);
    var block := Block(forwards, locations, order, q);
    assert block[|block| - 2] == EntryLines(order[q])[0] && block[|block| - 1] == EntryLines(order[q])[1];
    forall j | 0 <= j < |lines| && lines[j].ForwardLine? && lines[j].index == order[q]
      ensures j == k || j == k + 1
    {
      var p := BlockOfLine(forwards, locations, order, |order|, j);
      BlockEnds(forwards, locations, order, p);
      var other := Block(forwards, locations, order, p);
      assert other[|other| - 2] == EntryLines(order[p])[0] && other[|other| - 1] == EntryLines(order[p])[1];
      assert p == q;
    }
  }

  // ---------------------------------------------------------------------------
  // Every entry under its own headings
  // ---------------------------------------------------------------------------

  /** What a reader going down the lines knows. */
  datatype Context = Top | Manual | In(space: string, tab: Option<string>, pane: Option<string>)

  function Below(c: Context, line: Line): Context {
    match line
    case Blank => c
    case ManualHeader => Manual
    case SpaceHeading(space) => In(space, None, None)
    case TabHeading(_, tab) => if c.In? then In(c.space, Some(tab), None) else c
    case PaneHeading(_, _, pane) => if c.In? then In(c.space, c.tab, Some(pane)) else c
    case ForwardLine(_, _) => c
  }

  function Reading(lines: seq<Line>): Context {
    if lines == [] then Top else Below(Reading(lines[..|lines| - 1]), lines[|lines| - 1])
  }

  function ContextOf(f: Forward, locations: Locations): Context {
    if f.automatic then
      var here := PlaceOf(f, locations);
      In(here.space, Some(here.tab), Some(here.pane))
    else Manual
  }

  ghost predicate WellNamed(forwards: seq<Forward>, locations: Locations) {
    forall i :: 0 <= i < |forwards| && forwards[i].automatic ==>
      var here := PlaceOf(forwards[i], locations); here.space != "" && here.tab != "" && here.pane != ""
  }

  lemma ReadOne(lines: seq<Line>, line: Line)
    ensures Reading(lines + [line]) == Below(Reading(lines), line)
  {
    assert (lines + [line])[..|lines|] == lines;
  }

  /** Reading the headings of an entry leads to its place. */
  lemma ReadHeadings(lines: seq<Line>, previous: Place, here: Place)
    requires here.space != "" && here.tab != "" && here.pane != ""
    requires previous == NOWHERE || Reading(lines) == In(previous.space, Some(previous.tab), Some(previous.pane))
    ensures Reading(lines + Headings(previous, here)) == In(here.space, Some(here.tab), Some(here.pane))
  {
    hide Reading;
    var space, tab := SpaceHeading(here.space), TabHeading(here.space, here.tab);
    var pane := PaneHeading(here.space, here.tab, here.pane);
    if here.space != previous.space {
      ReadOne(lines, space);
      ReadOne(lines + [space], tab);
      ReadOne(lines + [space] + [tab], pane);
      assert lines + Headings(previous, here) == lines + [space] + [tab] + [pane];
    } else if here.tab != previous.tab {
      ReadOne(lines, tab);
      ReadOne(lines + [tab], pane);
      assert lines + Headings(previous, here) == lines + [tab] + [pane];
    } else if here.pane != previous.pane {
      ReadOne(lines, pane);
      assert lines + Headings(previous, here) == lines + [pane];
    } else {
      assert lines + Headings(previous, here) == lines;
    }
  }

  lemma ReadEntry(lines: seq<Line>, i: nat)
    ensures Reading(lines + [ForwardLine(i, false)]) == Reading(lines)
    ensures Reading(lines + EntryLines(i)) == Reading(lines)
  {
    hide Reading;
    ReadOne(lines, ForwardLine(i, false));
    ReadOne(lines + [ForwardLine(i, false)], ForwardLine(i, true));
    assert lines + EntryLines(i) == lines + [ForwardLine(i, false)] + [ForwardLine(i, true)];
  }

  /** Before its own lines, the headings say where an entry belongs. */
  lemma {:induction false} ReadAbove(forwards: seq<Forward>, locations: Locations, order: seq<nat>, p: nat)
    requires IsOrder(forwards, locations, order) && WellNamed(forwards, locations) && p < |order|
    ensures Reading(Tree(forwards, locations, order, p) + HeadingsAt(forwards, locations, order, p)) ==
            ContextOf(forwards[order[p]], locations)
    ensures Reading(Tree(forwards, locations, order, p + 1)) == ContextOf(forwards[order[p]], locations)
  {
    hide Reading, KeyAtMost, KeyOf, LocationOf, Headings, EntryLines;
    var lines := Tree(forwards, locations, order, p);
    if p > 0 {
      ReadAbove(forwards, locations, order, p - 1);
    }
    ReadHeadingsAt(forwards, locations, order, p);
    var above := lines + HeadingsAt(forwards, locations, order, p);
    assert Tree(forwards, locations, order, p + 1) == above + EntryLines(order[p]);
    ReadEntry(above, order[p]);
  }

  lemma ReadHeadingsAt(forwards: seq<Forward>, locations: Locations, order: seq<nat>, p: nat)
    requires IsOrder(forwards, locations, order) && WellNamed(forwards, locations) && p < |order|
    requires p > 0 ==> Reading(Tree(forwards, locations, order, p)) == ContextOf(forwards[order[p - 1]], locations)
    ensures Reading(Tree(forwards, locations, order, p) + HeadingsAt(forwards, locations, order, p)) ==
            ContextOf(forwards[order[p]], locations)
  {
    hide Reading, KeyAtMost, KeyOf, LocationOf, Headings, Tree;
    var f, lines := forwards[order[p]], Tree(forwards, locations, order, p);
    if f.automatic {
      if p > 0 { AutomaticFirst(forwards, locations, order, p - 1); }
      ReadHeadings(lines, PlaceBefore(forwards, locations, order, p), PlaceOf(f, locations));
    } else if p > 0 && !forwards[order[p - 1]].automatic {
      assert lines + [] == lines;
    } else {
      ReadManual(lines, p > 0);
    }
  }

  lemma ReadManual(lines: seq<Line>, blank: bool)
    ensures Reading(lines + ((if blank then [Blank] else []) + [ManualHeader])) == Manual
  {
    hide Reading;
    var front := lines + if blank then [Blank] else [];
    ReadOne(front, ManualHeader);
    assert lines + ((if blank then [Blank] else []) + [ManualHeader]) == front + [ManualHeader];
  }

  lemma PlacesAreKnown(f: Forward, locations: Locations)
    ensures ContextOf(f, locations) ==
            if !f.automatic then Manual
            else if f.paneId in locations then
              In(locations[f.paneId].space, Some(locations[f.paneId].tab), Some(f.paneId))
            else In(f.paneId, Some(f.paneId), Some(f.paneId))
  {
  }

  /** Whoever reads the tree from the top knows of each entry where it belongs. */
  lemma EntriesAreUnderTheirHeadings(forwards: seq<Forward>, locations: Locations, order: seq<nat>, q: nat)
    requires IsOrder(forwards, locations, order) && WellNamed(forwards, locations) && q < |order|
    ensures var lines, k := Tree(forwards, locations, order, |order|), RowOf(forwards, locations, order, q);
            0 <= k <= |lines| && Reading(lines[..k]) == ContextOf(forwards[order[q]], locations)
    ensures var f := forwards[order[q]];
            ContextOf(f, locations) ==
            if !f.automatic then Manual
            else if f.paneId in locations then
              In(locations[f.paneId].space, Some(locations[f.paneId].tab), Some(f.paneId))
            else In(f.paneId, Some(f.paneId), Some(f.paneId))
  {
    hide Reading, KeyAtMost, KeyOf, ContextOf, HeadingsAt, WellNamed, PlaceOf;
    PlacesAreKnown(forwards[order[q]], locations);
    var lines, k := Tree(forwards, locations, order, |order|), RowOf(forwards, locations, order, q);
    TreeGrows(forwards, locations, order, q + 1, |order|);
    ReadAbove(forwards, locations, order, q);
    assert lines[..k] == Tree(forwards, locations, order, q) + HeadingsAt(forwards, locations, order, q);
  }

  // ---------------------------------------------------------------------------
  // Every heading once
  // ---------------------------------------------------------------------------

  /** Equal ids come with equal numbers. */
  ghost predicate NumbersAgree(forwards: seq<Forward>, locations: Locations) {
    forall i, j :: 0 <= i < |forwards| && 0 <= j < |forwards| && forwards[i].automatic && forwards[j].automatic ==>
      var a, b := LocationOf(forwards[i], locations), LocationOf(forwards[j], locations);
      a.space == b.space ==> a.spaceNumber == b.spaceNumber && (a.tab == b.tab ==> a.tabNumber == b.tabNumber)
  }

  /** What lies between two keys of one space is in that space; likewise for tabs and panes. */
  lemma SandwichedKey(a: Key, b: Key, c: Key)
    requires KeyAtMost(a, b) && KeyAtMost(b, c) && a.group == c.group
    requires a.space == c.space && a.spaceNumber == c.spaceNumber
    ensures b.group == a.group && b.space == a.space && b.spaceNumber == a.spaceNumber
    ensures a.tab == c.tab && a.tabNumber == c.tabNumber ==> b.tab == a.tab && b.tabNumber == a.tabNumber
    ensures a.tab == c.tab && a.tabNumber == c.tabNumber && a.last == c.last ==> b.last == a.last
  {
    hide TextLess;
    TextOrder(a.space, b.space, a.space);
    TextOrder(a.tab, b.tab, a.tab);
    TextOrder(a.last, b.last, a.last);
    TextOrder(b.space, a.space, b.space);
    TextOrder(b.tab, a.tab, b.tab);
    TextOrder(b.last, a.last, b.last);
  }

  lemma Contiguous(forwards: seq<Forward>, locations: Locations, order: seq<nat>, p: nat, q: nat)
    requires IsOrder(forwards, locations, order) && NumbersAgree(forwards, locations) && p < q < |order|
    requires forwards[order[p]].automatic && forwards[order[q]].automatic
    ensures forwards[order[q - 1]].automatic
    ensures var a, b, c := PlaceOf(forwards[order[p]], locations), PlaceOf(forwards[order[q - 1]], locations),
              PlaceOf(forwards[order[q]], locations);
            a.space == c.space ==>
              && b.space == a.space
              && (a.tab == c.tab ==> b.tab == a.tab && (a.pane == c.pane ==> b.pane == a.pane))
  {
    hide KeyAtMost, LocationOf;
    AutomaticFirst(forwards, locations, order, q - 1);
    var a, b, c := KeyOf(forwards[order[p]], locations), KeyOf(forwards[order[q - 1]], locations),
          KeyOf(forwards[order[q]], locations);
    KeyIsReflexive(a);
    assert KeyAtMost(a, b) && KeyAtMost(b, c);
    if a.space == c.space {
      SandwichedKey(a, b, c);
    }
  }

  ghost predicate IsHeading(line: Line) { line.SpaceHeading? || line.TabHeading? || line.PaneHeading? }

  /** The heading is that of the place, and the place before is not below it. */
  ghost predicate Heads(line: Line, previous: Place, here: Place) {
    match line
    case SpaceHeading(space) => space == here.space && previous.space != here.space
    case TabHeading(space, tab) =>
      space == here.space && tab == here.tab && (previous.space != here.space || previous.tab != here.tab)
    case PaneHeading(space, tab, pane) =>
      && space == here.space && tab == here.tab && pane == here.pane
      && (previous.space != here.space || previous.tab != here.tab || previous.pane != here.pane)
    case _ => false
  }

  lemma HeadingInBlock(forwards: seq<Forward>, locations: Locations, order: seq<nat>, p: nat, at: nat)
    requires p < |order| && InRange(forwards, order)
    requires at < |Block(forwards, locations, order, p)| && IsHeading(Block(forwards, locations, order, p)[at])
    ensures forwards[order[p]].automatic
    ensures Heads(Block(forwards, locations, order, p)[at], PlaceBefore(forwards, locations, order, p),
              PlaceOf(forwards[order[p]], locations))
    ensures var block := Block(forwards, locations, order, p);
            forall other :: 0 <= other < |block| && other != at ==> block[other] != block[at]
  {
    hide LocationOf, PlaceBefore;
  }

  /** With numbers determined by ids, no heading is drawn twice. */
  lemma HeadingsAreUnique(forwards: seq<Forward>, locations: Locations, order: seq<nat>, j: nat, k: nat)
    requires IsOrder(forwards, locations, order) && NumbersAgree(forwards, locations)
    requires var lines := Tree(forwards, locations, order, |order|);
             j < k < |lines| && IsHeading(lines[j])
    ensures Tree(forwards, locations, order, |order|)[j] != Tree(forwards, locations, order, |order|)[k]
  {
    hide Block, KeyAtMost, KeyOf, LocationOf, NumbersAgree;
    var lines := Tree(forwards, locations, order, |order|);
    if lines[j] == lines[k] {
      var p := BlockOfLine(forwards, locations, order, |order|, j);
      var q := BlockOfLine(forwards, locations, order, |order|, k);
      HeadingInBlock(forwards, locations, order, p, j - |Tree(forwards, locations, order, p)|);
      HeadingInBlock(forwards, locations, order, q, k - |Tree(forwards, locations, order, q)|);
      if q < p { TreeGrows(forwards, locations, order, q + 1, p); }
      if p < q {
        Contiguous(forwards, locations, order, p, q);
      }
    }
  }

  /** Each automatic entry has its three headings somewhere above it. */
  lemma {:induction false} HeadingsArePresent(forwards: seq<Forward>, locations: Locations, order: seq<nat>, p: nat)
    requires IsOrder(forwards, locations, order) && WellNamed(forwards, locations) && p < |order|
    requires forwards[order[p]].automatic
    ensures var here, lines := PlaceOf(forwards[order[p]], locations), Tree(forwards, locations, order, p + 1);
            && SpaceHeading(here.space) in lines && TabHeading(here.space, here.tab) in lines
            && PaneHeading(here.space, here.tab, here.pane) in lines
  {
    hide KeyAtMost, KeyOf, LocationOf, EntryLines;
    var here, previous := PlaceOf(forwards[order[p]], locations), PlaceBefore(forwards, locations, order, p);
    if p > 0 {
      AutomaticFirst(forwards, locations, order, p - 1);
      HeadingsArePresent(forwards, locations, order, p - 1);
    }
    var lines, headings := Tree(forwards, locations, order, p), Headings(previous, here);
    assert Tree(forwards, locations, order, p + 1) == lines + (headings + EntryLines(order[p]));
    HeadingsEmitted(previous, here);
    InEither(lines, headings, EntryLines(order[p]));
  }

  lemma HeadingsEmitted(previous: Place, here: Place)
    requires here.space != "" && here.tab != "" && here.pane != ""
    ensures var headings := Headings(previous, here);
            && (previous.space != here.space ==> SpaceHeading(here.space) in headings)
            && (previous.space != here.space || previous.tab != here.tab ==>
                 TabHeading(here.space, here.tab) in headings)
            && (previous != here ==> PaneHeading(here.space, here.tab, here.pane) in headings)
  {
  }

  lemma InEither(a: seq<Line>, b: seq<Line>, c: seq<Line>)
    ensures forall line :: line in a || line in b ==> line in a + (b + c)
  {
  }

  // ---------------------------------------------------------------------------
  // The window and the mouse
  // ---------------------------------------------------------------------------

  lemma FirstLineIs(lines: seq<Line>, i: nat, k: nat)
    requires k < |lines| && lines[k] == ForwardLine(i, false)
    requires forall j :: 0 <= j < k ==> !(lines[j].ForwardLine? && lines[j].index == i)
    ensures SelectedLine(lines, i) == k
    decreases k
  {
    if k > 0 {
      assert lines[1..][k - 1] == lines[k];
      assert forall j :: 0 <= j < k - 1 ==> lines[1..][j] == lines[j + 1];
      FirstLineIs(lines[1..], i, k - 1);
    }
  }

  /** With two rows or more, both lines of the selected entry are in the window, which
      is as long as the screen and the tree allow. */
  lemma SelectedIsVisible(forwards: seq<Forward>, locations: Locations, selected: nat, visible: nat)
    requires selected < |forwards| && visible >= 2
    ensures var lines := Tree(forwards, locations, Shown(forwards, locations), |forwards|);
            var (start, end) := ScrollWindow(|lines|, SelectedLine(lines, selected), visible);
            var k := SelectedLine(lines, selected);
            && start <= k && k + 1 < end <= |lines| && end - start == (if visible < |lines| then visible else |lines|)
            && (start == 0 || end == k + 2)
            && lines[k] == ForwardLine(selected, false) && lines[k + 1] == ForwardLine(selected, true)
  {
    hide Tree, KeyAtMost, KeyOf, Order;
    var order := Shown(forwards, locations);
    assert selected in order;
    var q :| 0 <= q < |order| && order[q] == selected;
    TwoLinesEach(forwards, locations, order, q);
    FirstLineIs(Tree(forwards, locations, order, |order|), selected, RowOf(forwards, locations, order, q));
  }

  /** The line that is drawn on a screen row, if any: the window is drawn from row 3 on. */
  function DrawnAt(forwards: seq<Forward>, locations: Locations, selected: nat, height: nat, row: nat): Option<Line> {
    var lines := Tree(forwards, locations, Shown(forwards, locations), |forwards|);
    var (start, end) := ScrollWindow(|lines|, SelectedLine(lines, selected), Minus(height, 5));
    if row < 3 || start + (row - 3) >= end then None else Some(lines[start + (row - 3)])
  }

  /** A click means the entry drawn on that row: its index, or nothing on a heading, on
      the frame, or below the tree. */
  lemma ClicksMeanWhatIsDrawn(forwards: seq<Forward>, locations: Locations, selected: nat, height: nat, row: nat)
    ensures ForwardIndexAt(row, height, selected, forwards, locations) ==
            match DrawnAt(forwards, locations, selected, height, row)
            case None => None
            case Some(line) => if line.ForwardLine? then Some(line.index) else None
    ensures forall index :: ForwardIndexAt(row, height, selected, forwards, locations) == Some(index) ==>
              index < |forwards|
  {
    hide KeyAtMost, KeyOf, Order, Block;
    var order := Shown(forwards, locations);
    var lines := Tree(forwards, locations, order, |forwards|);
    if ForwardIndexAt(row, height, selected, forwards, locations).Some? {
      var line := DrawnAt(forwards, locations, selected, height, row).value;
      var k :| 0 <= k < |lines| && lines[k] == line;
      var p := BlockOfLine(forwards, locations, order, |order|, k);
      BlockEnds(forwards, locations, order, p);
      var block := Block(forwards, locations, order, p);
      assert block[|block| - 2] == EntryLines(order[p])[0] && block[|block| - 1] == EntryLines(order[p])[1];
    }
  }
}

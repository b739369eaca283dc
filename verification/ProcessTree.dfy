/** The bounded search for the processes under a pane
    (`process_tree_ids_from_parent_map` in src/bin/plugin/herdr.rs). */
module ProcessTree {
  import Sorting

  const MAX_PROCESS_TREE_NODES := 512
  const MAX_PROCESS_TREE_DEPTH := 8

  /** A process and its parent, as `ps` lists them. */
  type Row = (nat, nat)

  // ---------------------------------------------------------------------------
  // What is searched for
  // ---------------------------------------------------------------------------

  /** The process is at most `d` steps below one of the roots. */
  ghost predicate Within(roots: seq<nat>, rows: seq<Row>, id: nat, d: nat)
    decreases d, 1
  {
    if d == 0 then id in roots
    else Within(roots, rows, id, d - 1) || Below(roots, rows, id, d)
  }

  /** One of its parents is a step nearer. */
  ghost predicate Below(roots: seq<nat>, rows: seq<Row>, id: nat, d: nat)
    requires d > 0
    decreases d, 0
  {
    exists parent :: (id, parent) in rows && Within(roots, rows, parent, d - 1)
  }

  lemma {:induction false} WithinMore(roots: seq<nat>, rows: seq<Row>, id: nat, d: nat, e: nat)
    requires Within(roots, rows, id, d) && d <= e
    ensures Within(roots, rows, id, e)
    decreases e
  {
    if d < e {
      WithinMore(roots, rows, id, d, e - 1);
    }
  }

  // ---------------------------------------------------------------------------
  // Level by level, without a cap
  // ---------------------------------------------------------------------------

  predicate AtMost(a: nat, b: nat) { a <= b }

  /** The children of a process, in the order of the rows. */
  function Listed(rows: seq<Row>, parent: nat): seq<nat> {
    if rows == [] then []
    else
      var n := |rows| - 1;
      Listed(rows[..n], parent) + if rows[n].1 == parent then [rows[n].0] else []
  }

  function Children(rows: seq<Row>, parent: nat): seq<nat> { Sorting.StableSort(Listed(rows, parent), AtMost) }

  function Candidates(rows: seq<Row>, level: seq<nat>): seq<nat> {
    if level == [] then [] else Candidates(rows, level[..|level| - 1]) + Children(rows, level[|level| - 1])
  }

  /** The first occurrences of what is not known yet. */
  function Fresh(ids: seq<nat>, known: seq<nat>): seq<nat> {
    if ids == [] then []
    else
      var front, last := Fresh(ids[..|ids| - 1], known), ids[|ids| - 1];
      if last in known || last in front then front else front + [last]
  }

  /** The n-th level, and everything up to it. */
  function Level(roots: seq<nat>, rows: seq<Row>, n: nat): seq<nat>
    decreases n, 0
  {
    if n == 0 then Fresh(roots, [])
    else Fresh(Candidates(rows, Level(roots, rows, n - 1)), UpTo(roots, rows, n - 1))
  }

  function UpTo(roots: seq<nat>, rows: seq<Row>, n: nat): seq<nat>
    decreases n, 1
  {
    if n == 0 then Level(roots, rows, 0) else UpTo(roots, rows, n - 1) + Level(roots, rows, n)
  }

  function Depth(depth: nat): nat { if depth < MAX_PROCESS_TREE_DEPTH then depth else MAX_PROCESS_TREE_DEPTH }

  /** The whole search. */
  function Uncapped(roots: seq<nat>, rows: seq<Row>, depth: nat): seq<nat> { UpTo(roots, rows, Depth(depth)) }

  // ---------------------------------------------------------------------------
  // The levels are the spheres around the roots
  // ---------------------------------------------------------------------------

  lemma {:induction false} ListedIs(rows: seq<Row>, parent: nat, id: nat)
    ensures id in Listed(rows, parent) <==> (id, parent) in rows
  {
    if rows != [] {
      ListedIs(rows[..|rows| - 1], parent, id);
      assert rows == rows[..|rows| - 1] + [rows[|rows| - 1]];
    }
  }

  lemma ChildrenAre(rows: seq<Row>, parent: nat, id: nat)
    ensures id in Children(rows, parent) <==> (id, parent) in rows
  {
    ListedIs(rows, parent, id);
    SameElements(Listed(rows, parent), Children(rows, parent), id);
  }

  lemma SameElements(a: seq<nat>, b: seq<nat>, id: nat)
    requires multiset(a) == multiset(b)
    ensures id in a <==> id in b
  {
    assert id in a <==> id in multiset(a);
    assert id in b <==> id in multiset(b);
  }

  lemma {:induction false} CandidatesAre(rows: seq<Row>, level: seq<nat>, id: nat)
    ensures id in Candidates(rows, level) <==> exists parent :: parent in level && (id, parent) in rows
  {
    hide Children;
    if level != [] {
      var n := |level| - 1;
      CandidatesAre(rows, level[..n], id);
      ChildrenAre(rows, level[n], id);
      assert level == level[..n] + [level[n]];
    }
  }

  ghost predicate NoRepeats(ids: seq<nat>) { forall i, j :: 0 <= i < j < |ids| ==> ids[i] != ids[j] }

  lemma {:induction false} FreshIs(ids: seq<nat>, known: seq<nat>)
    ensures forall id :: id in Fresh(ids, known) <==> id in ids && id !in known
    ensures NoRepeats(Fresh(ids, known))
  {
    if ids != [] {
      FreshIs(ids[..|ids| - 1], known);
      assert ids == ids[..|ids| - 1] + [ids[|ids| - 1]];
    }
  }

  lemma JoinNoRepeats(a: seq<nat>, b: seq<nat>)
    requires NoRepeats(a) && NoRepeats(b) && forall id :: id in b ==> id !in a
    ensures NoRepeats(a + b)
  {
    forall i, j | 0 <= i < j < |a + b|
      ensures (a + b)[i] != (a + b)[j]
    {
      if i < |a| <= j {
        assert a[i] in a && b[j - |a|] in b;
      }
    }
  }

  /** The first levels hold exactly what is near enough, and the last of them what is
      no nearer. */
  lemma {:induction false} LevelsAreSpheres(roots: seq<nat>, rows: seq<Row>, n: nat)
    ensures forall id :: id in UpTo(roots, rows, n) <==> Within(roots, rows, id, n)
    ensures forall id :: id in Level(roots, rows, n) <==>
              Within(roots, rows, id, n) && (n == 0 || !Within(roots, rows, id, n - 1))
    ensures NoRepeats(UpTo(roots, rows, n))
  {
    hide Candidates, Fresh, Below;
    if n == 0 {
      FreshIs(roots, []);
    } else {
      LevelsAreSpheres(roots, rows, n - 1);
      var before, level := UpTo(roots, rows, n - 1), Level(roots, rows, n - 1);
      FreshIs(Candidates(rows, level), before);
      JoinNoRepeats(before, Level(roots, rows, n));
      forall id
        ensures id in Level(roots, rows, n) <==> Within(roots, rows, id, n) && !Within(roots, rows, id, n - 1)
      {
        NextSphere(roots, rows, n, id, level);
      }
    }
  }

  lemma NextSphere(roots: seq<nat>, rows: seq<Row>, n: nat, id: nat, level: seq<nat>)
    requires n > 0
    requires forall p :: p in level <==> Within(roots, rows, p, n - 1) && (n == 1 || !Within(roots, rows, p, n - 2))
    ensures !Within(roots, rows, id, n - 1) ==> (id in Candidates(rows, level) <==> Within(roots, rows, id, n))
  {
    hide Candidates;
    CandidatesAre(rows, level, id);
    if !Within(roots, rows, id, n - 1) && Below(roots, rows, id, n) {
      var parent :| (id, parent) in rows && Within(roots, rows, parent, n - 1);
      if n > 1 {
        assert !Below(roots, rows, id, n - 1);
      }
      assert parent in level;
    }
  }

  /** Nearer processes come first. */
  lemma {:induction false} NearerFirst(roots: seq<nat>, rows: seq<Row>, n: nat, i: nat, j: nat, d: nat)
    requires i <= j < |UpTo(roots, rows, n)| && Within(roots, rows, UpTo(roots, rows, n)[j], d)
    ensures Within(roots, rows, UpTo(roots, rows, n)[i], d)
  {
    hide Within, Level;
    LevelsAreSpheres(roots, rows, n);
    var all := UpTo(roots, rows, n);
    assert all[i] in all;
    if n <= d {
      WithinMore(roots, rows, all[i], n, d);
    } else {
      LevelsAreSpheres(roots, rows, n - 1);
      var before := UpTo(roots, rows, n - 1);
      if j < |before| {
        NearerFirst(roots, rows, n - 1, i, j, d);
      } else {
        assert all[j] in Level(roots, rows, n);
        WithinMore(roots, rows, all[j], d, n - 1);
      }
    }
  }

  // ---------------------------------------------------------------------------
  // The search with its queue and its cap
  // ---------------------------------------------------------------------------

  lemma {:induction false} UpToGrows(roots: seq<nat>, rows: seq<Row>, n: nat, m: nat)
    requires n <= m
    ensures UpTo(roots, rows, n) <= UpTo(roots, rows, m)
    decreases m
  {
    if n < m {
      UpToGrows(roots, rows, n, m - 1);
    }
  }

  lemma {:induction false} FreshGrows(ids: seq<nat>, more: seq<nat>, known: seq<nat>)
    ensures Fresh(ids, known) <= Fresh(ids + more, known)
    decreases |more|
  {
    if more == [] {
      assert ids + more == ids;
    } else {
      var n := |more| - 1;
      FreshGrows(ids, more[..n], known);
      assert (ids + more)[..|ids| + n] == ids + more[..n];
    }
  }

  lemma {:induction false} CandidatesGrow(rows: seq<Row>, level: seq<nat>, i: nat)
    requires i <= |level|
    ensures Candidates(rows, level[..i]) <= Candidates(rows, level)
    decreases |level|
  {
    hide Children;
    if i < |level| {
      var n := |level| - 1;
      assert level[..n][..i] == level[..i];
      CandidatesGrow(rows, level[..n], i);
    } else {
      assert level[..i] == level;
    }
  }

  /** What the queue holds: the rest of one level and the beginning of the next. */
  function Queued(level: seq<nat>, depth: nat): seq<(nat, nat)> {
    seq(|level|, i requires 0 <= i < |level| => (level[i], depth))
  }

  /** While the cap is not reached: `i` processes of level `k` are done, and the
      children found so far are those of the first `taken` candidates. */
  ghost predicate Searching(roots: seq<nat>, rows: seq<Row>, deepest: nat, k: nat, i: nat, taken: seq<nat>,
                            output: seq<nat>, pending: seq<(nat, nat)>)
  {
    && k <= deepest && i <= |Level(roots, rows, k)| && (k == deepest ==> taken == [])
    && taken <= Candidates(rows, Level(roots, rows, k))
    && output == UpTo(roots, rows, k) + Fresh(taken, UpTo(roots, rows, k))
    && pending == Queued(Level(roots, rows, k)[i..], k) + Queued(Fresh(taken, UpTo(roots, rows, k)), k + 1)
  }

  /** All that has been found is the beginning of the whole search. */
  lemma FoundIsPrefix(roots: seq<nat>, rows: seq<Row>, deepest: nat, k: nat, taken: seq<nat>)
    requires k <= deepest && (k == deepest ==> taken == []) && taken <= Candidates(rows, Level(roots, rows, k))
    ensures UpTo(roots, rows, k) + Fresh(taken, UpTo(roots, rows, k)) <= UpTo(roots, rows, deepest)
  {
    hide Candidates, Level;
    if k == deepest {
    } else {
      var all := Candidates(rows, Level(roots, rows, k));
      assert all == taken + all[|taken|..];
      FreshGrows(taken, all[|taken|..], UpTo(roots, rows, k));
      NextLevel(roots, rows, k);
      UpToGrows(roots, rows, k + 1, deepest);
    }
  }

  lemma NextLevel(roots: seq<nat>, rows: seq<Row>, k: nat)
    ensures Level(roots, rows, k + 1) == Fresh(Candidates(rows, Level(roots, rows, k)), UpTo(roots, rows, k))
    ensures UpTo(roots, rows, k + 1) == UpTo(roots, rows, k) + Level(roots, rows, k + 1)
  {
  }

  /** The first cap-many of a sequence. */
  function Take(ids: seq<nat>): seq<nat> {
    if |ids| <= MAX_PROCESS_TREE_NODES then ids else ids[..MAX_PROCESS_TREE_NODES]
  }

  lemma QueuedPushed(level: seq<nat>, id: nat, depth: nat)
    ensures Queued(level + [id], depth) == Queued(level, depth) + [(id, depth)]
  {
  }

  lemma FreshOneMore(ids: seq<nat>, id: nat, known: seq<nat>)
    ensures Fresh(ids + [id], known) ==
            if id in known || id in Fresh(ids, known) then Fresh(ids, known) else Fresh(ids, known) + [id]
  {
    assert (ids + [id])[..|ids|] == ids;
  }

  /** One candidate more. */
  lemma SearchOneMore(roots: seq<nat>, rows: seq<Row>, deepest: nat, k: nat, i: nat, taken: seq<nat>, child: nat,
                      output: seq<nat>, pending: seq<(nat, nat)>)
    requires Searching(roots, rows, deepest, k, i, taken, output, pending) && k < deepest
    requires taken + [child] <= Candidates(rows, Level(roots, rows, k))
    ensures if child in output then Searching(roots, rows, deepest, k, i, taken + [child], output, pending)
            else Searching(roots, rows, deepest, k, i, taken + [child], output + [child], pending + [(child, k + 1)])
  {
    hide Level, UpTo, Candidates, Fresh, Queued;
    var known := UpTo(roots, rows, k);
    FreshOneMore(taken, child, known);
    QueuedPushed(Fresh(taken, known), child, k + 1);
  }

  /** Between two processes of the queue. */
  ghost predicate Between(roots: seq<nat>, rows: seq<Row>, deepest: nat, k: nat, i: nat, output: seq<nat>,
                          pending: seq<(nat, nat)>) {
    && i <= |Level(roots, rows, k)|
    && Searching(roots, rows, deepest, k, i,
                 if k == deepest then [] else Candidates(rows, Level(roots, rows, k)[..i]), output, pending)
  }

  lemma SearchBegins(roots: seq<nat>, rows: seq<Row>, deepest: nat)
    ensures Between(roots, rows, deepest, 0, 0, Fresh(roots, []), Queued(Fresh(roots, []), 0))
  {
    var level := Level(roots, rows, 0);
    assert level == Fresh(roots, []) && level[0..] == level && level[..0] == [];
    assert Candidates(rows, []) == [] && Fresh([], level) == [];
    assert Queued(level, 0) + Queued([], 1) == Queued(level, 0);
  }

  /** The level is done: on to the next. */
  lemma LevelDone(roots: seq<nat>, rows: seq<Row>, deepest: nat, k: nat, output: seq<nat>, pending: seq<(nat, nat)>)
    requires Between(roots, rows, deepest, k, |Level(roots, rows, k)|, output, pending) && pending != []
    ensures k < deepest && Between(roots, rows, deepest, k + 1, 0, output, pending)
  {
    hide UpTo, Level;
    var level := Level(roots, rows, k);
    assert level[|level|..] == [] && level[..|level|] == level;
    NextLevel(roots, rows, k);
    assert Fresh([], UpTo(roots, rows, k)) == [];
    assert k < deepest;
    var next := Level(roots, rows, k + 1);
    assert next[0..] == next && next[..0] == [];
    assert Candidates(rows, []) == [] && Fresh([], UpTo(roots, rows, k + 1)) == [];
    assert Queued(next, k + 1) + Queued([], k + 2) == Queued(next, k + 1) == Queued([], k) + Queued(next, k + 1);
  }

  /** Taking the next process off the queue. */
  lemma Popped(roots: seq<nat>, rows: seq<Row>, deepest: nat, k: nat, i: nat, output: seq<nat>,
               pending: seq<(nat, nat)>)
    requires Between(roots, rows, deepest, k, i, output, pending) && i < |Level(roots, rows, k)|
    ensures pending != [] && pending[0] == (Level(roots, rows, k)[i], k)
    ensures Searching(roots, rows, deepest, k, i + 1,
                      if k == deepest then [] else Candidates(rows, Level(roots, rows, k)[..i]), output, pending[1..])
    ensures k == deepest ==> Between(roots, rows, deepest, k, i + 1, output, pending[1..])
  {
    hide UpTo, Level, Candidates, Fresh;
    var level := Level(roots, rows, k);
    assert Queued(level[i..], k)[0] == (level[i], k);
    assert Queued(level[i..], k)[1..] == Queued(level[i + 1..], k);
  }

  lemma ChildrenTaken(rows: seq<Row>, level: seq<nat>, i: nat, c: nat)
    requires i < |level| && c <= |Children(rows, level[i])|
    ensures Candidates(rows, level[..i + 1]) == Candidates(rows, level[..i]) + Children(rows, level[i])
    ensures Candidates(rows, level[..i]) + Children(rows, level[i])[..c] <= Candidates(rows, level)
  {
    hide Children;
    assert level[..i + 1][..i] == level[..i];
    CandidatesGrow(rows, level, i + 1);
  }

  lemma OutputIsPrefix(roots: seq<nat>, rows: seq<Row>, deepest: nat, k: nat, i: nat, taken: seq<nat>,
                       output: seq<nat>, pending: seq<(nat, nat)>)
    requires Searching(roots, rows, deepest, k, i, taken, output, pending)
    ensures output <= UpTo(roots, rows, deepest)
  {
    hide Level, UpTo, Candidates, Fresh, Queued;
    FoundIsPrefix(roots, rows, deepest, k, taken);
  }

  /** With an empty queue, everything within reach has been found. */
  lemma SearchEnds(roots: seq<nat>, rows: seq<Row>, deepest: nat, k: nat, i: nat, output: seq<nat>)
    requires Between(roots, rows, deepest, k, i, output, [])
    ensures output == UpTo(roots, rows, deepest)
  {
    hide UpTo, Level;
    var level := Level(roots, rows, k);
    assert i == |level|;
    assert level[..i] == level;
    if k < deepest {
      NextLevel(roots, rows, k);
      NothingBeyond(roots, rows, k + 1, deepest);
    }
  }

  lemma {:induction false} NothingBeyond(roots: seq<nat>, rows: seq<Row>, n: nat, m: nat)
    requires n <= m && Level(roots, rows, n) == []
    ensures UpTo(roots, rows, m) == UpTo(roots, rows, n) && Level(roots, rows, m) == []
    decreases m
  {
    hide UpTo, Level;
    if n < m {
      NothingBeyond(roots, rows, n, m - 1);
      NextLevel(roots, rows, m - 1);
    }
  }

  ghost predicate Groups(table: map<nat, seq<nat>>, rows: seq<Row>) {
    forall p :: (if p in table then table[p] else []) == Listed(rows, p)
  }

  lemma GroupsOneMore(table: map<nat, seq<nat>>, rows: seq<Row>, id: nat, parent: nat)
    requires Groups(table, rows)
    ensures Groups(table[parent := (if parent in table then table[parent] else []) + [id]], rows + [(id, parent)])
  {
    var more := rows + [(id, parent)];
    assert more[..|rows|] == rows;
    forall p
      ensures Listed(more, p) == Listed(rows, p) + if parent == p then [id] else []
    {
    }
  }

  /** The table of children: one list per parent, sorted. */
  method ChildrenByParent(rows: seq<Row>) returns (children: map<nat, seq<nat>>)
    ensures forall p :: (if p in children then children[p] else []) == Children(rows, p)
  {
    hide Groups, Listed, Sorting.StableSort;
    var table: map<nat, seq<nat>> := map[];
    NoGroups();
    for n := 0 to |rows|
      invariant Groups(table, rows[..n])
    {
      var (id, parent) := rows[n];
      assert rows[..n + 1] == rows[..n] + [(id, parent)];
      GroupsOneMore(table, rows[..n], id, parent);
      table := table[parent := (if parent in table then table[parent] else []) + [id]];
    }
    assert rows[..|rows|] == rows;
    children := map p | p in table :: Sorting.StableSort(table[p], AtMost);
    forall p
      ensures (if p in children then children[p] else []) == Children(rows, p)
    {
      GroupedChildren(table, rows, p);
    }
  }

  lemma NoGroups()
    ensures Groups(map[], [])
  {
  }

  lemma GroupedChildren(table: map<nat, seq<nat>>, rows: seq<Row>, p: nat)
    requires Groups(table, rows)
    ensures Children(rows, p) == if p in table then Sorting.StableSort(table[p], AtMost) else []
  {
    assert p !in table ==> Listed(rows, p) == [];
  }

  method Roots(roots: seq<nat>) returns (output: seq<nat>, pending: seq<(nat, nat)>)
    ensures |output| <= MAX_PROCESS_TREE_NODES && output <= Fresh(roots, [])
    ensures |output| < MAX_PROCESS_TREE_NODES ==> output == Fresh(roots, [])
    ensures pending == Queued(output, 0)
  {
    output, pending := [], [];
    var n := 0;
    while n < |roots| && |output| < MAX_PROCESS_TREE_NODES
      invariant 0 <= n <= |roots| && |output| <= MAX_PROCESS_TREE_NODES
      invariant output == Fresh(roots[..n], []) && pending == Queued(output, 0)
    {
      assert roots[..n + 1] == roots[..n] + [roots[n]];
      FreshOneMore(roots[..n], roots[n], []);
      QueuedPushed(output, roots[n], 0);
      if roots[n] !in output {
        output := output + [roots[n]];
        pending := pending + [(roots[n], 0)];
      }
      n := n + 1;
    }
    FreshGrows(roots[..n], roots[n..], []);
    assert n == |roots| ==> roots[..n] == roots;
    assert roots[..n] + roots[n..] == roots;
  }

  /** The children of one process. */
  method Expand(ghost roots: seq<nat>, ghost rows: seq<Row>, ghost deepest: nat, ghost k: nat, ghost i: nat,
                kids: seq<nat>, depth: nat, found: seq<nat>, queue: seq<(nat, nat)>)
    returns (output: seq<nat>, pending: seq<(nat, nat)>)
    requires |found| <= MAX_PROCESS_TREE_NODES
    requires |found| < MAX_PROCESS_TREE_NODES ==>
               && k < deepest && depth == k && i < |Level(roots, rows, k)| && kids == Children(rows, Level(roots,
                    rows, k)[i])
               && Searching(roots, rows, deepest, k, i + 1, Candidates(rows, Level(roots, rows, k)[..i]), found, queue)
    requires |found| == MAX_PROCESS_TREE_NODES ==> found <= UpTo(roots, rows, deepest)
    ensures |output| <= MAX_PROCESS_TREE_NODES && |found| <= |output|
    ensures |output| == |found| ==> |pending| == |queue|
    ensures |output| < MAX_PROCESS_TREE_NODES ==> Between(roots, rows, deepest, k, i + 1, output, pending)
    ensures |output| == MAX_PROCESS_TREE_NODES ==> output <= UpTo(roots, rows, deepest)
  {
    hide Level, UpTo, Children, Fresh, Candidates, Searching, Queued;
    output, pending := found, queue;
    if |found| == MAX_PROCESS_TREE_NODES {
      return;
    }
    ghost var level := Level(roots, rows, k);
    ghost var earlier := Candidates(rows, level[..i]);
    assert earlier + kids[..0] == earlier;
    var c := 0;
    while c < |kids| && |output| < MAX_PROCESS_TREE_NODES
      invariant 0 <= c <= |kids| && |found| <= |output| <= MAX_PROCESS_TREE_NODES
      invariant |output| == |found| ==> |pending| == |queue|
      invariant Searching(roots, rows, deepest, k, i + 1, earlier + kids[..c], output, pending)
    {
      ChildrenTaken(rows, level, i, c + 1);
      assert earlier + kids[..c + 1] == earlier + kids[..c] + [kids[c]];
      SearchOneMore(roots, rows, deepest, k, i + 1, earlier + kids[..c], kids[c], output, pending);
      if kids[c] !in output {
        output := output + [kids[c]];
        pending := pending + [(kids[c], depth + 1)];
      }
      c := c + 1;
    }
    OutputIsPrefix(roots, rows, deepest, k, i + 1, earlier + kids[..c], output, pending);
    if |output| < MAX_PROCESS_TREE_NODES {
      assert kids[..c] == kids;
      ChildrenTaken(rows, level, i, c);
    }
  }

  /** The search finds the beginning of the uncapped one. */
  method Search(roots: seq<nat>, rows: seq<Row>, depth: nat) returns (output: seq<nat>)
    ensures output == Take(Uncapped(roots, rows, depth))
  {
    hide Level, UpTo, Children, Fresh, Candidates, Searching, Queued, Between;
    var children := ChildrenByParent(rows);
    var deepest := Depth(depth);
    var pending;
    output, pending := Roots(roots);
    ghost var k, i := 0, 0;
    SearchBegins(roots, rows, deepest);
    RootsComeFirst(roots, rows, deepest);
    while pending != []
      invariant |output| <= MAX_PROCESS_TREE_NODES
      invariant |output| < MAX_PROCESS_TREE_NODES ==> Between(roots, rows, deepest, k, i, output, pending)
      invariant |output| == MAX_PROCESS_TREE_NODES ==> output <= UpTo(roots, rows, deepest)
      decreases MAX_PROCESS_TREE_NODES - |output|, |pending|
    {
      ghost var searching := |output| < MAX_PROCESS_TREE_NODES;
      if searching {
        i, k := NextInLevel(roots, rows, deepest, k, i, output, pending);
        Popped(roots, rows, deepest, k, i, output, pending);
      }
      var (id, at) := pending[0];
      pending := pending[1..];
      if at >= deepest {
        i := i + 1;
        continue;
      }
      var kids := if id in children then children[id] else [];
      output, pending := Expand(roots, rows, deepest, k, i, kids, at, output, pending);
      i := i + 1;
    }
    if |output| < MAX_PROCESS_TREE_NODES {
      SearchEnds(roots, rows, deepest, k, i, output);
    }
  }

  lemma RootsComeFirst(roots: seq<nat>, rows: seq<Row>, deepest: nat)
    ensures Fresh(roots, []) <= UpTo(roots, rows, deepest)
  {
    UpToGrows(roots, rows, 0, deepest);
  }

  /** Where the front of the queue is. */
  lemma NextInLevel(roots: seq<nat>, rows: seq<Row>, deepest: nat, k: nat, i: nat, output: seq<nat>,
                    pending: seq<(nat, nat)>)
    returns (i': nat, k': nat)
    requires Between(roots, rows, deepest, k, i, output, pending) && pending != []
    ensures i' < |Level(roots, rows, k')| && k' <= deepest && Between(roots, rows, deepest, k', i', output, pending)
  {
    hide Level, UpTo, Children, Fresh, Candidates, Queued;
    if i < |Level(roots, rows, k)| {
      i', k' := i, k;
    } else {
      LevelDone(roots, rows, deepest, k, output, pending);
      i', k' := 0, k + 1;
      NonEmptyLevel(roots, rows, deepest, k + 1, output, pending);
    }
  }

  lemma NonEmptyLevel(roots: seq<nat>, rows: seq<Row>, deepest: nat, k: nat, output: seq<nat>,
                      pending: seq<(nat, nat)>)
    requires Between(roots, rows, deepest, k, 0, output, pending) && pending != []
    ensures Level(roots, rows, k) != []
  {
    hide Level, UpTo, Children;
    var level := Level(roots, rows, k);
    assert level[..0] == [];
    assert Candidates(rows, []) == [] && Fresh([], UpTo(roots, rows, k)) == [];
  }

  /** The result has no repeats, at most 512 ids, and the nearer ones first; all are
      near enough; and everything near enough is there unless the cap is reached. */
  lemma SearchIsExact(roots: seq<nat>, rows: seq<Row>, depth: nat)
    ensures var output := Take(Uncapped(roots, rows, depth));
            && NoRepeats(output) && |output| <= MAX_PROCESS_TREE_NODES
            && (forall id :: id in output ==> Within(roots, rows, id, Depth(depth)))
            && (|Uncapped(roots, rows, depth)| <= MAX_PROCESS_TREE_NODES ==>
                  forall id :: Within(roots, rows, id, Depth(depth)) ==> id in output)
            && (forall i, j, d: nat :: 0 <= i <= j < |output| && Within(roots, rows, output[j], d) ==>
                  Within(roots, rows, output[i], d))
  {
    hide Within, UpTo;
    LevelsAreSpheres(roots, rows, Depth(depth));
    var all, output := UpTo(roots, rows, Depth(depth)), Take(Uncapped(roots, rows, depth));
    assert output <= all;
    forall id | id in output
      ensures id in all
    {
      var i :| 0 <= i < |output| && output[i] == id;
      assert all[i] == id;
    }
    forall i, j, d: nat | 0 <= i <= j < |output| && Within(roots, rows, output[j], d)
      ensures Within(roots, rows, output[i], d)
    {
      assert output[i] == all[i] && output[j] == all[j];
      NearerFirst(roots, rows, Depth(depth), i, j, d);
    }
  }
}

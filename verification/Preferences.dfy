/** Saved preferences (src/bin/local/companion.rs): the manual rules and the paused
    automatic ports that every companion of one remote session shares. A transaction
    applies only what it changed to what is saved at that moment. */
module Preferences {
  import opened Detect
  import opened RegistrySpec

  datatype ManualForward = ManualForward(remotePort: Port, localPort: Port, remoteHost: string, enabled: bool)

  function Mapping(f: Forward): ManualForward {
    ManualForward(f.remotePort, f.localPort, f.remoteHost, f.enabled)
  }

  /** The normalized endpoint by which rules and entries are matched. */
  function RuleKey(m: ManualForward): Endpoint { Endpoint(NormalizedHost(m.remoteHost), m.remotePort) }

  function EntryKey(f: Forward): Endpoint { Endpoint(NormalizedHost(f.remoteHost), f.remotePort) }

  /** `retain`: the rules for other endpoints. */
  function Without(rules: seq<ManualForward>, k: Endpoint): seq<ManualForward> {
    if rules == [] then []
    else if RuleKey(rules[0]) == k then Without(rules[1..], k)
    else [rules[0]] + Without(rules[1..], k)
  }

  /** The rules for one endpoint, in saved order. */
  function Matching(rules: seq<ManualForward>, k: Endpoint): seq<ManualForward> {
    if rules == [] then []
    else (if RuleKey(rules[0]) == k then [rules[0]] else []) + Matching(rules[1..], k)
  }

  lemma {:induction false} MatchingWithout(rules: seq<ManualForward>, k: Endpoint, other: Endpoint)
    ensures Matching(Without(rules, k), other) == if other == k then [] else Matching(rules, other)
  {
    if rules != [] {
      MatchingWithout(rules[1..], k, other);
      if RuleKey(rules[0]) != k {
        var rest := Without(rules[1..], k);
        assert ([rules[0]] + rest)[1..] == rest;
      }
    }
  }

  lemma {:induction false} MatchingPushed(rules: seq<ManualForward>, m: ManualForward, k: Endpoint)
    ensures Matching(rules + [m], k) == Matching(rules, k) + if RuleKey(m) == k then [m] else []
  {
    if rules == [] {
      assert [m][1..] == [];
    } else {
      assert (rules + [m])[0] == rules[0] && (rules + [m])[1..] == rules[1..] + [m];
      MatchingPushed(rules[1..], m, k);
    }
  }

  // ---------------------------------------------------------------------------
  // What a mutation means for the saved preferences
  // ---------------------------------------------------------------------------

  /** The manual entry `id` is new or differs from before. */
  predicate Puts(before: Forwards, after: Forwards, id: string) {
    id in after && !after[id].automatic && !(id in before && Mapping(before[id]) == Mapping(after[id]))
  }

  predicate Drops(before: Forwards, after: Forwards, id: string) {
    id in before && !before[id].automatic && id !in after
  }

  ghost predicate PutsKey(before: Forwards, after: Forwards, k: Endpoint) {
    exists id :: Puts(before, after, id) && EntryKey(after[id]) == k
  }

  ghost predicate DropsKey(before: Forwards, after: Forwards, k: Endpoint) {
    exists id :: Drops(before, after, id) && EntryKey(before[id]) == k
  }

  /** The saved rules `later` are `rules` with the change from `before` to `after`
      applied: the last write per touched endpoint, nothing else. */
  ghost predicate MergedRules(before: Forwards, after: Forwards, rules: seq<ManualForward>,
                              later: seq<ManualForward>) {
    && (forall id :: Puts(before, after, id) ==> Matching(later, EntryKey(after[id])) == [Mapping(after[id])])
    && (forall k :: DropsKey(before, after, k) && !PutsKey(before, after, k) ==> Matching(later, k) == [])
    && (forall k :: !DropsKey(before, after, k) && !PutsKey(before, after, k) ==>
         Matching(later, k) == Matching(rules, k))
  }

  predicate Pauses(before: Forwards, after: Forwards, id: string) {
    id in after && after[id].automatic && !after[id].enabled && (id in before ==> before[id].enabled)
  }

  predicate Resumes(before: Forwards, after: Forwards, id: string) {
    id in after && after[id].automatic && after[id].enabled && id in before && !before[id].enabled
  }

  ghost predicate PausesPort(before: Forwards, after: Forwards, p: Port) {
    exists id :: Pauses(before, after, id) && after[id].remotePort == p
  }

  ghost predicate ResumesPort(before: Forwards, after: Forwards, p: Port) {
    exists id :: Resumes(before, after, id) && after[id].remotePort == p
  }

  /** The same for the paused ports. (One operation never pauses and resumes.) */
  ghost predicate MergedPauses(before: Forwards, after: Forwards, paused: set<Port>, later: set<Port>) {
    && (forall p :: PausesPort(before, after, p) && !ResumesPort(before, after, p) ==> p in later)
    && (forall p :: ResumesPort(before, after, p) && !PausesPort(before, after, p) ==> p !in later)
    && (forall p :: !PausesPort(before, after, p) && !ResumesPort(before, after, p) ==> (p in later <==> p in paused))
  }

  // ---------------------------------------------------------------------------
  // The merging loops
  // ---------------------------------------------------------------------------

  /** The first loop of `persist_preferences_delta`: rules of removed entries go. */
  method DropRemoved(before: Forwards, after: Forwards, rules: seq<ManualForward>) returns (later: seq<ManualForward>)
    ensures forall k :: Matching(later, k) == if DropsKey(before, after, k) then [] else Matching(rules, k)
  {
    later := rules;
    var todo := before.Keys;
    ghost var done: set<string> := {};
    while todo != {}
      invariant done + todo == before.Keys && done !! todo
      invariant forall k :: Matching(later, k) == if DropsKeyIn(before, after, done, k) then [] else Matching(rules, k)
      decreases |todo|
    {
      var id :| id in todo;
      todo := todo - {id};
      if Drops(before, after, id) {
        ghost var earlier := later;
        later := Without(later, EntryKey(before[id]));
        forall k
          ensures Matching(later, k) == if k == EntryKey(before[id]) then [] else Matching(earlier, k)
        {
          MatchingWithout(earlier, EntryKey(before[id]), k);
        }
      }
      DropsOneMore(before, after, done, id);
      done := done + {id};
    }
    forall k
      ensures DropsKey(before, after, k) <==> DropsKeyIn(before, after, done, k)
    {
    }
  }

  ghost predicate DropsKeyIn(before: Forwards, after: Forwards, ids: set<string>, k: Endpoint) {
    exists id :: id in ids && Drops(before, after, id) && EntryKey(before[id]) == k
  }

  lemma DropsOneMore(before: Forwards, after: Forwards, done: set<string>, id: string)
    ensures forall k :: DropsKeyIn(before, after, done + {id}, k) <==>
              DropsKeyIn(before, after, done, k) || (Drops(before, after, id) && EntryKey(before[id]) == k)
  {
    forall k
      ensures DropsKeyIn(before, after, done + {id}, k) <==>
              DropsKeyIn(before, after, done, k) || (Drops(before, after, id) && EntryKey(before[id]) == k)
    {
      if Drops(before, after, id) && EntryKey(before[id]) == k {
        assert id in done + {id};
      }
    }
  }

  ghost predicate PutsKeyIn(before: Forwards, after: Forwards, ids: set<string>, k: Endpoint) {
    exists id :: id in ids && Puts(before, after, id) && EntryKey(after[id]) == k
  }

  ghost predicate DistinctKeys(fw: Forwards) {
    forall a, b :: a in fw && b in fw && a != b ==> EntryKey(fw[a]) != EntryKey(fw[b])
  }

  /** Part way through the second loop. */
  ghost predicate PutSoFar(before: Forwards, after: Forwards, ids: set<string>, rules: seq<ManualForward>,
                           later: seq<ManualForward>) {
    && (forall id :: id in ids && Puts(before, after, id) ==>
          Matching(later, EntryKey(after[id])) == [Mapping(after[id])])
    && (forall k :: !PutsKeyIn(before, after, ids, k) ==> Matching(later, k) == Matching(rules, k))
  }

  lemma PutOneMore(before: Forwards, after: Forwards, ids: set<string>, rules: seq<ManualForward>,
                   later: seq<ManualForward>, id: string)
    requires DistinctKeys(after) && id in after && id !in ids && ids <= after.Keys
    requires PutSoFar(before, after, ids, rules, later)
    ensures var k := EntryKey(after[id]);
            PutSoFar(before, after, ids + {id}, rules,
                     if Puts(before, after, id) then Without(later, k) + [Mapping(after[id])] else later)
  {
    if Puts(before, after, id) {
      var key, m := EntryKey(after[id]), Mapping(after[id]);
      var more := Without(later, key) + [m];
      assert RuleKey(m) == key;
      forall k
        ensures Matching(more, k) == if k == key then [m] else Matching(later, k)
      {
        MatchingWithout(later, key, k);
        MatchingPushed(Without(later, key), m, k);
      }
      forall k | !PutsKeyIn(before, after, ids + {id}, k)
        ensures Matching(more, k) == Matching(rules, k)
      {
        assert id in ids + {id};
        assert k != key && !PutsKeyIn(before, after, ids, k);
      }
    } else {
      forall k | !PutsKeyIn(before, after, ids + {id}, k)
        ensures !PutsKeyIn(before, after, ids, k)
      {
      }
    }
  }

  /** The second loop: changed manual entries are saved, pauses are recorded. */
  method SaveChanged(before: Forwards, after: Forwards, rules: seq<ManualForward>, pausedBefore: set<Port>)
    returns (later: seq<ManualForward>, paused: set<Port>)
    requires DistinctKeys(after)
    ensures PutSoFar(before, after, after.Keys, rules, later)
    ensures MergedPauses(before, after, pausedBefore, paused)
  {
    later, paused := rules, pausedBefore;
    var todo := after.Keys;
    ghost var done: set<string> := {};
    NothingPut(before, after, rules, pausedBefore);
    hide PutSoFar, PausesSoFar, MergedPauses;
    while todo != {}
      invariant done + todo == after.Keys && done !! todo
      invariant PutSoFar(before, after, done, rules, later)
      invariant PausesSoFar(before, after, done, pausedBefore, paused)
      decreases |todo|
    {
      var id :| id in todo;
      todo := todo - {id};
      PutOneMore(before, after, done, rules, later, id);
      PauseOneMore(before, after, done, pausedBefore, paused, id);
      if after[id].automatic {
        if Pauses(before, after, id) {
          paused := paused + {after[id].remotePort};
        } else if Resumes(before, after, id) {
          paused := paused - {after[id].remotePort};
        }
      } else if Puts(before, after, id) {
        later := Without(later, EntryKey(after[id])) + [Mapping(after[id])];
      }
      done := done + {id};
    }
    AllPausesSeen(before, after, pausedBefore, paused);
  }

  ghost predicate PausesSoFar(before: Forwards, after: Forwards, ids: set<string>, paused: set<Port>,
                              later: set<Port>) {
    forall p :: PauseState(before, after, ids, paused, later, p)
  }

  ghost predicate PauseState(before: Forwards, after: Forwards, ids: set<string>, paused: set<Port>,
                             later: set<Port>, p: Port) {
    var pauses := exists id :: id in ids && Pauses(before, after, id) && after[id].remotePort == p;
    var resumes := exists id :: id in ids && Resumes(before, after, id) && after[id].remotePort == p;
    && (pauses && !resumes ==> p in later)
    && (resumes && !pauses ==> p !in later)
    && (!pauses && !resumes ==> (p in later <==> p in paused))
  }

  lemma NothingPut(before: Forwards, after: Forwards, rules: seq<ManualForward>, paused: set<Port>)
    ensures PutSoFar(before, after, {}, rules, rules)
    ensures PausesSoFar(before, after, {}, paused, paused)
  {
  }

  lemma PauseOneMore(before: Forwards, after: Forwards, ids: set<string>, paused: set<Port>, later: set<Port>,
                     id: string)
    requires PausesSoFar(before, after, ids, paused, later) && id in after && id !in ids
    ensures var p := after[id].remotePort;
            PausesSoFar(before, after, ids + {id}, paused,
                        if Pauses(before, after, id) then later + {p}
                        else if Resumes(before, after, id) then later - {p} else later)
  {
    var port := after[id].remotePort;
    var more := if Pauses(before, after, id) then later + {port}
                else if Resumes(before, after, id) then later - {port} else later;
    forall p: Port
      ensures PauseState(before, after, ids + {id}, paused, more, p)
    {
      assert PauseState(before, after, ids, paused, later, p);
      assert id in ids + {id};
    }
  }

  lemma AllPausesSeen(before: Forwards, after: Forwards, paused: set<Port>, later: set<Port>)
    requires PausesSoFar(before, after, after.Keys, paused, later)
    ensures MergedPauses(before, after, paused, later)
  {
    forall p: Port
      ensures PausesPort(before, after, p) && !ResumesPort(before, after, p) ==> p in later
      ensures ResumesPort(before, after, p) && !PausesPort(before, after, p) ==> p !in later
      ensures !PausesPort(before, after, p) && !ResumesPort(before, after, p) ==> (p in later <==> p in paused)
    {
      assert PauseState(before, after, after.Keys, paused, later, p);
    }
  }

  /** `persist_preferences_delta`, up to writing the files. */
  method Merge(before: Forwards, after: Forwards, rules: seq<ManualForward>, pausedBefore: set<Port>)
    returns (later: seq<ManualForward>, paused: set<Port>)
    requires DistinctKeys(after)
    ensures MergedRules(before, after, rules, later)
    ensures MergedPauses(before, after, pausedBefore, paused)
  {
    var remaining := DropRemoved(before, after, rules);
    later, paused := SaveChanged(before, after, remaining, pausedBefore);
    forall k
      ensures PutsKey(before, after, k) <==> PutsKeyIn(before, after, after.Keys, k)
    {
    }
  }
}

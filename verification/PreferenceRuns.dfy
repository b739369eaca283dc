/** Any number of companions, each with its own registry, transact on the same two
    preference files under one lock. The files always hold what one gets by applying
    the users' decisions one after the other in lock order, however stale each
    companion's own view is and whatever cannot be saved or put back. */
module PreferenceRuns {
  import opened Detect
  import opened RegistrySpec
  import opened RegistryProofs
  import opened RestoreSpec
  import opened Preferences
  import opened Operations
  import opened Undo

  datatype System = System(companions: seq<State>, rules: seq<ManualForward>, paused: set<Port>)

  /** What happens in one step, always under the lock where files are involved. */
  datatype Action =
    /** A mutation whose outcome is saved; changing a local port is saved even when it failed. */
    | Commit(companion: nat, op: Operation, answers: Answers)
    /** A mutation that was not begun, or that failed without effect and is not saved. */
    | Refuse(companion: nat)
    /** A mutation that could not be saved and was undone as far as SSH let it. Either
        file may nevertheless keep the merge, if it was written and could not be put back. */
    | Undo(companion: nat, op: Operation, answers: Answers, undone: bool, cancels: set<string>, opens: set<string>,
           rulesKept: bool, pausesKept: bool)
    /** The transport of a companion died or was rebuilt: its tunnels and its local
        ports change, nothing is saved. */
    | Transport(companion: nat)

  /** What one step does to the companion that takes it and to the two files. */
  ghost predicate Takes(action: Action, s: State, rules: seq<ManualForward>, paused: set<Port>,
                        s': State, rules': seq<ManualForward>, paused': set<Port>) {
    match action
    case Commit(_, op, answers) =>
      && s.next < U64_MAX
      && s' == Step(s, CallOf(op, paused, answers))
      && (Failed(s, CallOf(op, paused, answers)) ==> op.OpLocalPort?)
      && MergedRules(s.forwards, s'.forwards, rules, rules')
      && MergedPauses(s.forwards, s'.forwards, paused, paused')
    case Refuse(_) => s' == s && rules' == rules && paused' == paused
    case Undo(_, op, answers, undone, cancels, opens, rulesKept, pausesKept) =>
      && s.next < U64_MAX && DistinctPorts(s.forwards)
      && var t := Step(s, CallOf(op, paused, answers));
         && RestoreStep(t, s.forwards, s.next, undone, cancels, opens, s')
         && (if rulesKept then MergedRules(s.forwards, t.forwards, rules, rules') else rules' == rules)
         && (if pausesKept then MergedPauses(s.forwards, t.forwards, paused, paused') else paused' == paused)
    case Transport(_) =>
      && Replayed(s.forwards, s'.forwards) && DistinctPorts(s'.forwards) && s'.next == s.next
      && rules' == rules && paused' == paused
  }

  ghost predicate Next(y: System, action: Action, y': System) {
    && action.companion < |y.companions| == |y'.companions|
    && y'.companions == y.companions[action.companion := y'.companions[action.companion]]
    && Takes(action, y.companions[action.companion], y.rules, y.paused,
             y'.companions[action.companion], y'.rules, y'.paused)
  }

  /** A step that one companion takes is a step of the whole system. */
  lemma StepOfOne(y: System, action: Action, s': State, rules': seq<ManualForward>, paused': set<Port>)
    requires action.companion < |y.companions|
    requires Takes(action, y.companions[action.companion], y.rules, y.paused, s', rules', paused')
    ensures Next(y, action, System(y.companions[action.companion := s'], rules', paused'))
  {
    hide Takes;
  }

  ghost predicate IsRun(systems: seq<System>, actions: seq<Action>) {
    && |systems| == |actions| + 1
    && forall i :: 0 <= i < |actions| ==> Next(systems[i], actions[i], systems[i + 1])
  }

  ghost predicate AllEntries(y: System) {
    forall i :: 0 <= i < |y.companions| ==> Entries(y.companions[i].forwards, y.companions[i].next)
  }

  /** The decision an undone mutation leaves in the files: its own, if the one file that
      the decision is about kept it, and none otherwise. */
  function KeptEvent(e: Event, rulesKept: bool, pausesKept: bool): Event {
    match e
    case Nothing => Nothing
    case Pause(_) => if pausesKept then e else Nothing
    case Resume(_) => if pausesKept then e else Nothing
    case SaveRule(_) => if rulesKept then e else Nothing
    case ForgetRule(_) => if rulesKept then e else Nothing
  }

  /** The decision a step leaves in the files. */
  ghost function ActionEvent(y: System, action: Action): Event
    requires action.companion < |y.companions|
  {
    var s := y.companions[action.companion];
    match action
    case Commit(_, op, answers) => EventOf(s, op, Step(s, CallOf(op, y.paused, answers)))
    case Undo(_, op, answers, _, _, _, rulesKept, pausesKept) =>
      KeptEvent(EventOf(s, op, Step(s, CallOf(op, y.paused, answers))), rulesKept, pausesKept)
    case _ => Nothing
  }

  /** The users' decisions, applied in lock order. */
  ghost function Decided(d: Decisions, systems: seq<System>, actions: seq<Action>): Decisions
    requires IsRun(systems, actions)
    decreases |actions|
  {
    if actions == [] then d
    else
      var n := |actions| - 1;
      PrefixIsRun(systems, actions);
      assert Next(systems[n], actions[n], systems[n + 1]);
      Decide(Decided(d, systems[..n + 1], actions[..n]), ActionEvent(systems[n], actions[n]))
  }

  lemma PrefixIsRun(systems: seq<System>, actions: seq<Action>)
    requires IsRun(systems, actions) && actions != []
    ensures IsRun(systems[..|actions|], actions[..|actions| - 1])
  {
    hide Next;
    var n := |actions| - 1;
    forall i | 0 <= i < n
      ensures Next(systems[..n + 1][i], actions[..n][i], systems[..n + 1][i + 1])
    {
      assert Next(systems[i], actions[i], systems[i + 1]);
    }
  }

  lemma NextKeepsEntries(y: System, action: Action, y': System)
    requires AllEntries(y) && Next(y, action, y')
    ensures AllEntries(y')
  {
    hide Takes, Entries;
    var s, s' := y.companions[action.companion], y'.companions[action.companion];
    StepKeepsEntries(action, s, y.rules, y.paused, s', y'.rules, y'.paused);
  }

  lemma StepKeepsEntries(action: Action, s: State, rules: seq<ManualForward>, paused: set<Port>,
                         s': State, rules': seq<ManualForward>, paused': set<Port>)
    requires Takes(action, s, rules, paused, s', rules', paused') && Entries(s.forwards, s.next)
    ensures Entries(s'.forwards, s'.next)
  {
    hide Step, CallOf, Failed, Entries, MergedRules, MergedPauses, Replayed, RestoreStep, DistinctPorts;
    match action {
      case Commit(_, op, answers) => StepKeepsInv(s, CallOf(op, paused, answers));
      case Refuse(_) =>
      case Undo(_, op, answers, undone, cancels, opens, _, _) =>
        var call := CallOf(op, paused, answers);
        NoCloseAll(op, paused, answers);
        UndoKeepsEntries(s, call, Step(s, call), undone, cancels, opens, s');
      case Transport(_) => ReplayedKeepsEntries(s.forwards, s'.forwards, s.next);
    }
  }

  /** What the files show after a mutation that changed one entry, if each of them
      keeps its part of the merge or nothing. */
  lemma KeptIsRecorded(before: Forwards, after: Forwards, e: Event, rulesKept: bool, pausesKept: bool,
                       rules: seq<ManualForward>, paused: set<Port>, d: Decisions,
                       rules': seq<ManualForward>, paused': set<Port>)
    requires Explains(before, after, e) && Shows(rules, paused, d)
    requires if rulesKept then MergedRules(before, after, rules, rules') else rules' == rules
    requires if pausesKept then MergedPauses(before, after, paused, paused') else paused' == paused
    ensures Shows(rules', paused', Decide(d, KeptEvent(e, rulesKept, pausesKept)))
  {
    hide EventAt, OnlyChange, MergedRules, MergedPauses, ShowsRule;
    var id :| OnlyChange(before, after, id) && EventAt(before, after, id) == e;
    if rulesKept { MergingRules(before, after, id, rules, d, rules'); }
    if pausesKept { MergingPauses(before, after, id, d, paused'); }
    var kept := Decide(d, KeptEvent(e, rulesKept, pausesKept));
    assert kept.rules == if rulesKept then Decide(d, e).rules else d.rules;
    assert kept.paused == if pausesKept then Decide(d, e).paused else d.paused;
  }

  lemma NextRecordsEvent(y: System, action: Action, y': System, d: Decisions)
    requires AllEntries(y) && Next(y, action, y') && Shows(y.rules, y.paused, d)
    ensures Shows(y'.rules, y'.paused, Decide(d, ActionEvent(y, action)))
  {
    hide Step, CallOf, Failed, Entries, EventOf, Explains, MergedRules, MergedPauses, Shows, RestoreStep, Replayed,
         DistinctPorts, Decide, KeptEvent;
    var s := y.companions[action.companion];
    match action {
      case Commit(_, op, answers) =>
        OperationEvent(s, op, y.paused, answers);
        var t := Step(s, CallOf(op, y.paused, answers));
        KeptIsRecorded(s.forwards, t.forwards, EventOf(s, op, t), true, true,
                       y.rules, y.paused, d, y'.rules, y'.paused);
        AllKept(EventOf(s, op, t));
      case Undo(_, op, answers, _, _, _, rulesKept, pausesKept) =>
        OperationEvent(s, op, y.paused, answers);
        var t := Step(s, CallOf(op, y.paused, answers));
        KeptIsRecorded(s.forwards, t.forwards, EventOf(s, op, t), rulesKept, pausesKept,
                       y.rules, y.paused, d, y'.rules, y'.paused);
      case _ =>
        NothingDecided(d);
    }
  }

  lemma AllKept(e: Event)
    ensures KeptEvent(e, true, true) == e
  {
  }

  lemma NothingDecided(d: Decisions)
    ensures Decide(d, Nothing) == d
  {
  }

  /** The saved preferences are serializable. */
  lemma {:induction false} PreferencesAreSerializable(systems: seq<System>, actions: seq<Action>, d: Decisions)
    requires IsRun(systems, actions) && AllEntries(systems[0])
    requires Shows(systems[0].rules, systems[0].paused, d)
    ensures AllEntries(systems[|actions|])
    ensures Shows(systems[|actions|].rules, systems[|actions|].paused, Decided(d, systems, actions))
    decreases |actions|
  {
    hide Next, Shows, AllEntries, ActionEvent, Decide;
    if actions != [] {
      var n := |actions| - 1;
      PrefixIsRun(systems, actions);
      var front := systems[..n + 1];
      assert front[0] == systems[0] && front[n] == systems[n];
      PreferencesAreSerializable(front, actions[..n], d);
      assert Next(systems[n], actions[n], systems[n + 1]);
      NextKeepsEntries(systems[n], actions[n], systems[n + 1]);
      CompanionsStay(systems[n], actions[n], systems[n + 1]);
      NextRecordsEvent(systems[n], actions[n], systems[n + 1], Decided(d, front, actions[..n]));
    }
  }

  lemma CompanionsStay(y: System, action: Action, y': System)
    requires Next(y, action, y')
    ensures action.companion < |y.companions| == |y'.companions|
  {
    hide Takes;
  }

  /** Consequences for one step: a decision about one endpoint leaves every other
      endpoint's saved rules alone, and only `Resume` ends a pause; in particular
      removing an automatic forward does not. */
  lemma OthersAreUntouched(y: System, action: Action, y': System)
    requires AllEntries(y) && Next(y, action, y')
    ensures var e := ActionEvent(y, action);
            && (forall k :: (e.SaveRule? ==> k != RuleKey(e.rule)) && (e.ForgetRule? ==> k != e.key) ==>
                  Matching(y'.rules, k) == Matching(y.rules, k))
            && (forall p :: p in y.paused && !(e == Resume(p)) ==> p in y'.paused)
            && ((action.Commit? || action.Undo?) && action.op.OpRemove? ==> y'.paused == y.paused)
  {
    hide Step, CallOf, Failed, Entries, EventOf, Explains, MergedRules, MergedPauses, RestoreStep, Replayed,
         DistinctPorts, KeptEvent;
    var s := y.companions[action.companion];
    match action {
      case Commit(_, op, answers) =>
        OperationEvent(s, op, y.paused, answers);
        var t := Step(s, CallOf(op, y.paused, answers));
        KeptLeavesOthers(s.forwards, t.forwards, EventOf(s, op, t), true, true, y.rules, y.paused, y'.rules, y'.paused);
        AllKept(EventOf(s, op, t));
        RemovalNeverPauses(s, op, t);
      case Undo(_, op, answers, _, _, _, rulesKept, pausesKept) =>
        OperationEvent(s, op, y.paused, answers);
        var t := Step(s, CallOf(op, y.paused, answers));
        KeptLeavesOthers(s.forwards, t.forwards, EventOf(s, op, t), rulesKept, pausesKept,
                         y.rules, y.paused, y'.rules, y'.paused);
        RemovalNeverPauses(s, op, t);
      case _ =>
    }
  }

  lemma KeptLeavesOthers(before: Forwards, after: Forwards, e: Event, rulesKept: bool, pausesKept: bool,
                         rules: seq<ManualForward>, paused: set<Port>, rules': seq<ManualForward>, paused': set<Port>)
    requires Explains(before, after, e)
    requires if rulesKept then MergedRules(before, after, rules, rules') else rules' == rules
    requires if pausesKept then MergedPauses(before, after, paused, paused') else paused' == paused
    ensures var kept := KeptEvent(e, rulesKept, pausesKept);
            && (forall k :: (kept.SaveRule? ==> k != RuleKey(kept.rule)) && (kept.ForgetRule? ==> k != kept.key) ==>
                  Matching(rules', k) == Matching(rules, k))
            && (forall p :: p in paused && !(kept == Resume(p)) ==> p in paused')
    ensures !e.Pause? && !e.Resume? ==> paused' == paused
  {
    hide EventAt, OnlyChange, MergedRules, MergedPauses;
    var id :| OnlyChange(before, after, id) && EventAt(before, after, id) == e;
    if rulesKept { OnlyTheRuleMerges(before, after, id, rules, rules'); }
    if pausesKept { OnlyThePauseMerges(before, after, id, paused, paused'); }
  }

  lemma RemovalNeverPauses(s: State, op: Operation, s': State)
    ensures op.OpRemove? ==> !EventOf(s, op, s').Pause? && !EventOf(s, op, s').Resume?
  {
  }

  lemma OnlyTheRuleMerges(before: Forwards, after: Forwards, id: string,
                          rules: seq<ManualForward>, rules': seq<ManualForward>)
    requires OnlyChange(before, after, id) && MergedRules(before, after, rules, rules')
    ensures var e := EventAt(before, after, id);
            forall k :: (e.SaveRule? ==> k != RuleKey(e.rule)) && (e.ForgetRule? ==> k != e.key) ==>
              Matching(rules', k) == Matching(rules, k)
  {
    var e := EventAt(before, after, id);
    forall k | (e.SaveRule? ==> k != RuleKey(e.rule)) && (e.ForgetRule? ==> k != e.key)
      ensures Matching(rules', k) == Matching(rules, k)
    {
      assert !PutsKey(before, after, k) && !DropsKey(before, after, k);
    }
  }

  lemma OnlyThePauseMerges(before: Forwards, after: Forwards, id: string, paused: set<Port>, paused': set<Port>)
    requires OnlyChange(before, after, id) && MergedPauses(before, after, paused, paused')
    ensures var e := EventAt(before, after, id);
            && (forall p :: p in paused && !(e == Resume(p)) ==> p in paused')
            && (!e.Pause? && !e.Resume? ==> paused' == paused)
  {
    var e := EventAt(before, after, id);
    forall p: Port
      ensures p in paused && !(e == Resume(p)) ==> p in paused'
      ensures !e.Pause? && !e.Resume? ==> (p in paused' <==> p in paused)
    {
      assert PausesPort(before, after, p) ==> Pauses(before, after, id) && after[id].remotePort == p;
      assert ResumesPort(before, after, p) ==> Resumes(before, after, id) && after[id].remotePort == p;
    }
  }
}

/** One companion (src/bin/local/companion.rs): a mutation of the registry, the
    merging of its preferences and the publication of its state form one
    transaction, undone as far as possible when anything cannot be saved. */
module Companions {
  import opened Wrappers
  import opened Detect
  import opened RegistrySpec
  import opened RegistryProofs
  import opened RestoreSpec
  import opened ForwardRegistry
  import opened Preferences
  import opened Operations
  import opened ManualReload
  import opened Undo
  import opened Journals
  import opened SessionFile
  import opened RegistryEffects
  import PreferenceRuns

  datatype Outcome =
    /** The mutation ran; its result is the answer. */
    | Served(result: Result<Option<Forward>, Error>)
    /** The lock or the saved files could not be had: nothing was done. */
    | NotStarted
    /** The mutation ran but could not be saved; which steps of the rollback worked. */
    | NotSaved(tunnels: bool, manual: bool, paused: bool, state: bool)

  /** The steps of saving a change: both files are loaded afresh, both written, and then
      the state is published. */
  function SavingSteps(rules: seq<ManualForward>, ports: set<Port>, forwards: Forwards): seq<FileStep> {
    [LoadRules, LoadPauses, WriteRules(Saved(rules)), WritePauses(Saved(ports)), WriteState(forwards)]
  }

  /** What one transaction did with the files before, during and after its mutation and
      when it was rolled back; the registry after the mutation, and the merge of that
      change into the saved files. */
  datatype Journal = Journal(start: FileLog, mutation: FileLog, saving: FileLog, undoing: FileLog,
                             changed: State, rules: seq<ManualForward>, ports: set<Port>)

  function Joined(j: Journal): FileLog { j.start + j.mutation + j.saving + j.undoing }

  /** Whether something was to be saved: the mutation was served, or it was a change of
      a local port, which is saved even when it failed. */
  predicate Saves(op: Operation, outcome: Outcome) {
    outcome.NotSaved? || (outcome.Served? && (outcome.result.Ok? || op.OpLocalPort?))
  }

  /** The outcome has its reason in what happened to the files: the first step that fails
      ends its part of the transaction, and a rollback tries all of its three steps. */
  ghost predicate FilesExplain(j: Journal, op: Operation, outcome: Outcome, manual: File<seq<ManualForward>>,
                               paused: File<set<Port>>, restored: Forwards) {
    && InTurn(j.start, [LockFiles, ReadRules, ReadPauses], !outcome.NotStarted?)
    && (if outcome.NotStarted? then j.mutation == []
        else InTurn(j.mutation, MutationSteps(op), outcome != Served(Err(PausesUnreadable))))
    && (if Saves(op, outcome) then InTurn(j.saving, SavingSteps(j.rules, j.ports, j.changed.forwards), outcome.Served?)
        else j.saving == [])
    && j.undoing ==
       if !outcome.NotSaved? then []
       else [Attempted(WriteRules(manual), outcome.manual), Attempted(WritePauses(paused), outcome.paused),
             Attempted(WriteState(restored), outcome.state)]
  }

  /** Detected ports may be paused; only their creation looks. */
  function MutationSteps(op: Operation): seq<FileStep> {
    if op.OpCreate? && op.request.automatic then [LoadPauses] else []
  }

  /** Everything a transaction may change, and the log of the SSH master. */
  datatype World = World(registry: State, manual: File<seq<ManualForward>>, paused: File<set<Port>>,
                         state: File<Forwards>, log: seq<SshCall>)

  /** What the files hold follows from which of the writes worked. */
  ghost predicate FilesHold(j: Journal, outcome: Outcome, w: World, w': World) {
    && w'.manual == (if outcome.NotSaved? && outcome.manual then w.manual
                     else if Did(j.saving, WriteRules(Saved(j.rules))) then Saved(j.rules) else w.manual)
    && w'.paused == (if outcome.NotSaved? && outcome.paused then w.paused
                     else if Did(j.saving, WritePauses(Saved(j.ports))) then Saved(j.ports) else w.paused)
  }

  /** What SSH was asked: by the mutation, and by the rollback if there was one. */
  ghost predicate SshExplains(op: Operation, a: Answers, action: PreferenceRuns.Action, outcome: Outcome, j: Journal,
                              w: World, w': World) {
    if outcome.NotStarted? || outcome == Served(Err(PausesUnreadable)) then w'.log == w.log
    else
      var asked := w.log + Asks(w.registry, CallOf(op, PortsIn(w.paused), a));
      if outcome.Served? then w'.log == asked
      else action.Undo? && AskedToRestore(j.changed.forwards, w.registry.forwards, action.cancels, action.opens,
                                          asked, w'.log)
  }

  /** The change of the mutation, and its merge into what the files held. */
  ghost predicate Changes(op: Operation, a: Answers, j: Journal, w: World) {
    var call := CallOf(op, PortsIn(w.paused), a);
    && j.changed == Step(w.registry, call) && (op.OpLocalPort? || !Failed(w.registry, call))
    && MergedRules(w.registry.forwards, j.changed.forwards, RulesIn(w.manual), j.rules)
    && MergedPauses(w.registry.forwards, j.changed.forwards, PortsIn(w.paused), j.ports)
  }

  /** Nothing was done. */
  ghost predicate Untouched(action: PreferenceRuns.Action, w: World, w': World) {
    action.Refuse? && w'.registry == w.registry && w'.manual == w.manual && w'.paused == w.paused && w'.state == w.state
  }

  /** The mutation has been saved: registry, files and published state agree. */
  ghost predicate SavedEverywhere(op: Operation, a: Answers, action: PreferenceRuns.Action, j: Journal,
                                  w: World, w': World) {
    && action == PreferenceRuns.Commit(0, op, a) && w'.registry == j.changed
    && w' == World(j.changed, Saved(j.rules), Saved(j.ports), Saved(j.changed.forwards), w'.log)
  }

  /** The mutation could not be saved: which steps of the rollback worked decides what is
      as it was, and a truthful registry keeps at least the tunnels of its entries. */
  ghost predicate Undone(op: Operation, a: Answers, action: PreferenceRuns.Action, outcome: Outcome,
                         w: World, w': World)
    requires outcome.NotSaved?
  {
    && action.Undo? && action.op == op && action.answers == a && action.undone == outcome.tunnels
    && (outcome.tunnels ==> w'.registry.forwards == w.registry.forwards)
    && (outcome.manual ==> !action.rulesKept) && (outcome.paused ==> !action.pausesKept)
    && w'.state == (if outcome.state then Saved(w'.registry.forwards) else w.state)
    && (Inv(w.registry) ==>
          if outcome.tunnels then Inv(w'.registry) && w'.registry.live == w.registry.live
          else Backed(w'.registry.forwards, w'.registry.live))
  }

  /** What one transaction does, whatever its outcome. */
  ghost predicate Transaction(op: Operation, a: Answers, action: PreferenceRuns.Action, outcome: Outcome, j: Journal,
                              w: World, w': World) {
    var ports := PortsIn(w.paused);
    && PreferenceRuns.Takes(action, w.registry, RulesIn(w.manual), ports,
                            w'.registry, RulesIn(w'.manual), PortsIn(w'.paused))
    && FilesExplain(j, op, outcome, w.manual, w.paused, w'.registry.forwards)
    && FilesHold(j, outcome, w, w') && SshExplains(op, a, action, outcome, j, w, w')
    && (outcome.Served? && outcome.result != Err(PausesUnreadable) ==>
          outcome.result == Answer(w.registry, CallOf(op, ports, a)))
    && (outcome.Served? && outcome.result.Ok? ==>
          && DoneAsAsked(w.registry, op, ports, outcome.result.value, w'.registry)
          && SavedAsAsked(w.registry, op, outcome.result.value, w'.registry, RulesIn(w.manual), ports,
                          RulesIn(w'.manual), PortsIn(w'.paused)))
    && (if Saves(op, outcome) then Changes(op, a, j, w) else Untouched(action, w, w'))
    && (outcome.Served? && Saves(op, outcome) ==> SavedEverywhere(op, a, action, j, w, w'))
    && (outcome.NotSaved? ==> Undone(op, a, action, outcome, w, w'))
    && (Saves(op, outcome) ==>
          DistinctPorts(w.registry.forwards) &&
          if outcome.Served? then Transacted(w.registry, op, ports, a, true, false, {}, {}, w'.registry)
          else Transacted(w.registry, op, ports, a, false, outcome.tunnels, action.cancels, action.opens, w'.registry))
  }

  class Companion {
    const registry: Registry
    const files: SessionFiles

    ghost predicate Valid()
      reads this, registry
    {
      registry.Valid()
    }

    ghost function Now(): World
      reads this, registry, registry.ssh, files
    {
      World(registry.View(), files.manual, files.paused, files.state, registry.ssh.log)
    }

    constructor (registry: Registry, files: SessionFiles)
      requires registry.Valid()
      ensures Valid() && this.registry == registry && this.files == files
    {
      this.registry, this.files := registry, files;
    }

    /** `persist_preferences_delta` and then `persist_locked`: the change since `before` is
        merged into what the files hold now. */
    method Save(before: Forwards) returns (ok: bool, ghost rules: seq<ManualForward>, ghost ports: set<Port>)
      requires Valid()
      modifies files
      ensures old(files.log) <= files.log
      ensures var entries := files.log[|old(files.log)|..];
              && InTurn(entries, SavingSteps(rules, ports, registry.forwards), ok)
              && files.manual == (if Did(entries, WriteRules(Saved(rules))) then Saved(rules) else old(files.manual))
              && files.paused == (if Did(entries, WritePauses(Saved(ports))) then Saved(ports) else old(files.paused))
              && files.state == if ok then Saved(registry.forwards) else old(files.state)
      ensures ok ==> files.manual == Saved(rules) && files.paused == Saved(ports)
      ensures old(files.manual).Garbled? || old(files.paused).Garbled? ==> !ok && |files.log| <= |old(files.log)| + 2
      ensures MergedRules(before, registry.forwards, RulesIn(old(files.manual)), rules)
      ensures MergedPauses(before, registry.forwards, PortsIn(old(files.paused)), ports)
    {
      hide Entries, DistinctKeys, MergedRules, MergedPauses, InTurn, Did, SavingSteps;
      EntriesHaveDistinctKeys(registry.forwards, registry.next);
      rules, ports := Merge(before, registry.forwards, RulesIn(files.manual), PortsIn(files.paused));
      SavingOutcomes(rules, ports, registry.forwards);
      ok := false;
      ghost var log := files.log;
      var manual := files.LoadManual();
      if manual.None? {
        assert files.log[|log|..] == [Attempted(LoadRules, false)];
        return;
      }
      var paused := files.LoadPaused();
      if paused.None? {
        assert files.log[|log|..] == [Attempted(LoadRules, true), Attempted(LoadPauses, false)];
        return;
      }
      var mergedRules, mergedPorts := Merge(before, registry.forwards, manual.value, paused.value);
      rules, ports := mergedRules, mergedPorts;
      SavingOutcomes(rules, ports, registry.forwards);
      ghost var loaded := [Attempted(LoadRules, true), Attempted(LoadPauses, true)];
      ok := files.WriteManual(Saved(mergedRules));
      if !ok {
        assert files.log[|log|..] == loaded + [Attempted(WriteRules(Saved(rules)), false)];
        return;
      }
      ok := files.WritePaused(Saved(mergedPorts));
      loaded := loaded + [Attempted(WriteRules(Saved(rules)), true)];
      if !ok {
        assert files.log[|log|..] == loaded + [Attempted(WritePauses(Saved(ports)), false)];
        return;
      }
      ok := files.Publish(registry.forwards);
      loaded := loaded + [Attempted(WritePauses(Saved(ports)), true)];
      assert files.log[|log|..] == loaded + [Attempted(WriteState(registry.forwards), ok)];
    }

    /** `restore_manual`, run when a companion starts. A missing file holds no rules;
        an unreadable one is an error before anything is created. */
    method RestoreManual()
      returns (readable: bool, failure: Option<Error>, ghost rules: seq<ManualForward>, ghost answers: seq<Answers>)
      requires Valid() && registry.next + |RulesIn(files.manual)| <= U64_MAX
      modifies registry, registry.ssh, files`log
      ensures Valid() && |answers| == |rules|
      ensures (registry.View(), failure) == Reload(old(registry.View()), rules, answers)
      ensures registry.ssh.log == old(registry.ssh.log) + ReloadAsks(old(registry.View()), rules, answers)
      ensures files.log == old(files.log) + [Attempted(LoadRules, readable)]
      ensures rules <= RulesIn(files.manual)
      ensures if !readable then rules == [] && failure.None?
              else failure.None? ==> rules == RulesIn(files.manual)
    {
      hide *;
      failure, rules, answers := None, [], [];
      ghost var s, log := registry.View(), registry.ssh.log;
      registry.Unfold();
      NothingToReload(s);
      var manual := files.LoadManual();
      readable := manual.Some?;
      if !readable {
        return;
      }
      var saved := manual.value;
      var n := 0;
      while n < |saved|
        invariant 0 <= n <= |saved| && rules == saved[..n] && |answers| == n
        invariant Valid() && registry.next <= s.next + n
        invariant failure.None? && (registry.View(), failure) == Reload(s, rules, answers)
        invariant registry.ssh.log == log + ReloadAsks(s, rules, answers)
        invariant files.log == old(files.log) + [Attempted(LoadRules, readable)]
      {
        ghost var a;
        failure, a := LoadRule(saved[n]);
        ReloadOneMore(s, rules, answers, saved[n], a);
        rules, answers := rules + [saved[n]], answers + [a];
        assert rules == saved[..n + 1];
        if failure.Some? {
          return;
        }
        n := n + 1;
      }
    }

    /** One turn of the loop. */
    method LoadRule(m: ManualForward) returns (failure: Option<Error>, ghost a: Answers)
      requires Valid() && registry.next < U64_MAX
      modifies registry, registry.ssh
      ensures Valid() && registry.next <= old(registry.next) + 1 && a.free == old(registry.ssh.free)
      ensures var (s', outcome) := ReloadOne(old(registry.View()), m, a);
              registry.View() == s' && failure == if outcome.Ok? then None else Some(outcome.error)
      ensures registry.ssh.log == old(registry.ssh.log) +
                                  CreateAsks(old(registry.View()), RuleRequest(m), m.enabled, a.free, a.first)
    {
      hide Entries, RegistrySpec.Create, CreateAsks, RuleRequest;
      ghost var opens, time;
      ghost var s, free := registry.View(), registry.ssh.free;
      var outcome;
      outcome, opens, time := registry.Create(RuleRequest(m), m.enabled);
      a := Answers(free, opens, false, false, time);
      StepCounts(s, CallCreate(RuleRequest(m), m.enabled, free, opens, time));
      failure := if outcome.Ok? then None else Some(outcome.error);
    }

    /** The mutation itself, as the request handlers pass it in. It either cannot read the
        paused ports it needs, and then nothing happens, or it is one call of the registry
        with its answer; an answer of success means that it was done as asked. */
    method Mutate(op: Operation) returns (r: Result<Option<Forward>, Error>, ghost answers: Answers)
      requires Valid() && registry.next < U64_MAX
      modifies registry, registry.ssh, files`log
      ensures Valid() && answers.free == old(registry.ssh.free) && old(files.log) <= files.log
      ensures InTurn(files.log[|old(files.log)|..], MutationSteps(op), r != Err(PausesUnreadable))
      ensures r == Err(PausesUnreadable) ==>
                op.OpCreate? &&
                registry.View() == old(registry.View()) && registry.ssh.log == old(registry.ssh.log)
      ensures r != Err(PausesUnreadable) ==>
                var call := CallOf(op, PortsIn(files.paused), answers);
                && r == Answer(old(registry.View()), call) && registry.View() == Step(old(registry.View()), call)
                && registry.ssh.log == old(registry.ssh.log) + Asks(old(registry.View()), call)
      ensures r.Ok? ==> DoneAsAsked(old(registry.View()), op, PortsIn(files.paused), r.value, registry.View())
      ensures r.Err? && !op.OpLocalPort? ==> registry.View() == old(registry.View())
    {
      hide RegistrySpec.Create, RegistrySpec.Remove, RegistrySpec.SetEnabled, RegistrySpec.SetLocalPort, Entries,
           CreateAsks, RemoveAsks, SetEnabledAsks, SetLocalPortAsks, DoneAsAsked;
      ghost var s, free := registry.View(), registry.ssh.free;
      answers := Answers(free, false, false, false, 0);
      match op {
        case OpCreate(request) =>
          var enabled := true;
          if request.automatic {
            var paused := files.LoadPaused();
            if paused.None? {
              return Err(PausesUnreadable), answers;
            }
            enabled := request.remotePort !in paused.value;
          }
          ghost var opens, time;
          var created;
          created, opens, time := registry.Create(request, enabled);
          answers := Answers(free, opens, false, false, time);
          r := if created.Ok? then Ok(Some(created.value.0)) else Err(created.error);
        case OpRemove(id) =>
          ghost var cancels;
          r, cancels := registry.Remove(id);
          answers := Answers(free, cancels, false, false, 0);
        case OpToggle(id, enabled) =>
          ghost var succeeds, time;
          r, succeeds, time := registry.SetEnabled(id, enabled);
          answers := Answers(free, succeeds, false, false, time);
        case OpLocalPort(id, port) =>
          ghost var cancels, opens, reopens, time;
          r, cancels, opens, reopens, time := registry.SetLocalPort(id, port);
          answers := Answers(free, cancels, opens, reopens, time);
      }
      ghost var call := CallOf(op, PortsIn(files.paused), answers);
      FailedMeans(s, call);
      if r.Err? && !op.OpLocalPort? {
        FailureLeavesNoTrace(s, call);
      }
      OtherErrors(s, op, PortsIn(files.paused), answers);
      ServedAsAsked(s, op, PortsIn(files.paused), answers);
    }

    /** The file lock, and what the two files hold. */
    method LockAndRead() returns (manual: Option<File<seq<ManualForward>>>, paused: Option<File<set<Port>>>)
      modifies files`log
      ensures manual.Some? ==> manual.value == files.manual
      ensures paused.Some? ==> manual.Some? && paused.value == files.paused
      ensures old(files.log) <= files.log
      ensures InTurn(files.log[|old(files.log)|..], [LockFiles, ReadRules, ReadPauses], paused.Some?)
    {
      manual, paused := None, None;
      var locked := files.Lock();
      if locked {
        manual := files.ReadManual();
      }
      if manual.Some? {
        paused := files.ReadPaused();
      }
    }

    /** `mutate_and_persist`. Whatever happens is one step of `PreferenceRuns`: a commit
        if the mutation was served and saved, an undoing if it could not be saved, and
        a refusal otherwise. */
    method MutateAndPersist(op: Operation)
      returns (outcome: Outcome, ghost answers: Answers, ghost action: PreferenceRuns.Action, ghost journal: Journal)
      requires Valid() && registry.next < U64_MAX
      modifies registry, registry.ssh, files
      ensures Valid() && answers.free == old(registry.ssh.free)
      ensures files.log == old(files.log) + Joined(journal)
      ensures Transaction(op, answers, action, outcome, journal, old(Now()), Now())
    {
      hide *;
      registry.Unfold();
      Unfold();
      answers, action := Answers(registry.ssh.free, false, false, false, 0), PreferenceRuns.Refuse(0);
      ghost var w, log := Now(), files.log;
      var manual, paused := LockAndRead();
      Unfold();
      journal := Journal(files.log[|log|..], [], [], [], w.registry, [], {});
      if paused.None? {
        IsNotStarted(op, answers, journal, w);
        return NotStarted, answers, action, journal;
      }
      registry.Unfold();
      var snapshot := registry.TakeSnapshot();
      var r;
      r, answers := Mutate(op);
      Unfold();
      journal := journal.(mutation := files.log[|log + journal.start|..], changed := registry.View());
      if r.Err? && !op.OpLocalPort? {
        IsRefused(op, answers, r, journal, w, Now());
        return Served(r), answers, action, journal;
      }
      HasBegun(op, answers, r, journal, w);
      outcome, action, journal := SaveOrUndo(op, r, snapshot, manual.value, paused.value, answers, journal, w);
    }

    /** What comes after a mutation that is to be saved. */
    method SaveOrUndo(op: Operation, r: Result<Option<Forward>, Error>, snapshot: Snapshot,
                      manual: File<seq<ManualForward>>, paused: File<set<Port>>,
                      ghost a: Answers, ghost begun: Journal, ghost w: World)
      returns (outcome: Outcome, ghost action: PreferenceRuns.Action, ghost journal: Journal)
      requires Valid() && Begun(op, a, r, begun, w)
      requires Now() == w.(registry := begun.changed, log := w.log + Asks(w.registry, CallOf(op, PortsIn(w.paused), a)))
      requires snapshot == Snapshot(w.registry.forwards, w.registry.next) && manual == w.manual && paused == w.paused
      modifies registry, registry.ssh, files
      ensures Valid() && files.log == old(files.log) + journal.saving + journal.undoing
      ensures journal.start == begun.start && journal.mutation == begun.mutation
      ensures Transaction(op, a, action, outcome, journal, w, Now())
    {
      hide *;
      registry.Unfold();
      Unfold();
      BegunMeans(op, a, r, begun, w);
      ghost var call := CallOf(op, PortsIn(w.paused), a);
      ghost var log := files.log;
      var ok;
      ghost var rules, ports;
      ok, rules, ports := Save(snapshot.forwards);
      Unfold();
      journal := begun.(saving := files.log[|log|..], rules := rules, ports := ports);
      if ok {
        IsSaving(op, a, r, journal, w, ok);
        action := PreferenceRuns.Commit(0, op, a);
        IsCommitted(op, a, r, journal, w, Now());
        return Served(r), action, journal;
      }
      NoCloseAll(op, PortsIn(w.paused), a);
      ghost var cancels, opens;
      ghost var middle, entries := Now(), files.log;
      outcome, cancels, opens := RollBack(snapshot, manual, paused, w.registry, call);
      registry.Unfold();
      Unfold();
      ghost var undoing := [Attempted(WriteRules(manual), outcome.manual),
                            Attempted(WritePauses(paused), outcome.paused),
                            Attempted(WriteState(registry.forwards), outcome.state)];
      assert files.log == entries + undoing;
      journal := journal.(undoing := undoing);
      ghost var rulesKept, pausesKept := files.manual != manual, files.paused != paused;
      action := PreferenceRuns.Undo(0, op, a, outcome.tunnels, cancels, opens, rulesKept, pausesKept);
      IsSaving(op, a, r, journal, w, false);
      IsUndone(op, a, action, outcome, journal, w, middle, Now());
    }

    /** The definitions above, spelled out. */
    lemma Unfold()
      ensures Valid() <==> registry.Valid()
      ensures Now() == World(registry.View(), files.manual, files.paused, files.state, registry.ssh.log)
      ensures forall j :: Joined(j) == j.start + j.mutation + j.saving + j.undoing
    {
    }

    /** The tunnels first, then the two files, then the published state; a step that
        fails does not stop the following ones. */
    method RollBack(snapshot: Snapshot, manual: File<seq<ManualForward>>, paused: File<set<Port>>,
                    ghost s: State, ghost call: Call)
      returns (outcome: Outcome, ghost cancels: set<string>, ghost opens: set<string>)
      requires Valid()
      requires Entries(s.forwards, s.next) && s.next < U64_MAX && snapshot == Snapshot(s.forwards, s.next)
      requires registry.View() == Step(s, call) && !call.CallCloseAll?
      modifies registry, registry.ssh, files
      ensures outcome.NotSaved? && Valid() && DistinctPorts(s.forwards)
      ensures RestoreStep(Step(s, call), s.forwards, s.next, outcome.tunnels, cancels, opens, registry.View())
      ensures AskedToRestore(old(registry.forwards), s.forwards, cancels, opens, old(registry.ssh.log),
                             registry.ssh.log)
      ensures outcome.tunnels ==> registry.forwards == snapshot.forwards
      ensures files.log == old(files.log) +
                           [Attempted(WriteRules(manual), outcome.manual),
                            Attempted(WritePauses(paused), outcome.paused),
                            Attempted(WriteState(registry.forwards), outcome.state)]
      ensures files.manual == if outcome.manual then manual else old(files.manual)
      ensures files.paused == if outcome.paused then paused else old(files.paused)
      ensures files.state == if outcome.state then Saved(registry.forwards) else old(files.state)
      ensures Inv(s) ==>
                if outcome.tunnels then Inv(registry.View()) && registry.ssh.live == s.live
                else Backed(registry.forwards, registry.ssh.live)
    {
      hide *;
      registry.Unfold();
      Unfold();
      ghost var changed := registry.View();
      var restored;
      restored, cancels, opens := registry.Restore(snapshot);
      registry.Unfold();
      EntriesBounds(s.forwards, s.next);
      UndoKeepsEntries(s, call, changed, restored.Ok?, cancels, opens, registry.View());
      var manualRestored := files.WriteManual(manual);
      var pausedRestored := files.WritePaused(paused);
      var published := files.Publish(registry.forwards);
      registry.Unfold();
      Unfold();
      outcome := NotSaved(restored.Ok?, manualRestored, pausedRestored, published);
    }
  }

  /** The ways in which saving may end, and what has been written then. */
  lemma SavingOutcomes(rules: seq<ManualForward>, ports: set<Port>, fw: Forwards)
    ensures var steps := SavingSteps(rules, ports, fw);
            var loaded := [Attempted(LoadRules, true), Attempted(LoadPauses, true)];
            var r, p := WriteRules(Saved(rules)), WritePauses(Saved(ports));
            && Ends([Attempted(LoadRules, false)], steps, false, r, false, p, false)
            && Ends([Attempted(LoadRules, true), Attempted(LoadPauses, false)], steps, false, r, false, p, false)
            && Ends(loaded + [Attempted(r, false)], steps, false, r, false, p, false)
            && Ends(loaded + [Attempted(r, true)] + [Attempted(p, false)], steps, false, r, true, p, false)
            && forall ok :: Ends(loaded + [Attempted(r, true)] + [Attempted(p, true)] + [Attempted(WriteState(fw), ok)],
                                 steps, ok, r, true, p, true)
  {
  }

  ghost predicate Ends(entries: FileLog, steps: seq<FileStep>, ok: bool, r: FileStep, first: bool, p: FileStep,
                       second: bool) {
    InTurn(entries, steps, ok) && (Did(entries, r) <==> first) && (Did(entries, p) <==> second)
  }

  // ---------------------------------------------------------------------------
  // The outcomes of a transaction
  // ---------------------------------------------------------------------------

  lemma IsNotStarted(op: Operation, a: Answers, j: Journal, w: World)
    requires InTurn(j.start, [LockFiles, ReadRules, ReadPauses], false)
    requires j.mutation == j.saving == j.undoing == []
    ensures Transaction(op, a, PreferenceRuns.Refuse(0), NotStarted, j, w, w)
  {
    hide InTurn, Changes, SavedEverywhere, Undone, Answer, DoneAsAsked, SavedAsAsked;
  }

  lemma IsRefused(op: Operation, a: Answers, r: Result<Option<Forward>, Error>, j: Journal, w: World, w': World)
    requires r.Err? && !op.OpLocalPort? && w' == w.(log := w'.log)
    requires InTurn(j.start, [LockFiles, ReadRules, ReadPauses], true) && j.saving == j.undoing == []
    requires InTurn(j.mutation, MutationSteps(op), r != Err(PausesUnreadable))
    requires if r == Err(PausesUnreadable) then w'.log == w.log
             else var call := CallOf(op, PortsIn(w.paused), a);
                  r == Answer(w.registry, call) && w'.log == w.log + Asks(w.registry, call)
    ensures Transaction(op, a, PreferenceRuns.Refuse(0), Served(r), j, w, w')
  {
    hide InTurn, Changes, SavedEverywhere, Undone, Answer, Asks, CallOf, DoneAsAsked, SavedAsAsked, MutationSteps;
  }

  /** What the mutation has established when something is to be saved. */
  ghost predicate Begun(op: Operation, a: Answers, r: Result<Option<Forward>, Error>, j: Journal, w: World) {
    && InTurn(j.start, [LockFiles, ReadRules, ReadPauses], true) && InTurn(j.mutation, MutationSteps(op), true)
    && j.saving == j.undoing == []
    && Entries(w.registry.forwards, w.registry.next) && w.registry.next < U64_MAX
    && (r.Ok? || op.OpLocalPort?) && r != Err(PausesUnreadable)
    && var call := CallOf(op, PortsIn(w.paused), a);
       && j.changed == Step(w.registry, call) && r == Answer(w.registry, call)
       && (r.Ok? ==> DoneAsAsked(w.registry, op, PortsIn(w.paused), r.value, j.changed))
  }

  lemma HasBegun(op: Operation, a: Answers, r: Result<Option<Forward>, Error>, j: Journal, w: World)
    requires InTurn(j.start, [LockFiles, ReadRules, ReadPauses], true) && InTurn(j.mutation, MutationSteps(op), true)
    requires j.saving == j.undoing == []
    requires Entries(w.registry.forwards, w.registry.next) && w.registry.next < U64_MAX
    requires (r.Ok? || op.OpLocalPort?) && r != Err(PausesUnreadable)
    requires var call := CallOf(op, PortsIn(w.paused), a);
             && j.changed == Step(w.registry, call) && r == Answer(w.registry, call)
             && (r.Ok? ==> DoneAsAsked(w.registry, op, PortsIn(w.paused), r.value, j.changed))
    ensures Begun(op, a, r, j, w)
  {
    hide InTurn, MutationSteps, Entries, CallOf, Step, Answer, DoneAsAsked;
  }

  lemma BegunMeans(op: Operation, a: Answers, r: Result<Option<Forward>, Error>, j: Journal, w: World)
    requires Begun(op, a, r, j, w)
    ensures InTurn(j.start, [LockFiles, ReadRules, ReadPauses], true) && InTurn(j.mutation, MutationSteps(op), true)
    ensures j.saving == j.undoing == []
    ensures Entries(w.registry.forwards, w.registry.next) && w.registry.next < U64_MAX
    ensures DistinctPorts(w.registry.forwards)
    ensures (r.Ok? || op.OpLocalPort?) && r != Err(PausesUnreadable)
    ensures var call := CallOf(op, PortsIn(w.paused), a);
            && j.changed == Step(w.registry, call) && r == Answer(w.registry, call)
            && (r.Ok? ==> DoneAsAsked(w.registry, op, PortsIn(w.paused), r.value, j.changed))
  {
    hide InTurn, MutationSteps, Entries, CallOf, Step, Answer, DoneAsAsked, DistinctPorts;
    EntriesBounds(w.registry.forwards, w.registry.next);
  }

  /** What the mutation and the saving have established. */
  ghost predicate Saving(op: Operation, a: Answers, j: Journal, w: World, ok: bool) {
    && InTurn(j.start, [LockFiles, ReadRules, ReadPauses], true)
    && InTurn(j.mutation, MutationSteps(op), true)
    && InTurn(j.saving, SavingSteps(j.rules, j.ports, j.changed.forwards), ok)
    && Changes(op, a, j, w)
  }

  lemma IsSaving(op: Operation, a: Answers, r: Result<Option<Forward>, Error>, j: Journal, w: World, ok: bool)
    requires InTurn(j.start, [LockFiles, ReadRules, ReadPauses], true) && InTurn(j.mutation, MutationSteps(op), true)
    requires InTurn(j.saving, SavingSteps(j.rules, j.ports, j.changed.forwards), ok)
    requires r == Answer(w.registry, CallOf(op, PortsIn(w.paused), a)) && (r.Ok? || op.OpLocalPort?)
    requires j.changed == Step(w.registry, CallOf(op, PortsIn(w.paused), a))
    requires MergedRules(w.registry.forwards, j.changed.forwards, RulesIn(w.manual), j.rules)
    requires MergedPauses(w.registry.forwards, j.changed.forwards, PortsIn(w.paused), j.ports)
    ensures Saving(op, a, j, w, ok)
  {
    hide MergedRules, MergedPauses, Step, CallOf, Answer, Failed, MutationSteps, InTurn, SavingSteps;
    FailedMeans(w.registry, CallOf(op, PortsIn(w.paused), a));
  }

  lemma IsCommitted(op: Operation, a: Answers, r: Result<Option<Forward>, Error>, j: Journal, w: World, w': World)
    requires Saving(op, a, j, w, true) && j.undoing == []
    requires Entries(w.registry.forwards, w.registry.next) && w.registry.next < U64_MAX
    requires DistinctPorts(w.registry.forwards)
    requires (r.Ok? || op.OpLocalPort?) && r != Err(PausesUnreadable)
    requires r == Answer(w.registry, CallOf(op, PortsIn(w.paused), a))
    requires r.Ok? ==> DoneAsAsked(w.registry, op, PortsIn(w.paused), r.value, w'.registry)
    requires w' == World(j.changed, Saved(j.rules), Saved(j.ports), Saved(j.changed.forwards),
                         w.log + Asks(w.registry, CallOf(op, PortsIn(w.paused), a)))
    ensures Transaction(op, a, PreferenceRuns.Commit(0, op, a), Served(r), j, w, w')
  {
    hide Entries, SavedAsAsked, DistinctPorts, MergedRules, MergedPauses, Step, CallOf, Asks, Answer, Failed,
         DoneAsAsked, MutationSteps, Undone;
    CommitSaves(w.registry, op, PortsIn(w.paused), a, RulesIn(w.manual), j.rules, j.ports);
    assert j.saving[2] == Attempted(WriteRules(Saved(j.rules)), true);
    assert j.saving[3] == Attempted(WritePauses(Saved(j.ports)), true);
  }

  lemma IsUndone(op: Operation, a: Answers, action: PreferenceRuns.Action, outcome: Outcome, j: Journal,
                 w: World, middle: World, w': World)
    requires Saving(op, a, j, w, false) && w.registry.next < U64_MAX && DistinctPorts(w.registry.forwards)
    requires outcome.NotSaved? && action.Undo? && action.undone == outcome.tunnels
    requires action.op == op && action.answers == a
    requires action.rulesKept == (w'.manual != w.manual) && action.pausesKept == (w'.paused != w.paused)
    requires j.undoing ==
             [Attempted(WriteRules(w.manual), outcome.manual), Attempted(WritePauses(w.paused), outcome.paused),
              Attempted(WriteState(w'.registry.forwards), outcome.state)]
    requires w'.manual == if outcome.manual then w.manual
                          else if Did(j.saving, WriteRules(Saved(j.rules))) then Saved(j.rules) else w.manual
    requires w'.paused == if outcome.paused then w.paused
                          else if Did(j.saving, WritePauses(Saved(j.ports))) then Saved(j.ports) else w.paused
    requires w'.state == if outcome.state then Saved(w'.registry.forwards) else w.state
    requires RestoreStep(j.changed, w.registry.forwards, w.registry.next, outcome.tunnels, action.cancels,
                         action.opens, w'.registry)
    requires outcome.tunnels ==> w'.registry.forwards == w.registry.forwards
    requires middle.log == w.log + Asks(w.registry, CallOf(op, PortsIn(w.paused), a))
    requires AskedToRestore(j.changed.forwards, w.registry.forwards, action.cancels, action.opens, middle.log, w'.log)
    requires Inv(w.registry) ==>
               if outcome.tunnels then Inv(w'.registry) && w'.registry.live == w.registry.live
               else Backed(w'.registry.forwards, w'.registry.live)
    ensures Transaction(op, a, action, outcome, j, w, w')
  {
    hide MergedRules, MergedPauses, Step, CallOf, Asks, Answer, Failed, DoneAsAsked, SavedAsAsked, MutationSteps,
         InTurn, Did,
         RestoreStep, AskedToRestore, DistinctPorts, Inv, Backed;
  }

  lemma OtherErrors(s: State, op: Operation, paused: set<Port>, a: Answers)
    ensures Answer(s, CallOf(op, paused, a)) != Err(PausesUnreadable)
  {
    hide FirstUsable, Held;
  }

  lemma EntriesHaveDistinctKeys(fw: Forwards, next: nat)
    requires Entries(fw, next)
    ensures DistinctKeys(fw)
  {
    hide Issued, ForwardId;
    forall a, b | a in fw && b in fw && a != b
      ensures EntryKey(fw[a]) != EntryKey(fw[b])
    {
      assert WellFormedEntry(fw[a]) && WellFormedEntry(fw[b]);
      assert Target(fw[a]) != Target(fw[b]);
    }
  }
}

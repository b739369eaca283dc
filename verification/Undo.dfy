/** Undoing one mutation of the registry (the rollback of `mutate_and_persist` in
    src/bin/local/companion.rs), whatever SSH answers meanwhile. */
module Undo {
  import opened Detect
  import opened Model
  import opened RegistrySpec
  import opened RegistryProofs
  import opened RestoreSpec
  import opened Operations

  /** Whether what the mutation did stays: it was saved, or it failed without effect
      and nothing was to be saved. */
  ghost predicate Kept(s: State, op: Operation, paused: set<Port>, a: Answers, saved: bool) {
    saved || (Failed(s, CallOf(op, paused, a)) && !op.OpLocalPort?)
  }

  /** One transaction as seen by the registry: a mutation, and its rollback if it
      could not be saved. */
  ghost predicate Transacted(s: State, op: Operation, paused: set<Port>, a: Answers, saved: bool,
                             undone: bool, cancels: set<string>, opens: set<string>, s': State)
    requires DistinctPorts(s.forwards)
  {
    var t := Step(s, CallOf(op, paused, a));
    if Kept(s, op, paused, a, saved) then s' == t
    else RestoreStep(t, s.forwards, s.next, undone, cancels, opens, s')
  }

  /** The tunnels a transaction leaves behind without an entry. */
  ghost function Leaked(s: State, op: Operation, paused: set<Port>, a: Answers, saved: bool,
                        cancels: set<string>, opens: set<string>): Tunnels
  {
    if Kept(s, op, paused, a, saved) then map[]
    else OutlivedTunnels(Step(s, CallOf(op, paused, a)), s.forwards, cancels, opens)
  }

  /** No mutation changes the endpoint of an entry. */
  lemma StepKeepsTargets(s: State, call: Call)
    requires Entries(s.forwards, s.next) && s.next < U64_MAX && !call.CallCloseAll?
    ensures SameTargets(Step(s, call).forwards, s.forwards)
  {
    hide Create, Entries, FirstUsable, PortTaken;
    if call.CallCreate? {
      CreateKeepsTargets(s, call.request, call.enabled, call.free, call.opens, call.now);
    }
  }

  lemma CreateKeepsTargets(s: State, r: ForwardRequest, enabled: bool, free: Port -> bool, opens: bool, now: nat)
    requires Entries(s.forwards, s.next) && s.next < U64_MAX
    ensures SameTargets(Create(s, r, enabled, free, opens, now).0.forwards, s.forwards)
  {
    hide Validate, Held, FirstUsable, ForwardId, Entries;
    CreateCases(s, r, enabled, free, opens, now);
    NextIdIsNew(s.forwards, s.next);
  }

  /** Undoing one mutation adds exactly the outlived tunnels to the strays; a truthful
      registry stays truthful if and only if there are none. */
  lemma UndoLeaks(s: State, call: Call, ok: bool, cancels: set<string>, opens: set<string>, undone: State)
    requires Entries(s.forwards, s.next) && s.next < U64_MAX && !call.CallCloseAll?
    requires DistinctPorts(s.forwards) && Backed(s.forwards, s.live)
    requires RestoreStep(Step(s, call), s.forwards, s.next, ok, cancels, opens, undone)
    ensures var outlived := OutlivedTunnels(Step(s, call), s.forwards, cancels, opens);
            && Unclaimed(undone.forwards, undone.live) == Unclaimed(s.forwards, s.live) + outlived
            && (ok ==> outlived == map[])
            && (Inv(s) ==> (Truthful(undone.forwards, undone.live) <==> outlived == map[]))
  {
    hide *;
    var changed := Step(s, call);
    StepKeepsInv(s, call);
    StepKeepsBacked(s, call);
    StepKeepsUnclaimed(s, call);
    StepKeepsTargets(s, call);
    EntriesBounds(changed.forwards, changed.next);
    EntriesTargets(s.forwards, s.next);
    UnclaimedAfterRestore(changed, s.forwards, s.next, ok, cancels, opens, undone);
    UndoKeepsEntries(s, call, changed, ok, cancels, opens, undone);
    InvMeans(s);
    TruthfulHasNoStrays(s.forwards, s.live);
    TruthfulHasNoStrays(undone.forwards, undone.live);
  }

  lemma EntriesTargets(fw: Forwards, next: nat)
    requires Entries(fw, next)
    ensures DistinctTargets(fw)
  {
  }

  /** Undoing one mutation: whatever SSH answers, the entries stay well formed and
      backed; when every call succeeds, everything is as it was. */
  lemma UndoKeepsEntries(s: State, call: Call, changed: State, ok: bool, cancels: set<string>,
                         opens: set<string>, undone: State)
    requires Entries(s.forwards, s.next) && s.next < U64_MAX && changed == Step(s, call) && !call.CallCloseAll?
    requires DistinctPorts(s.forwards)
    requires RestoreStep(changed, s.forwards, s.next, ok, cancels, opens, undone)
    ensures Entries(undone.forwards, undone.next)
    ensures ok ==> undone.forwards == s.forwards
    ensures Backed(s.forwards, s.live) ==> Backed(undone.forwards, undone.live)
    ensures Inv(s) ==> Backed(s.forwards, s.live)
    ensures Inv(s) && ok ==> Inv(undone) && undone.live == s.live
  {
    hide *;
    StepKeepsInv(s, call);
    StepCounts(s, call);
    StepChangesOne(s, call);
    EntriesBounds(changed.forwards, changed.next);
    var id := TheChange(s.forwards, changed.forwards);
    RestoreStepMeans(changed, s.forwards, s.next, ok, cancels, opens, undone);
    if ok {
      IssuedLaterEntries(s.forwards, s.next, undone.next);
    } else {
      PartialUndo(s, changed, id, cancels, opens);
    }
    InvMeans(s);
    InvMeans(changed);
    if Backed(s.forwards, s.live) {
      StepKeepsBacked(s, call);
      if ok {
        RestoredIsBacked(changed, s.forwards, s.next, cancels, opens, undone);
      } else {
        PartlyRestored(changed, s.forwards, cancels, opens);
      }
    }
    if Inv(s) && ok {
      RestoredExactly(changed, s.forwards, s.next, cancels, opens, undone);
      TruthfulIsExact(s.forwards, s.live);
    }
  }

  lemma EntriesBounds(fw: Forwards, next: nat)
    requires Entries(fw, next)
    ensures DistinctPorts(fw) && next <= U64_MAX
  {
  }

  lemma InvMeans(s: State)
    ensures Inv(s) <==> Entries(s.forwards, s.next) && Truthful(s.forwards, s.live)
    ensures Inv(s) ==> Backed(s.forwards, s.live)
    ensures Entries(s.forwards, s.next) ==> DistinctPorts(s.forwards) && s.next <= U64_MAX
  {
  }

  lemma IssuedLaterEntries(fw: Forwards, next: nat, next': nat)
    requires Entries(fw, next) && next <= next' <= U64_MAX
    ensures Entries(fw, next')
  {
    IssuedLater(fw, next, next');
  }

  lemma RestoreStepMeans(s: State, snapshot: Forwards, next: nat, ok: bool, cancels: set<string>,
                         opens: set<string>, s': State)
    requires DistinctPorts(snapshot) && RestoreStep(s, snapshot, next, ok, cancels, opens, s')
    ensures Possible(s.live, s.forwards, snapshot, cancels, opens)
    ensures cancels <= Unwanted(s.forwards, snapshot) && opens <= Unwanted(snapshot,
              s.forwards) && opens <= snapshot.Keys
    ensures s'.live == LiveAfter(s.live, s.forwards, snapshot, cancels, opens)
    ensures s'.forwards == if ok then snapshot else Mixed(s.forwards, snapshot, cancels, opens)
    ensures s'.next == if ok && next > s.next then next else s.next
  {
  }

  ghost predicate ChangesOne(before: Forwards, after: Forwards) {
    exists id :: OnlyChange(before, after, id)
  }

  ghost function TheChange(before: Forwards, after: Forwards): (id: string)
    requires ChangesOne(before, after)
    ensures OnlyChange(before, after, id)
  {
    var id :| OnlyChange(before, after, id); id
  }

  lemma NoCloseAll(op: Operation, paused: set<Port>, a: Answers)
    ensures !CallOf(op, paused, a).CallCloseAll?
  {
  }

  /** Every mutation except closing everything touches one entry. */
  lemma StepChangesOne(s: State, call: Call)
    requires Entries(s.forwards, s.next) && s.next < U64_MAX && !call.CallCloseAll?
    ensures ChangesOne(s.forwards, Step(s, call).forwards)
  {
    hide Create, Entries, FirstUsable, PortTaken, OnlyChange, Disabled, ChangesOne;
    match call
    case CallCreate(r, enabled, free, opens, now) => CreateChangesOne(s, r, enabled, free, opens, now);
    case CallRemove(id, _) => ChangedAt(s.forwards, Step(s, call).forwards, id);
    case CallSetEnabled(id, _, _, _, _) => ChangedAt(s.forwards, Step(s, call).forwards, id);
    case CallSetLocalPort(id, _, _, _, _, _, _) => ChangedAt(s.forwards, Step(s, call).forwards, id);
  }

  lemma ChangedAt(before: Forwards, after: Forwards, id: string)
    requires after == before || after == before - {id} || (id in after && after == before[id := after[id]])
    ensures OnlyChange(before, after, id) && ChangesOne(before, after)
  {
    assert OnlyChange(before, after, id);
  }

  lemma CreateChangesOne(s: State, r: ForwardRequest, enabled: bool, free: Port -> bool, opens: bool, now: nat)
    ensures ChangesOne(s.forwards, Create(s, r, enabled, free, opens, now).0.forwards)
  {
    hide Validate, Held, OnlyChange, ChangesOne, FirstUsable, ForwardId, Enriched, NewForward;
    var after := Create(s, r, enabled, free, opens, now).0.forwards;
    if Validate(r).None? && Held(s.forwards, RequestTarget(r)) {
      ChangedAt(s.forwards, after, Holder(s.forwards, RequestTarget(r)));
    } else if after == s.forwards {
      ChangedAt(s.forwards, after, "");
    } else {
      var f := CreateNew(s, r, enabled, free, opens, now).1.value.0;
      ChangedAt(s.forwards, after, f.id);
    }
  }

  /** A partial undo leaves the old entry, the new one, or the new one disabled. */
  lemma PartialUndo(s: State, changed: State, id: string, cancels: set<string>, opens: set<string>)
    requires Entries(s.forwards, s.next) && Entries(changed.forwards, changed.next) && s.next <= changed.next
    requires OnlyChange(s.forwards, changed.forwards, id)
    requires cancels <= Unwanted(changed.forwards, s.forwards) && opens <= Unwanted(s.forwards, changed.forwards)
    requires opens <= s.forwards.Keys
    ensures Entries(Mixed(changed.forwards, s.forwards, cancels, opens), changed.next)
  {
    hide *;
    var fw, snapshot := changed.forwards, s.forwards;
    forall other | other in cancels || other in opens
      ensures other == id
    {
      if other != id {
        OtherTunnelIsWanted(snapshot, fw, id, other);
        OtherTunnelIsWanted(fw, snapshot, id, other);
      }
    }
    EntriesBounds(fw, changed.next);
    UnwantedIsEntry(fw, snapshot);
    MixedOfOne(fw, snapshot, cancels, opens, id);
    if id in opens {
      IssuedLaterEntries(snapshot, s.next, changed.next);
    } else if id in cancels {
      DisableKeepsEntries(fw, changed.next, id);
    }
  }

  lemma UnwantedIsEntry(fw: Forwards, other: Forwards)
    ensures Unwanted(fw, other) <= fw.Keys
  {
  }

  lemma MixedOfOne(fw: Forwards, snapshot: Forwards, cancels: set<string>, opens: set<string>, id: string)
    requires OnlyChange(snapshot, fw, id) && cancels <= {id} && opens <= {id} && opens <= snapshot.Keys &&
             cancels <= fw.Keys
    ensures Mixed(fw, snapshot, cancels, opens) ==
            if id in opens then snapshot else if id in cancels then fw[id := Disabled(fw[id])] else fw
  {
  }

  lemma OtherTunnelIsWanted(fw: Forwards, other: Forwards, id: string, a: string)
    requires OnlyChange(fw, other, id) || OnlyChange(other, fw, id)
    requires a != id
    ensures a !in Unwanted(fw, other)
  {
    if a in fw && fw[a].enabled {
      assert HasTunnel(other, fw[a]) by { assert a in other && other[a] == fw[a]; }
    }
  }

  lemma DisableKeepsEntries(fw: Forwards, next: nat, id: string)
    requires Entries(fw, next) && id in fw
    ensures Entries(fw[id := Disabled(fw[id])], next)
  {
    EntryFacts(fw, next, id);
    ReplaceKeepsEntries(fw, next, id, Disabled(fw[id]));
  }
}

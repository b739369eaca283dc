/** A discovery pass in which every request succeeds brings the automatic entries in
    line with what the panes show, and a second pass on the same observation asks for
    nothing more. */
module Convergence {
  import opened Wrappers
  import opened Detect
  import opened Model
  import opened RegistrySpec
  import opened RegistryProofs
  import opened Operations
  import opened ForwardRegistry
  import opened Reconciliation

  /** Every port is listened on in one pane only. */
  ghost predicate OneOwner(panes: Observation) {
    forall a, b, port :: a in panes && b in panes && port in panes[a].listeners && port in panes[b].listeners ==> a == b
  }

  /** The entries that a pass does not delete. */
  function Remaining(fw: Forwards, panes: Observation): Forwards {
    map id | id in fw && !Gone(fw[id], panes) :: fw[id]
  }

  // ---------------------------------------------------------------------------
  // What the deletions and creations of a successful pass amount to
  // ---------------------------------------------------------------------------

  lemma {:induction false} WorkJoins(s: State, first: seq<Operation>, second: seq<Operation>, paused: set<Port>,
                                     trace: seq<Option<Answers>>)
    requires |trace| == |first| + |second|
    ensures var t := Work(s, first, paused, trace[..|first|]);
            && Work(s, first + second, paused, trace) == Work(t, second, paused, trace[|first|..])
            && Refusals(s, first + second, paused, trace) ==
               Refusals(s, first, paused, trace[..|first|]) + Refusals(t, second, paused, trace[|first|..])
  {
    hide Work, Refusals, Served, Works, WorkAsks, ServedAsks, Deliveries;
    var n := |first|;
    if second == [] {
      assert first + second == first && trace[..n] == trace && trace[n..] == [];
      NoWork(Work(s, first, paused, trace), paused);
    } else {
      var m := |second| - 1;
      WorkJoins(s, first, second[..m], paused, trace[..n + m]);
      assert trace[..n + m][..n] == trace[..n] && trace[..n + m][n..] == trace[n..][..m];
      WorkOneMore(s, first + second[..m], paused, trace[..n + m], second[m], trace[n + m]);
      WorkOneMore(Work(s, first, paused, trace[..n]), second[..m], paused, trace[n..][..m], second[m], trace[n + m]);
      assert first + second[..m] + [second[m]] == first + second && trace[..n + m] + [trace[n + m]] == trace;
      assert second[..m] + [second[m]] == second && trace[n..][..m] + [trace[n + m]] == trace[n..];
    }
  }

  function DropAll(fw: Forwards, ids: seq<string>): Forwards {
    map id | id in fw && id !in ids :: fw[id]
  }

  lemma DropOneMore(fw: Forwards, ids: seq<string>, id: string)
    ensures DropAll(fw, ids) - {id} == DropAll(fw, ids + [id])
  {
  }

  lemma {:induction false} RemovalsLeave(s: State, ids: seq<string>, paused: set<Port>, trace: seq<Option<Answers>>)
    requires |trace| == |ids| == |Jobs(ids, [])|
    requires Entries(s.forwards, s.next) && s.next + |ids| < U64_MAX
    requires Refusals(s, Jobs(ids, []), paused, trace) == []
    ensures var t := Work(s, Jobs(ids, []), paused, trace);
            && t.forwards == DropAll(s.forwards, ids)
            && Entries(t.forwards, t.next) && t.next <= s.next + |ids|
  {
    hide *;
    if ids == [] {
      NoRemovals(s, paused);
    } else {
      var n := |ids| - 1;
      var front := Jobs(ids[..n], []);
      assert ids == ids[..n] + [ids[n]] && trace == trace[..n] + [trace[n]];
      LastRemoval(ids[..n], ids[n]);
      WorkOneMore(s, front, paused, trace[..n], OpRemove(ids[n]), trace[n]);
      RemovalsLeave(s, ids[..n], paused, trace[..n]);
      var t := Work(s, front, paused, trace[..n]);
      RemovalLeaves(t, ids[n], paused, trace[n]);
      DropOneMore(s.forwards, ids[..n], ids[n]);
    }
  }

  lemma NoRemovals(s: State, paused: set<Port>)
    ensures Jobs([], []) == [] && Work(s, [], paused, []) == s && DropAll(s.forwards, []) == s.forwards
  {
  }

  lemma LastRemoval(ids: seq<string>, id: string)
    ensures Jobs(ids + [id], []) == Jobs(ids, []) + [OpRemove(id)]
    ensures |Jobs(ids, [])| == |ids| && U64_MAX == 0xffff_ffff_ffff_ffff
  {
  }

  lemma RemovalLeaves(s: State, id: string, paused: set<Port>, a: Option<Answers>)
    requires Entries(s.forwards, s.next) && s.next < U64_MAX
    requires Works(s, OpRemove(id), paused, a)
    ensures var t := Served(s, OpRemove(id), paused, a);
            t.forwards == s.forwards - {id} && Entries(t.forwards, t.next) && t.next <= s.next + 1
  {
    hide Entries;
    StepKeepsInv(s, CallOf(OpRemove(id), paused, a.value));
  }

  /** Another look at the same listener changes only what is known about the server. */
  ghost predicate SameSource(f: Forward, g: Forward) {
    g == f.(serverStartedAt := g.serverStartedAt, processId := g.processId, tunnelOpenedAt := g.tunnelOpenedAt)
  }

  ghost predicate Asked(creations: seq<ForwardRequest>, e: Endpoint) {
    exists i :: 0 <= i < |creations| && RequestTarget(creations[i]) == e
  }

  ghost predicate AnsweredBy(fw: Forwards, r: ForwardRequest, fw': Forwards, id: string) {
    && id in fw' && Target(fw'[id]) == RequestTarget(r) && fw'[id].processId == r.processId
    && (id !in fw ==> fw'[id].automatic == r.automatic && fw'[id].paneId == r.paneId)
  }

  ghost predicate Answered(fw: Forwards, r: ForwardRequest, fw': Forwards) {
    exists id :: AnsweredBy(fw, r, fw', id)
  }

  ghost predicate NewFor(r: ForwardRequest, f: Forward) {
    && Target(f) == RequestTarget(r) && f.paneId == r.paneId
    && f.automatic == r.automatic && f.processId == r.processId
  }

  ghost predicate Requested(creations: seq<ForwardRequest>, f: Forward) {
    exists i :: 0 <= i < |creations| && NewFor(creations[i], f)
  }

  /** The entries after these creations: requested endpoints are there and know the
      process; everything else is as before. */
  ghost predicate CreatedFrom(fw: Forwards, creations: seq<ForwardRequest>, fw': Forwards) {
    && (forall id :: id in fw ==> id in fw' && SameSource(fw[id], fw'[id]))
    && (forall id :: id in fw && !Asked(creations, Target(fw[id])) ==> fw'[id] == fw[id])
    && (forall i :: 0 <= i < |creations| ==> Answered(fw, creations[i], fw'))
    && (forall id :: id in fw' && id !in fw ==> Requested(creations, fw'[id]))
  }

  lemma NothingCreated(fw: Forwards)
    ensures CreatedFrom(fw, [], fw)
  {
  }

  lemma AskedOneMore(creations: seq<ForwardRequest>, r: ForwardRequest, e: Endpoint)
    ensures Asked(creations + [r], e) <==> Asked(creations, e) || RequestTarget(r) == e
  {
    assert (creations + [r])[|creations|] == r;
    if Asked(creations, e) {
      var i :| 0 <= i < |creations| && RequestTarget(creations[i]) == e;
      assert RequestTarget((creations + [r])[i]) == e;
    }
  }

  lemma RequestedOneMore(creations: seq<ForwardRequest>, r: ForwardRequest, f: Forward)
    requires Requested(creations, f) || NewFor(r, f)
    ensures Requested(creations + [r], f)
  {
    if NewFor(r, f) {
      assert NewFor((creations + [r])[|creations|], f);
    } else {
      var i :| 0 <= i < |creations| && NewFor(creations[i], f);
      assert NewFor((creations + [r])[i], f);
    }
  }

  /** One creation more, once it is known which entry it wrote. */
  lemma CreatedOneMore(fw: Forwards, creations: seq<ForwardRequest>, middle: Forwards, r: ForwardRequest,
                       id: string, g: Forward)
    requires CreatedFrom(fw, creations, middle) && DistinctTargets(middle)
    requires !Asked(creations, RequestTarget(r))
    requires id in middle ==> SameSource(middle[id], g)
    requires id !in middle ==> g.automatic == r.automatic && g.paneId == r.paneId
    requires Target(g) == RequestTarget(r) && g.processId == r.processId
    ensures CreatedFrom(fw, creations + [r], middle[id := g])
  {
    hide RequestTarget, Asked, Answered, Requested, DistinctTargets;
    var more, after := creations + [r], middle[id := g];
    if id in middle && id !in fw {
      assert Requested(creations, middle[id]);
      RequestedMeansAsked(creations, middle[id]);
    }
    forall other | other in fw && !Asked(more, Target(fw[other]))
      ensures after[other] == fw[other]
    {
      AskedOneMore(creations, r, Target(fw[other]));
      assert SameSource(fw[other], middle[other]);
    }
    forall i | 0 <= i < |more|
      ensures Answered(fw, more[i], after)
    {
      if i < |creations| {
        assert Answered(fw, creations[i], middle);
        StillAnswered(fw, creations, i, middle, r, id, g);
      } else {
        AnsweredNow(fw, r, after, id);
      }
    }
    forall other | other in after && other !in fw
      ensures Requested(more, after[other])
    {
      if other == id {
        RequestedOneMore(creations, r, g);
      } else {
        RequestedOneMore(creations, r, middle[other]);
      }
    }
  }

  lemma RequestedMeansAsked(creations: seq<ForwardRequest>, f: Forward)
    requires Requested(creations, f)
    ensures Asked(creations, Target(f))
  {
    var i :| 0 <= i < |creations| && NewFor(creations[i], f);
    assert RequestTarget(creations[i]) == Target(f);
  }

  lemma AnsweredNow(fw: Forwards, r: ForwardRequest, fw': Forwards, id: string)
    requires AnsweredBy(fw, r, fw', id)
    ensures Answered(fw, r, fw')
  {
  }

  lemma StillAnswered(fw: Forwards, creations: seq<ForwardRequest>, i: nat, middle: Forwards,
                      r: ForwardRequest, id: string, g: Forward)
    requires i < |creations| && Answered(fw, creations[i], middle) && !Asked(creations, RequestTarget(r))
    requires id in middle ==> Target(middle[id]) == RequestTarget(r)
    ensures Answered(fw, creations[i], middle[id := g])
  {
    var other :| AnsweredBy(fw, creations[i], middle, other);
    assert other != id;
    assert AnsweredBy(fw, creations[i], middle[id := g], other);
  }

  /** What a successful creation writes. */
  lemma CreationWrites(s: State, r: ForwardRequest, paused: set<Port>, a: Answers) returns (id: string, g: Forward)
    requires Entries(s.forwards, s.next) && s.next < U64_MAX
    requires !Failed(s, CallOf(OpCreate(r), paused, a)) && r.processId.Some?
    ensures Step(s, CallOf(OpCreate(r), paused, a)).forwards == s.forwards[id := g]
    ensures id in s.forwards ==> SameSource(s.forwards[id], g)
    ensures id !in s.forwards ==> g.automatic == r.automatic && g.paneId == r.paneId
    ensures Target(g) == RequestTarget(r) && g.processId == r.processId
  {
    hide Validate, Held, Create, CreateNew, ForwardId, Entries;
    var enabled := StartsEnabled(r, paused);
    CreateCases(s, r, enabled, a.free, a.first, a.now);
    if Held(s.forwards, RequestTarget(r)) {
      id := Holder(s.forwards, RequestTarget(r));
      g := Enriched(s.forwards[id], r, a.now);
    } else {
      id, g := NewEntryWritten(s, r, enabled, a.free, a.first, a.now);
    }
  }

  lemma NewEntryWritten(s: State, r: ForwardRequest, enabled: bool, free: Port -> bool, opens: bool, now: nat)
    returns (id: string, g: Forward)
    requires Entries(s.forwards, s.next) && s.next < U64_MAX
    requires CreateNew(s, r, enabled, free, opens, now).1.Ok?
    ensures CreateNew(s, r, enabled, free, opens, now).0.forwards == s.forwards[id := g] && id !in s.forwards
    ensures g.automatic == r.automatic && g.paneId == r.paneId && g.processId == r.processId
    ensures Target(g) == RequestTarget(r)
  {
    hide ForwardId, FirstUsable, Entries;
    NextIdIsNew(s.forwards, s.next);
    g := CreateNew(s, r, enabled, free, opens, now).1.value.0;
    id := g.id;
  }

  ghost predicate DistinctRequests(creations: seq<ForwardRequest>) {
    && (forall i, j :: 0 <= i < j < |creations| ==> RequestTarget(creations[i]) != RequestTarget(creations[j]))
    && (forall i :: 0 <= i < |creations| ==> creations[i].processId.Some?)
  }

  lemma {:induction false} CreationsLeave(s: State, creations: seq<ForwardRequest>, paused: set<Port>,
                                          trace: seq<Option<Answers>>)
    requires |trace| == |creations| == |Jobs([], creations)| && DistinctRequests(creations)
    requires Entries(s.forwards, s.next) && s.next + |creations| < U64_MAX
    requires Refusals(s, Jobs([], creations), paused, trace) == []
    ensures var t := Work(s, Jobs([], creations), paused, trace);
            && CreatedFrom(s.forwards, creations, t.forwards)
            && Entries(t.forwards, t.next) && t.next <= s.next + |creations|
  {
    hide Entries, Step, CallOf, Failed, CreatedFrom, Asked, RequestTarget, DistinctTargets, WorkAsks, ServedAsks,
         Deliveries;
    if creations == [] {
      NothingCreated(s.forwards);
    } else {
      var n := |creations| - 1;
      var front := Jobs([], creations[..n]);
      assert Jobs([], creations) == front + [OpCreate(creations[n])];
      assert trace == trace[..n] + [trace[n]];
      WorkOneMore(s, front, paused, trace[..n], OpCreate(creations[n]), trace[n]);
      CreationsLeave(s, creations[..n], paused, trace[..n]);
      var t := Work(s, front, paused, trace[..n]);
      var call := CallOf(OpCreate(creations[n]), paused, trace[n].value);
      var id, g := CreationWrites(t, creations[n], paused, trace[n].value);
      NotAsked(creations, n);
      EntriesTargets(t.forwards, t.next);
      CreatedOneMore(s.forwards, creations[..n], t.forwards, creations[n], id, g);
      assert creations == creations[..n] + [creations[n]];
      StepKeepsInv(t, call);
      StepCounts(t, call);
    }
  }

  lemma NotAsked(creations: seq<ForwardRequest>, n: nat)
    requires DistinctRequests(creations) && n < |creations|
    ensures !Asked(creations[..n], RequestTarget(creations[n]))
  {
    hide RequestTarget;
  }

  lemma EntriesTargets(fw: Forwards, next: nat)
    requires Entries(fw, next)
    ensures DistinctTargets(fw)
  {
  }

  // ---------------------------------------------------------------------------
  // After a successful pass
  // ---------------------------------------------------------------------------

  /** What a successful pass over `fw` makes of the entries. */
  ghost predicate Passed(fw: Forwards, panes: Observation, detected: seq<ForwardRequest>, fw': Forwards) {
    && WellObserved(panes) && OneOwner(panes) && IsDetection(panes, detected)
    && DistinctTargets(fw) && DistinctTargets(fw')
    && CreatedFrom(Remaining(fw, panes), RequestsToCreate(detected, fw), fw')
  }

  lemma {:induction false} CreatedAreUncovered(detected: seq<ForwardRequest>, fw: Forwards)
    ensures forall r :: r in RequestsToCreate(detected, fw) <==> r in detected && !Covered(fw, r)
    ensures forall r :: Covered(fw, r) <==>
                          exists id :: id in fw && fw[id].automatic && fw[id].paneId == r.paneId
                                       && fw[id].remotePort == r.remotePort && fw[id].processId == r.processId
  {
    forall r
      ensures Covered(fw, r) <==>
              exists id :: id in fw && fw[id].automatic && fw[id].paneId == r.paneId
                           && fw[id].remotePort == r.remotePort && fw[id].processId == r.processId
    {
    }
    hide Covered;
    if detected != [] {
      CreatedAreUncovered(detected[..|detected| - 1], fw);
    }
  }

  /** Two listeners on one port are the same listener. */
  lemma SamePort(panes: Observation, r: ForwardRequest, other: ForwardRequest)
    requires OneOwner(panes) && Shown(panes, r) && Shown(panes, other) && r.remotePort == other.remotePort
    ensures r == other
  {
    hide Detected;
  }

  lemma ShownRequest(panes: Observation, detected: seq<ForwardRequest>, r: ForwardRequest)
    requires WellObserved(panes) && IsDetection(panes, detected) && r in detected
    ensures Shown(panes, r) && r.automatic && r.processId.Some? && r.processId.value in panes[r.paneId].pids
  {
    hide LoopbackUrl;
  }

  /** An automatic entry that stays is on a port its pane listens on. */
  lemma KeptEntryOwner(panes: Observation, f: Forward, r: ForwardRequest)
    requires OneOwner(panes) && Shown(panes, r) && f.automatic && !Gone(f, panes) && f.remotePort == r.remotePort
    ensures f.paneId == r.paneId
  {
    hide Detected, ProcessChanged;
  }

  lemma CoveringEntryStays(panes: Observation, f: Forward, r: ForwardRequest)
    requires Shown(panes, r) && r.processId.Some? && r.processId.value in panes[r.paneId].pids && CoveredBy(f, r)
    ensures !Gone(f, panes)
  {
    hide Detected;
  }

  /** An entry that stays changes only when its own, uncovered listener is requested. */
  lemma ChangedEntry(fw: Forwards, panes: Observation, detected: seq<ForwardRequest>, fw': Forwards, id: string)
    returns (r: ForwardRequest)
    requires Passed(fw, panes, detected, fw') && id in Remaining(fw, panes) && fw'[id] != fw[id]
    ensures r in detected && !Covered(fw, r) && RequestTarget(r) == Target(fw[id]) && fw'[id].processId == r.processId
  {
    hide Covered, Gone, WellObserved, OneOwner, IsDetection, RequestTarget, DistinctTargets;
    var creations := RequestsToCreate(detected, fw);
    assert Asked(creations, Target(fw[id]));
    var i :| 0 <= i < |creations| && RequestTarget(creations[i]) == Target(fw[id]);
    r := creations[i];
    CreatedAreUncovered(detected, fw);
    assert Answered(Remaining(fw, panes), r, fw');
    var other :| AnsweredBy(Remaining(fw, panes), r, fw', other);
    assert SameSource(fw[id], fw'[id]);
    SameHolder(fw', id, other);
  }

  lemma SameHolder(fw: Forwards, a: string, b: string)
    requires DistinctTargets(fw) && a in fw && b in fw && Target(fw[a]) == Target(fw[b])
    ensures a == b
  {
  }

  /** A new entry belongs to an uncovered listener. */
  lemma NewEntry(fw: Forwards, panes: Observation, detected: seq<ForwardRequest>, fw': Forwards, id: string)
    returns (r: ForwardRequest)
    requires Passed(fw, panes, detected, fw') && id in fw' && id !in Remaining(fw, panes)
    ensures r in detected && !Covered(fw, r) && NewFor(r, fw'[id])
  {
    hide Covered, Gone, WellObserved, OneOwner, IsDetection, DistinctTargets, NewFor;
    var creations := RequestsToCreate(detected, fw);
    assert Requested(creations, fw'[id]);
    var i :| 0 <= i < |creations| && NewFor(creations[i], fw'[id]);
    r := creations[i];
    CreatedAreUncovered(detected, fw);
  }

  lemma StaysAsSource(fw: Forwards, panes: Observation, detected: seq<ForwardRequest>, fw': Forwards, id: string)
    requires Passed(fw, panes, detected, fw') && id in Remaining(fw, panes)
    ensures id in fw' && id in fw && SameSource(fw[id], fw'[id]) && !Gone(fw[id], panes)
  {
    hide Gone, WellObserved, OneOwner, IsDetection, DistinctTargets, RequestsToCreate;
  }

  /** Nothing is left to delete. */
  lemma NothingIsGone(fw: Forwards, panes: Observation, detected: seq<ForwardRequest>, fw': Forwards, id: string)
    requires Passed(fw, panes, detected, fw') && id in fw'
    ensures !Gone(fw'[id], panes)
  {
    hide Detected, Covered, IsDetection, WellObserved, DistinctTargets, CreatedFrom, RequestsToCreate, OneOwner;
    if id !in Remaining(fw, panes) {
      var r := NewEntry(fw, panes, detected, fw', id);
      ShownRequest(panes, detected, r);
    } else {
      StaysAsSource(fw, panes, detected, fw', id);
      if fw'[id] != fw[id] {
        var r := ChangedEntry(fw, panes, detected, fw', id);
        ShownRequest(panes, detected, r);
        if fw[id].automatic {
          KeptEntryOwner(panes, fw[id], r);
        }
      }
    }
  }

  ghost predicate ManualHolds(fw: Forwards, e: Endpoint) {
    exists id :: Holds(fw, e, id) && !fw[id].automatic
  }

  lemma CoveredAt(fw: Forwards, id: string, r: ForwardRequest)
    requires id in fw && CoveredBy(fw[id], r)
    ensures Covered(fw, r)
  {
  }

  lemma CoveredStays(fw: Forwards, panes: Observation, detected: seq<ForwardRequest>, fw': Forwards,
                     r: ForwardRequest)
    requires Passed(fw, panes, detected, fw') && r in detected && Covered(fw, r)
    ensures Covered(fw', r)
  {
    hide Detected, IsDetection, WellObserved, DistinctTargets, CreatedFrom, RequestsToCreate, OneOwner, Gone;
    var id :| id in fw && CoveredBy(fw[id], r);
    ShownRequest(panes, detected, r);
    CoveringEntryStays(panes, fw[id], r);
    StaysAsSource(fw, panes, detected, fw', id);
    if fw'[id] != fw[id] {
      var other := ChangedEntry(fw, panes, detected, fw', id);
      ShownRequest(panes, detected, other);
      SamePort(panes, r, other);
    }
    CoveredAt(fw', id, r);
  }

  lemma RequestIsAnswered(fw: Forwards, panes: Observation, detected: seq<ForwardRequest>, fw': Forwards,
                          r: ForwardRequest)
    returns (id: string)
    requires Passed(fw, panes, detected, fw') && r in detected && !Covered(fw, r)
    ensures AnsweredBy(Remaining(fw, panes), r, fw', id)
  {
    hide Covered, Gone, WellObserved, OneOwner, IsDetection, DistinctTargets, AnsweredBy;
    CreatedAreUncovered(detected, fw);
    var creations := RequestsToCreate(detected, fw);
    var i :| 0 <= i < |creations| && creations[i] == r;
    assert Answered(Remaining(fw, panes), r, fw');
    id :| AnsweredBy(Remaining(fw, panes), r, fw', id);
  }

  lemma UncoveredBecomesCovered(fw: Forwards, panes: Observation, detected: seq<ForwardRequest>, fw': Forwards,
                                r: ForwardRequest)
    requires Passed(fw, panes, detected, fw') && r in detected && !Covered(fw, r) && !ManualHolds(fw, RequestTarget(r))
    ensures Covered(fw', r)
  {
    hide Detected, IsDetection, WellObserved, DistinctTargets, CreatedFrom, RequestsToCreate, OneOwner, Gone, Covered;
    var id := RequestIsAnswered(fw, panes, detected, fw', r);
    ShownRequest(panes, detected, r);
    if id in Remaining(fw, panes) {
      StaysAsSource(fw, panes, detected, fw', id);
      assert Holds(fw, RequestTarget(r), id);
      assert fw[id].automatic;
      KeptEntryOwner(panes, fw[id], r);
    }
    CoveredAt(fw', id, r);
  }

  lemma ManualStaysUncovered(fw: Forwards, panes: Observation, detected: seq<ForwardRequest>, fw': Forwards,
                             r: ForwardRequest)
    requires Passed(fw, panes, detected, fw') && r in detected && !Covered(fw, r) && ManualHolds(fw, RequestTarget(r))
    ensures !Covered(fw', r)
  {
    hide Detected, IsDetection, WellObserved, CreatedFrom, RequestsToCreate, OneOwner, ProcessChanged, DistinctTargets;
    var manual :| Holds(fw, RequestTarget(r), manual) && !fw[manual].automatic;
    assert manual in Remaining(fw, panes);
    StaysAsSource(fw, panes, detected, fw', manual);
    ShownRequest(panes, detected, r);
    forall id | id in fw' && CoveredBy(fw'[id], r)
      ensures false
    {
      var other := CoverComesFrom(fw, panes, detected, fw', id, r);
      SameHolder(fw', id, manual);
    }
  }

  /** An entry that covers a listener only since the pass has its endpoint. */
  lemma CoverComesFrom(fw: Forwards, panes: Observation, detected: seq<ForwardRequest>, fw': Forwards,
                       id: string, r: ForwardRequest)
    returns (other: ForwardRequest)
    requires Passed(fw, panes, detected, fw') && r in detected && !Covered(fw, r) && id in fw' && CoveredBy(fw'[id], r)
    ensures other == r && Target(fw'[id]) == RequestTarget(r)
  {
    hide Detected, IsDetection, WellObserved, CreatedFrom, RequestsToCreate, OneOwner, Gone, DistinctTargets, Covered;
    ShownRequest(panes, detected, r);
    if id !in Remaining(fw, panes) {
      other := NewEntry(fw, panes, detected, fw', id);
    } else {
      StaysAsSource(fw, panes, detected, fw', id);
      if fw'[id] == fw[id] {
        CoveredAt(fw, id, r);
      }
      other := ChangedEntry(fw, panes, detected, fw', id);
    }
    ShownRequest(panes, detected, other);
    SamePort(panes, r, other);
  }

  /** What is covered after a pass: every detected listener, except those whose
      endpoint a manual entry holds. */
  lemma CoverageAfterPass(fw: Forwards, panes: Observation, detected: seq<ForwardRequest>, fw': Forwards,
                          r: ForwardRequest)
    requires Passed(fw, panes, detected, fw') && r in detected
    ensures Covered(fw', r) <==> Covered(fw, r) || !ManualHolds(fw, RequestTarget(r))
  {
    hide *;
    if Covered(fw, r) {
      CoveredStays(fw, panes, detected, fw', r);
    } else if ManualHolds(fw, RequestTarget(r)) {
      ManualStaysUncovered(fw, panes, detected, fw', r);
    } else {
      UncoveredBecomesCovered(fw, panes, detected, fw', r);
    }
  }

  ghost predicate ManualInTheWay(fw: Forwards, detected: seq<ForwardRequest>) {
    exists r :: r in detected && !Covered(fw, r) && ManualHolds(fw, RequestTarget(r))
  }

  /** A second pass on the same observation deletes nothing, and it requests nothing
      if and only if no manual entry sits on a detected endpoint. */
  lemma SecondPassIsQuiet(fw: Forwards, panes: Observation, detected: seq<ForwardRequest>, fw': Forwards,
                          deletions: seq<string>, again: seq<ForwardRequest>)
    requires Passed(fw, panes, detected, fw')
    requires IsDeletion(fw', panes, deletions) && IsDetection(panes, again)
    ensures deletions == []
    ensures RequestsToCreate(again, fw') == [] <==> !ManualInTheWay(fw, detected)
  {
    hide Passed, Gone, Covered, ManualHolds, RequestsToCreate, RequestTarget;
    if deletions != [] {
      NothingIsGone(fw, panes, detected, fw', deletions[0]);
    }
    SameDetection(fw, panes, detected, fw', again);
    CreatedAreUncovered(again, fw');
    forall r | r in detected
      ensures Covered(fw', r) <==> Covered(fw, r) || !ManualHolds(fw, RequestTarget(r))
    {
      CoverageAfterPass(fw, panes, detected, fw', r);
    }
    if RequestsToCreate(again, fw') != [] {
      assert RequestsToCreate(again, fw')[0] in detected;
    }
  }

  lemma SameDetection(fw: Forwards, panes: Observation, detected: seq<ForwardRequest>, fw': Forwards,
                      again: seq<ForwardRequest>)
    requires Passed(fw, panes, detected, fw') && IsDetection(panes, again)
    ensures forall r :: r in again <==> r in detected
  {
    hide Detected, WellObserved, OneOwner, CreatedFrom, DistinctTargets;
    forall r
      ensures r in again <==> r in detected
    {
      if r in again {
        var i :| 0 <= i < |again| && again[i] == r;
        assert Shown(panes, again[i]);
      }
      if r in detected {
        var i :| 0 <= i < |detected| && detected[i] == r;
        assert Shown(panes, detected[i]);
      }
    }
  }

  /** Every automatic entry records a process of its pane, except one that never
      recorded any and whose own listener was not requested. */
  lemma RecordedProcess(fw: Forwards, panes: Observation, detected: seq<ForwardRequest>, fw': Forwards, id: string)
    requires Passed(fw, panes, detected, fw') && id in fw' && fw'[id].automatic
    ensures var f := fw'[id];
            && f.paneId in panes && f.remotePort in panes[f.paneId].listeners
            && if f.processId.Some? then f.processId.value in panes[f.paneId].pids
               else id in fw && f == fw[id] && forall r :: r in detected && RequestTarget(r) == Target(f) ==>
                   Covered(fw, r)
  {
    hide Detected, IsDetection, WellObserved, CreatedFrom, RequestsToCreate, OneOwner, DistinctTargets, Covered,
           RequestTarget;
    NothingIsGone(fw, panes, detected, fw', id);
    if fw'[id].processId.None? {
      if id !in Remaining(fw, panes) {
        var r := NewEntry(fw, panes, detected, fw', id);
        ShownRequest(panes, detected, r);
      } else {
        StaysAsSource(fw, panes, detected, fw', id);
        forall r | r in detected && RequestTarget(r) == Target(fw'[id])
          ensures Covered(fw, r)
        {
          if !Covered(fw, r) {
            var other := RequestIsAnswered(fw, panes, detected, fw', r);
            SameHolder(fw', id, other);
            ShownRequest(panes, detected, r);
          }
        }
        if fw'[id] != fw[id] {
          var r := ChangedEntry(fw, panes, detected, fw', id);
          ShownRequest(panes, detected, r);
        }
      }
    }
  }

  /** The hosts of the entries are those on which their ports are listened on. */
  ghost predicate HostsAgree(fw: Forwards, panes: Observation) {
    forall id :: id in fw && fw[id].automatic && !Gone(fw[id], panes) ==>
      NormalizedHost(panes[fw[id].paneId].listeners[fw[id].remotePort].host) == fw[id].remoteHost
  }

  lemma RecordedProcessWhenHostsAgree(fw: Forwards, panes: Observation, detected: seq<ForwardRequest>,
                                      fw': Forwards, id: string)
    requires Passed(fw, panes, detected, fw') && id in fw' && fw'[id].automatic && HostsAgree(fw, panes)
    ensures fw'[id].paneId in panes && fw'[id].processId.Some? && fw'[id].processId.value in panes[fw'[id].paneId].pids
  {
    hide CreatedFrom, RequestsToCreate, WellObserved, OneOwner, LoopbackUrl, DistinctTargets, ProcessChanged;
    RecordedProcess(fw, panes, detected, fw', id);
    NothingIsGone(fw, panes, detected, fw', id);
    var f := fw'[id];
    if f.processId.None? {
      var r := Detected(f.paneId, f.remotePort, panes[f.paneId].listeners[f.remotePort]);
      assert r in detected && RequestTarget(r) == Target(f);
      var other :| other in fw && CoveredBy(fw[other], r);
      ShownRequest(panes, detected, r);
      CoveringEntryStays(panes, fw[other], r);
      SameHolder(fw, id, other);
    }
  }

  /** A listener's endpoint has an entry after the pass, unless an entry for another
      host covered it and nothing that stays holds the endpoint. */
  lemma EndpointAfterPass(fw: Forwards, panes: Observation, detected: seq<ForwardRequest>, fw': Forwards,
                          r: ForwardRequest)
    requires Passed(fw, panes, detected, fw') && r in detected
    ensures Held(fw', RequestTarget(r)) <==> !Covered(fw, r) || Held(Remaining(fw, panes), RequestTarget(r))
  {
    hide Detected, IsDetection, WellObserved, CreatedFrom, RequestsToCreate, OneOwner, DistinctTargets, Covered, Gone;
    ShownRequest(panes, detected, r);
    if !Covered(fw, r) {
      var id := RequestIsAnswered(fw, panes, detected, fw', r);
      assert Holds(fw', RequestTarget(r), id);
    } else if Held(Remaining(fw, panes), RequestTarget(r)) {
      var id :| Holds(Remaining(fw, panes), RequestTarget(r), id);
      StaysAsSource(fw, panes, detected, fw', id);
      assert Holds(fw', RequestTarget(r), id);
    } else {
      forall id
        ensures !Holds(fw', RequestTarget(r), id)
      {
        if id in Remaining(fw, panes) {
          StaysAsSource(fw, panes, detected, fw', id);
          assert !Holds(Remaining(fw, panes), RequestTarget(r), id);
        } else if Holds(fw', RequestTarget(r), id) {
          var other := NewEntry(fw, panes, detected, fw', id);
          ShownRequest(panes, detected, other);
          SamePort(panes, r, other);
        }
      }
    }
  }

  function ReboundEntry(): Forward {
    Forward("fwd-1", 80, 80, "127.0.0.1", "pane", "server", "http://127.0.0.1:80/", true, true, None, Some(7), 1)
  }

  /** A listener that moves from 127.0.0.1 to ::1 within the same process is missed:
      the old entry covers it, and the new endpoint gets none. */
  lemma ReboundListenerIsMissed()
    ensures var f := ReboundEntry();
            var fw: Forwards := map["fwd-1" := f];
            var l := Listener(7, "::1", "server", None);
            var panes: Observation := map["pane" := Pane("server", {7}, map[80 := l])];
            var r := Detected("pane", 80, l);
            && WellObserved(panes) && OneOwner(panes) && IsDetection(panes, [r])
            && !Gone(f, panes) && RequestsToCreate([r], fw) == [] && !Held(fw, RequestTarget(r))
  {
    hide LoopbackUrl;
    var f := ReboundEntry();
    var fw: Forwards := map["fwd-1" := f];
    var l := Listener(7, "::1", "server", None);
    var panes: Observation := map["pane" := Pane("server", {7}, map[80 := l])];
    var r := Detected("pane", 80, l);
    assert [r][..0] == [];
    assert CoveredBy(fw["fwd-1"], r);
    assert RequestsToCreate([r][..0], fw) == [];
    assert [r][0] == r;
  }

  // ---------------------------------------------------------------------------
  // The pass as a program
  // ---------------------------------------------------------------------------

  lemma DetectedAreDistinct(panes: Observation, detected: seq<ForwardRequest>)
    requires WellObserved(panes) && OneOwner(panes) && IsDetection(panes, detected)
    ensures DistinctRequests(detected)
  {
    hide Detected, WellObserved, OneOwner;
    forall i | 0 <= i < |detected|
      ensures detected[i].processId.Some?
    {
      ShownRequest(panes, detected, detected[i]);
    }
    forall i, j | 0 <= i < j < |detected|
      ensures RequestTarget(detected[i]) != RequestTarget(detected[j])
    {
      if detected[i].remotePort == detected[j].remotePort {
        SamePort(panes, detected[i], detected[j]);
      }
    }
  }

  lemma {:induction false} CreatedAreDistinct(detected: seq<ForwardRequest>, fw: Forwards)
    requires DistinctRequests(detected)
    ensures DistinctRequests(RequestsToCreate(detected, fw)) && |RequestsToCreate(detected, fw)| <= |detected|
  {
    hide Covered, RequestTarget, DistinctRequests;
    if detected != [] {
      var front, last := detected[..|detected| - 1], detected[|detected| - 1];
      assert detected == front + [last];
      FrontIsDistinct(front, last);
      CreatedAreDistinct(front, fw);
      CreatedAreUncovered(front, fw);
      var earlier := RequestsToCreate(front, fw);
      SomeAreDistinct(earlier, front, last);
      assert earlier + [] == earlier;
    } else {
      NoneAreDistinct();
    }
  }

  lemma NoneAreDistinct()
    ensures DistinctRequests([])
  {
  }

  lemma FrontIsDistinct(front: seq<ForwardRequest>, last: ForwardRequest)
    requires DistinctRequests(front + [last])
    ensures DistinctRequests(front) && last.processId.Some?
    ensures forall r :: r in front ==> RequestTarget(r) != RequestTarget(last)
  {
    hide RequestTarget;
    var all := front + [last];
    assert all[|front|] == last && forall i :: 0 <= i < |front| ==> all[i] == front[i];
  }

  lemma SomeAreDistinct(some: seq<ForwardRequest>, front: seq<ForwardRequest>, last: ForwardRequest)
    requires DistinctRequests(some) && last.processId.Some?
    requires forall r :: r in some ==> r in front
    requires forall r :: r in front ==> RequestTarget(r) != RequestTarget(last)
    ensures DistinctRequests(some + [last])
  {
    hide RequestTarget;
  }

  lemma JobsJoin(deletions: seq<string>, creations: seq<ForwardRequest>)
    ensures Jobs(deletions, creations) == Jobs(deletions, []) + Jobs([], creations)
    ensures |Jobs(deletions, [])| == |deletions| && |Jobs([], creations)| == |creations|
    ensures |Jobs(deletions, creations)| == |deletions| + |creations|
  {
  }

  lemma DeletionLeavesRemaining(fw: Forwards, panes: Observation, deletions: seq<string>)
    requires IsDeletion(fw, panes, deletions)
    ensures DropAll(fw, deletions) == Remaining(fw, panes)
  {
    hide Gone;
  }

  lemma SuccessfulPass(s: State, panes: Observation, detected: seq<ForwardRequest>, deletions: seq<string>,
                       paused: set<Port>, trace: seq<Option<Answers>>)
    requires Entries(s.forwards, s.next) && WellObserved(panes) && OneOwner(panes)
    requires IsDetection(panes, detected) && IsDeletion(s.forwards, panes, deletions)
    requires s.next + |deletions| + |detected| < U64_MAX
    requires var jobs := Jobs(deletions, RequestsToCreate(detected, s.forwards));
             |trace| == |jobs| && Refusals(s, jobs, paused, trace) == []
    ensures var jobs := Jobs(deletions, RequestsToCreate(detected, s.forwards));
            Passed(s.forwards, panes, detected, Work(s, jobs, paused, trace).forwards)
  {
    hide *;
    var creations := RequestsToCreate(detected, s.forwards);
    var first, second := Jobs(deletions, []), Jobs([], creations);
    JobsJoin(deletions, creations);
    WorkJoins(s, first, second, paused, trace);
    var n := |deletions|;
    RemovalsLeave(s, deletions, paused, trace[..n]);
    DeletionLeavesRemaining(s.forwards, panes, deletions);
    var t := Work(s, first, paused, trace[..n]);
    DetectedAreDistinct(panes, detected);
    CreatedAreDistinct(detected, s.forwards);
    CreationsLeave(t, creations, paused, trace[n..]);
    var u := Work(t, second, paused, trace[n..]);
    EntriesTargets(s.forwards, s.next);
    EntriesTargets(u.forwards, u.next);
    PassedMeans(s.forwards, panes, detected, u.forwards);
  }

  lemma PassedMeans(fw: Forwards, panes: Observation, detected: seq<ForwardRequest>, fw': Forwards)
    ensures Passed(fw, panes, detected, fw') <==>
            && WellObserved(panes) && OneOwner(panes) && IsDetection(panes, detected)
            && DistinctTargets(fw) && DistinctTargets(fw')
            && CreatedFrom(Remaining(fw, panes), RequestsToCreate(detected, fw), fw')
  {
  }

  /** `process_session_discovery`, from the list of entries to the last request. */
  method Pass(registry: Registry, link: Link, panes: Observation, paused: set<Port>)
    returns (created: nat, errors: seq<Operation>, ghost detected: seq<ForwardRequest>, ghost deletions: seq<string>,
             ghost trace: seq<Option<Answers>>)
    requires registry.Valid() && WellObserved(panes)
    requires forall d :: IsDetection(panes, d) ==> registry.next + |registry.forwards| + |d| < U64_MAX
    modifies registry, registry.ssh, link
    ensures registry.Valid() && IsDetection(panes, detected) && IsDeletion(old(registry.forwards), panes, deletions)
    ensures var jobs := Jobs(deletions, RequestsToCreate(detected, old(registry.forwards)));
            && |trace| == |jobs|
            && registry.View() == Work(old(registry.View()), jobs, paused, trace)
            && errors == Refusals(old(registry.View()), jobs, paused, trace)
            && link.log == old(link.log) + Deliveries(jobs, trace)
            && registry.ssh.log == old(registry.ssh.log) + WorkAsks(old(registry.View()), jobs, paused, trace)
    ensures errors == [] && OneOwner(panes) ==> Passed(old(registry.forwards), panes, detected, registry.forwards)
    ensures errors == [] ==> created == |RequestsToCreate(detected, old(registry.forwards))|
  {
    hide *;
    registry.Unfold();
    var previous := registry.forwards;
    ghost var s := registry.View();
    var found := DetectAll(panes);
    detected := found;
    var gone := Deletions(previous, panes);
    deletions := gone;
    CreatedAreFewer(found, previous);
    var creations := RequestsToCreate(found, previous);
    created, errors, trace := Reconcile(registry, link, gone, creations, paused);
    registry.Unfold();
    NoFailures();
    if errors == [] && OneOwner(panes) {
      SuccessfulPass(s, panes, detected, deletions, paused, trace);
    }
  }

  lemma {:induction false} CreatedAreFewer(detected: seq<ForwardRequest>, fw: Forwards)
    ensures |RequestsToCreate(detected, fw)| <= |detected|
  {
    if detected != [] {
      CreatedAreFewer(detected[..|detected| - 1], fw);
    }
  }

  lemma NoFailures()
    ensures Creations([]) == 0
  {
  }
}

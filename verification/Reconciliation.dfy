/** One discovery pass of the remote watcher (src/bin/plugin/lifecycle.rs): what the
    panes show decides which automatic entries go and which are requested. Between
    reading the list of entries and the last request nobody else acts. */
module Reconciliation {
  import opened Wrappers
  import opened Detect
  import opened Model
  import opened RegistrySpec
  import opened RegistryProofs
  import opened Operations
  import opened ForwardRegistry
  import opened RegistryEffects
  import opened Journals
  import opened Strings
  import opened Utf8
  import Decimal

  /** A listening process: its id, the loopback host, and what `ps` says about it. */
  datatype Listener = Listener(pid: nat, host: string, process: string, startedAt: Option<nat>)

  /** A pane with foreground processes: their label, the process tree under them, and
      the ports on which those processes listen. */
  datatype Pane = Pane(process: string, pids: set<nat>, listeners: map<Port, Listener>)

  type Observation = map<string, Pane>

  /** Listeners are looked up by the pids of the pane, and only on loopback. */
  ghost predicate WellObserved(panes: Observation) {
    forall id, port :: id in panes && port in panes[id].listeners ==>
      panes[id].listeners[port].pid in panes[id].pids
  }

  /** The request that a listener stands for. */
  function Detected(pane: string, port: Port, l: Listener): ForwardRequest {
    ForwardRequest(port, port, l.host, pane, l.process, LoopbackUrl(l.host, port, true), true, l.startedAt, Some(l.pid))
  }

  /** `process_changed`. */
  predicate ProcessChanged(f: Forward, panes: Observation) {
    if f.processId.Some? then !(f.paneId in panes && f.processId.value in panes[f.paneId].pids)
    else f.paneId in panes && panes[f.paneId].process != f.process
  }

  /** Which entries a pass deletes. */
  predicate Gone(f: Forward, panes: Observation) {
    f.automatic &&
    (f.paneId !in panes || ProcessChanged(f, panes) || f.remotePort !in panes[f.paneId].listeners)
  }

  /** An automatic entry has its reason: its pane is active and listens on its port, and
      the recorded process is still one of the pane's; an entry that recorded none goes
      by the label of the pane. */
  ghost predicate Justified(f: Forward, panes: Observation) {
    && f.paneId in panes && f.remotePort in panes[f.paneId].listeners
    && match f.processId
       case Some(pid) => pid in panes[f.paneId].pids
       case None => panes[f.paneId].process == f.process
  }

  /** A pass deletes exactly the automatic entries without a reason. */
  lemma GoneExactly(f: Forward, panes: Observation)
    ensures Gone(f, panes) <==> f.automatic && !Justified(f, panes)
  {
  }

  predicate CoveredBy(f: Forward, r: ForwardRequest) {
    f.automatic && f.paneId == r.paneId && f.processId == r.processId && f.remotePort == r.remotePort
  }

  predicate Covered(fw: Forwards, r: ForwardRequest) { exists id :: id in fw && CoveredBy(fw[id], r) }

  /** `automatic_requests_to_create`. */
  function RequestsToCreate(detected: seq<ForwardRequest>, fw: Forwards): seq<ForwardRequest> {
    if detected == [] then []
    else
      var front, last := detected[..|detected| - 1], detected[|detected| - 1];
      RequestsToCreate(front, fw) + if Covered(fw, last) then [] else [last]
  }

  // ---------------------------------------------------------------------------
  // What the panes show
  // ---------------------------------------------------------------------------

  ghost predicate Shown(panes: Observation, r: ForwardRequest) {
    r.paneId in panes && r.remotePort in panes[r.paneId].listeners
    && r == Detected(r.paneId, r.remotePort, panes[r.paneId].listeners[r.remotePort])
  }

  /** One request per pane and listening port. */
  ghost predicate IsDetection(panes: Observation, detected: seq<ForwardRequest>) {
    && (forall i :: 0 <= i < |detected| ==> Shown(panes, detected[i]))
    && (forall id, port :: id in panes && port in panes[id].listeners ==>
          Detected(id, port, panes[id].listeners[port]) in detected)
    && (forall i, j :: 0 <= i < j < |detected| ==> detected[i] != detected[j])
  }

  /** Requests of one pane. */
  method DetectPane(id: string, pane: Pane) returns (detected: seq<ForwardRequest>)
    ensures forall r :: r in detected <==> r.remotePort in pane.listeners && r == Detected(id, r.remotePort,
              pane.listeners[r.remotePort])
    ensures forall i, j :: 0 <= i < j < |detected| ==> detected[i] != detected[j]
  {
    hide LoopbackUrl;
    detected := [];
    var todo := pane.listeners.Keys;
    while todo != {}
      invariant todo <= pane.listeners.Keys
      invariant forall r :: r in detected <==>
                  r.remotePort in pane.listeners && r.remotePort !in todo && r == Detected(id, r.remotePort,
                      pane.listeners[r.remotePort])
      invariant forall i, j :: 0 <= i < j < |detected| ==> detected[i] != detected[j]
      decreases |todo|
    {
      var port :| port in todo;
      todo := todo - {port};
      detected := detected + [Detected(id, port, pane.listeners[port])];
    }
  }

  method DetectAll(panes: Observation) returns (detected: seq<ForwardRequest>)
    ensures IsDetection(panes, detected)
  {
    hide Detected;
    detected := [];
    var todo := panes.Keys;
    while todo != {}
      invariant todo <= panes.Keys
      invariant forall r :: r in detected <==> Shown(panes, r) && r.paneId !in todo
      invariant forall i, j :: 0 <= i < j < |detected| ==> detected[i] != detected[j]
      decreases |todo|
    {
      var id :| id in todo;
      todo := todo - {id};
      var more := DetectPane(id, panes[id]);
      DetectedNames(panes, id);
      detected := detected + more;
    }
    forall id, port | id in panes && port in panes[id].listeners
      ensures Detected(id, port, panes[id].listeners[port]) in detected
    {
      DetectedNames(panes, id);
      assert Shown(panes, Detected(id, port, panes[id].listeners[port]));
    }
  }

  lemma DetectedNames(panes: Observation, id: string)
    ensures forall port: Port, l: Listener :: Detected(id, port, l).paneId == id && Detected(id, port,
              l).remotePort == port
  {
  }

  /** A listener that can be forwarded: the rest of a detected request is always in order. */
  predicate Forwardable(pane: string, port: Port, l: Listener) {
    && port != 0 && l.host in ["localhost", "127.0.0.1", "::1", "[::1]"]
    && Trim(pane) != [] && ByteLength(pane) <= 256 && ByteLength(l.process) <= 256
  }

  /** What a detected request names, field by field. */
  lemma DetectedFields(pane: string, port: Port, l: Listener)
    ensures var r := Detected(pane, port, l);
            && r.remotePort == port && r.preferredLocalPort == port && r.remoteHost == l.host
            && r.paneId == pane && r.process == l.process && r.automatic
            && r.serverStartedAt == l.startedAt && r.processId == Some(l.pid)
            && r.detectedUrl ==
               "http://" + (if l.host == "::1" then "[::1]" else l.host) + ":" + Decimal.Print(port) + "/"
  {
  }

  /** The registry accepts the request of a listener if and only if it can be forwarded. */
  lemma DetectedIsValid(pane: string, port: Port, l: Listener)
    ensures Validate(Detected(pane, port, l)).None? <==> Forwardable(pane, port, l)
  {
    hide LoopbackUrl, ByteLength, Trim, NamesPort;
    if Forwardable(pane, port, l) {
      ComposedRequestIsValid(Detected(pane, port, l), true);
    }
  }

  /** So it is turned down only for want of room or of a local port, or by SSH: when its
      endpoint has no entry, and exactly for the reason given. */
  lemma DetectedCreation(s: State, pane: string, port: Port, l: Listener, paused: set<Port>, free: Port -> bool,
                         opens: bool, now: nat)
    requires Forwardable(pane, port, l)
    ensures var r := Detected(pane, port, l);
            var (s', outcome) := RegistrySpec.Create(s, r, StartsEnabled(r, paused), free, opens, now);
            var host := if l.host in ["::1", "[::1]"] then "::1" else "127.0.0.1";
            var choice := FirstUsable(s.forwards, None, free, port);
            && (outcome.Err? <==>
                  && !Forwarded(s.forwards, host, port)
                  && (|| |s.forwards| >= 256
                      || (port !in paused && (choice.None? || !opens || choice.value in s.live))))
            && (outcome.Err? ==> s' == s && outcome.error in [LimitReached, NoLocalPort, ForwardFailed])
            && (outcome.Ok? ==>
                  var f := outcome.value.0;
                  && f in s'.forwards.Values && f.remotePort == port && f.remoteHost == host
                  && f.processId == Some(l.pid)
                  && (!Forwarded(s.forwards, host, port) ==>
                        f.paneId == pane && f.process == l.process && f.automatic && (f.enabled <==> port !in paused)))
  {
    hide Create, CreateAsks, Validate, FirstUsable, Forwarded, Detected;
    var r := Detected(pane, port, l);
    DetectedFields(pane, port, l);
    DetectedIsValid(pane, port, l);
    CreationEffect(s, r, StartsEnabled(r, paused), free, opens, now);
    CreationFails(s, r, StartsEnabled(r, paused), free, opens, now);
    var (s', outcome) := RegistrySpec.Create(s, r, StartsEnabled(r, paused), free, opens, now);
    if outcome.Ok? {
      var f := outcome.value.0;
      var id := if outcome.value.1 then f.id else var id :| Repeated(s, r, now, s', id, f); id;
      assert s'.forwards[id] == f;
    }
  }

  // ---------------------------------------------------------------------------
  // The pass
  // ---------------------------------------------------------------------------

  /** One request to the companion and what came of it: nothing if it never got an
      answer from the registry. */
  ghost function Served(s: State, op: Operation, paused: set<Port>, a: Option<Answers>): State {
    if a.None? then s else Step(s, CallOf(op, paused, a.value))
  }

  /** The companion reports success: deleting something unknown is an error. */
  ghost predicate Works(s: State, op: Operation, paused: set<Port>, a: Option<Answers>) {
    a.Some? && !Failed(s, CallOf(op, paused, a.value)) && (op.OpRemove? ==> op.id in s.forwards)
  }

  ghost function Work(s: State, jobs: seq<Operation>, paused: set<Port>, trace: seq<Option<Answers>>): State
    requires |trace| == |jobs|
  {
    if jobs == [] then s
    else
      var n := |jobs| - 1;
      Served(Work(s, jobs[..n], paused, trace[..n]), jobs[n], paused, trace[n])
  }

  ghost function Refusals(s: State, jobs: seq<Operation>, paused: set<Port>,
                          trace: seq<Option<Answers>>): seq<Operation>
    requires |trace| == |jobs|
  {
    if jobs == [] then []
    else
      var n := |jobs| - 1;
      Refusals(s, jobs[..n], paused, trace[..n]) +
      if Works(Work(s, jobs[..n], paused, trace[..n]), jobs[n], paused, trace[n]) then [] else [jobs[n]]
  }

  function Jobs(deletions: seq<string>, creations: seq<ForwardRequest>): seq<Operation> {
    seq(|deletions|, i requires 0 <= i < |deletions| => OpRemove(deletions[i])) +
    seq(|creations|, i requires 0 <= i < |creations| => OpCreate(creations[i]))
  }

  /** What SSH is asked in the course of it. */
  ghost function WorkAsks(s: State, jobs: seq<Operation>, paused: set<Port>, trace: seq<Option<Answers>>): seq<SshCall>
    requires |trace| == |jobs|
  {
    if jobs == [] then []
    else
      var n := |jobs| - 1;
      WorkAsks(s, jobs[..n], paused, trace[..n]) +
      ServedAsks(Work(s, jobs[..n], paused, trace[..n]), jobs[n], paused, trace[n])
  }

  ghost function ServedAsks(s: State, op: Operation, paused: set<Port>, a: Option<Answers>): seq<SshCall> {
    if a.None? then [] else Asks(s, CallOf(op, paused, a.value))
  }

  /** Which of the requests arrived. */
  ghost function Deliveries(jobs: seq<Operation>, trace: seq<Option<Answers>>): seq<Attempted<Operation>>
    requires |trace| == |jobs|
  {
    seq(|jobs|, i requires 0 <= i < |jobs| => Attempted(jobs[i], trace[i].Some?))
  }

  lemma WorkOneMore(s: State, jobs: seq<Operation>, paused: set<Port>, trace: seq<Option<Answers>>,
                    op: Operation, a: Option<Answers>)
    requires |trace| == |jobs|
    ensures Work(s, jobs + [op], paused, trace + [a]) == Served(Work(s, jobs, paused, trace), op, paused, a)
    ensures Refusals(s, jobs + [op], paused, trace + [a]) ==
            Refusals(s, jobs, paused, trace) + if Works(Work(s, jobs, paused, trace), op, paused, a) then [] else [op]
    ensures WorkAsks(s, jobs + [op], paused, trace + [a]) ==
            WorkAsks(s, jobs, paused, trace) + ServedAsks(Work(s, jobs, paused, trace), op, paused, a)
    ensures Deliveries(jobs + [op], trace + [a]) == Deliveries(jobs, trace) + [Attempted(op, a.Some?)]
  {
    hide Served, Works, ServedAsks;
    assert (jobs + [op])[..|jobs|] == jobs && (trace + [a])[..|jobs|] == trace;
  }

  /** The way from the watcher to the companion, on which a request may get lost. */
  class Link {
    ghost var log: seq<Attempted<Operation>>

    constructor ()
      ensures log == []
    {
      log := [];
    }

    method Deliver(op: Operation) returns (arrives: bool)
      modifies this
      ensures log == old(log) + [Attempted(op, arrives)]
    {
      arrives := *;
      log := log + [Attempted(op, arrives)];
    }
  }

  /** Sends one request; it may get lost. */
  method Send(registry: Registry, link: Link, op: Operation, paused: set<Port>)
    returns (ok: bool, ghost a: Option<Answers>)
    requires registry.Valid() && registry.next < U64_MAX && (op.OpCreate? || op.OpRemove?)
    modifies registry, registry.ssh, link
    ensures registry.Valid() && registry.next <= old(registry.next) + 1
    ensures registry.View() == Served(old(registry.View()), op, paused, a)
    ensures link.log == old(link.log) + [Attempted(op, a.Some?)]
    ensures registry.ssh.log == old(registry.ssh.log) + ServedAsks(old(registry.View()), op, paused, a)
    ensures a.Some? ==> a.value.free == old(registry.ssh.free)
    ensures ok <==> Works(old(registry.View()), op, paused, a)
  {
    hide Entries, RegistrySpec.Create, RegistrySpec.Remove, CreateAsks, RemoveAsks;
    ghost var s, free := registry.View(), registry.ssh.free;
    var arrives := link.Deliver(op);
    if !arrives {
      return false, None;
    }
    if op.OpCreate? {
      var r;
      ghost var opens, time;
      r, opens, time := registry.Create(op.request, StartsEnabled(op.request, paused));
      a := Some(Answers(free, opens, false, false, time));
      ok := r.Ok?;
    } else {
      var r;
      ghost var cancels;
      r, cancels := registry.Remove(op.id);
      a := Some(Answers(free, cancels, false, false, 0));
      RemoveFound(s, op.id, cancels);
      ok := r.Ok? && r.value.Some?;
    }
    StepCounts(s, CallOf(op, paused, a.value));
  }

  lemma RemoveFound(s: State, id: string, cancels: bool)
    ensures var r := RegistrySpec.Remove(s, id, cancels).1; r.Ok? ==> (r.value.Some? <==> id in s.forwards)
  {
  }

  /** `reconcile_forward_requests`: every deletion, then every creation; failures are
      collected and never stop the pass. */
  method Reconcile(registry: Registry, link: Link, deletions: seq<string>, creations: seq<ForwardRequest>,
                   paused: set<Port>)
    returns (created: nat, errors: seq<Operation>, ghost trace: seq<Option<Answers>>)
    requires registry.Valid() && registry.next + |deletions| + |creations| <= U64_MAX
    modifies registry, registry.ssh, link
    ensures registry.Valid() && |trace| == |Jobs(deletions, creations)|
    ensures link.log == old(link.log) + Deliveries(Jobs(deletions, creations), trace)
    ensures registry.ssh.log ==
            old(registry.ssh.log) + WorkAsks(old(registry.View()), Jobs(deletions, creations), paused, trace)
    ensures registry.View() == Work(old(registry.View()), Jobs(deletions, creations), paused, trace)
    ensures errors == Refusals(old(registry.View()), Jobs(deletions, creations), paused, trace)
    ensures created + Creations(errors) == |creations|
  {
    hide *;
    created, errors, trace := 0, [], [];
    ghost var s := registry.View();
    NoWork(s, paused);
    JobsShape(deletions, creations);
    var jobs := Jobs(deletions, creations);
    var n := 0;
    while n < |jobs|
      invariant 0 <= n <= |jobs| && |trace| == n && registry.Valid() && registry.next <= old(registry.next) + n
      invariant registry.View() == Work(s, jobs[..n], paused, trace)
      invariant errors == Refusals(s, jobs[..n], paused, trace)
      invariant link.log == old(link.log) + Deliveries(jobs[..n], trace)
      invariant registry.ssh.log == old(registry.ssh.log) + WorkAsks(s, jobs[..n], paused, trace)
      invariant created + Creations(errors) == if n <= |deletions| then 0 else n - |deletions|
    {
      JobKind(deletions, creations, n);
      var ok;
      ghost var a;
      ok, a := Send(registry, link, jobs[n], paused);
      WorkOneMore(s, jobs[..n], paused, trace, jobs[n], a);
      assert jobs[..n + 1] == jobs[..n] + [jobs[n]];
      CreationsOneMore(errors, jobs[n]);
      if !ok {
        errors := errors + [jobs[n]];
      } else if jobs[n].OpCreate? {
        created := created + 1;
      }
      trace := trace + [a];
      n := n + 1;
    }
    assert jobs[..n] == jobs;
  }

  function Creations(ops: seq<Operation>): nat {
    if ops == [] then 0 else Creations(ops[..|ops| - 1]) + if ops[|ops| - 1].OpCreate? then 1 else 0
  }

  lemma CreationsOneMore(ops: seq<Operation>, op: Operation)
    ensures Creations(ops + [op]) == Creations(ops) + if op.OpCreate? then 1 else 0
  {
    assert (ops + [op])[..|ops|] == ops;
  }

  lemma NoWork(s: State, paused: set<Port>)
    ensures Work(s, [], paused, []) == s && Refusals(s, [], paused, []) == [] && Creations([]) == 0
    ensures WorkAsks(s, [], paused, []) == [] && Deliveries([], []) == []
  {
  }

  lemma JobsShape(deletions: seq<string>, creations: seq<ForwardRequest>)
    ensures |Jobs(deletions, creations)| == |deletions| + |creations|
    ensures U64_MAX == 0xffff_ffff_ffff_ffff
  {
  }

  lemma JobKind(deletions: seq<string>, creations: seq<ForwardRequest>, n: nat)
    requires n < |deletions| + |creations|
    ensures n < |Jobs(deletions, creations)| == |deletions| + |creations|
    ensures Jobs(deletions, creations)[n] ==
            if n < |deletions| then OpRemove(deletions[n]) else OpCreate(creations[n - |deletions|])
  {
  }

  /** The ids of the entries to delete, in some order. */
  ghost predicate IsDeletion(fw: Forwards, panes: Observation, deletions: seq<string>) {
    && (forall id :: id in deletions <==> id in fw && Gone(fw[id], panes))
    && (forall i, j :: 0 <= i < j < |deletions| ==> deletions[i] != deletions[j])
  }

  method Deletions(fw: Forwards, panes: Observation) returns (deletions: seq<string>)
    ensures IsDeletion(fw, panes, deletions) && |deletions| <= |fw|
  {
    hide Gone;
    deletions := [];
    var todo := fw.Keys;
    while todo != {}
      invariant todo <= fw.Keys && |deletions| + |todo| <= |fw|
      invariant forall id :: id in deletions <==> id in fw && id !in todo && Gone(fw[id], panes)
      invariant forall i, j :: 0 <= i < j < |deletions| ==> deletions[i] != deletions[j]
      decreases |todo|
    {
      var id :| id in todo;
      todo := todo - {id};
      if Gone(fw[id], panes) {
        deletions := deletions + [id];
      }
    }
  }
}

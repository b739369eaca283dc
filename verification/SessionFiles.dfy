/** The files of a remote session that its companions share (src/bin/local/companion.rs
    and src/atomic.rs): the two preference files, under a lock, and the published state. */
module SessionFile {
  import opened Wrappers
  import opened Journals
  import opened Detect
  import opened RegistrySpec
  import opened Preferences

  /** A JSON file: absent, holding a value, or holding something else. */
  datatype File<+T> = Missing | Saved(content: T) | Garbled(bytes: string)

  /** What may be done with the files of a session. Loading is reading and parsing. */
  datatype FileStep =
    | LockFiles
    | ReadRules
    | ReadPauses
    | LoadRules
    | LoadPauses
    | WriteRules(rules: File<seq<ManualForward>>)
    | WritePauses(pauses: File<set<Port>>)
    | WriteState(state: Forwards)

  type FileLog = seq<Attempted<FileStep>>

  /** Any access may fail; a write replaces the whole file or, failing, leaves it alone. */
  class SessionFiles {
    var manual: File<seq<ManualForward>>
    var paused: File<set<Port>>
    var state: File<Forwards>
    ghost var log: FileLog

    constructor (manual: File<seq<ManualForward>>, paused: File<set<Port>>)
      ensures this.manual == manual && this.paused == paused && state == Missing && log == []
    {
      this.manual, this.paused, state, log := manual, paused, Missing, [];
    }

    method Lock() returns (ok: bool)
      modifies `log
      ensures log == old(log) + [Attempted(LockFiles, ok)]
    {
      ok := *;
      log := log + [Attempted(LockFiles, ok)];
    }

    method ReadManual() returns (r: Option<File<seq<ManualForward>>>)
      modifies `log
      ensures r.Some? ==> r.value == manual
      ensures log == old(log) + [Attempted(ReadRules, r.Some?)]
    {
      var readable: bool := *;
      r := if readable then Some(manual) else None;
      log := log + [Attempted(ReadRules, readable)];
    }

    method ReadPaused() returns (r: Option<File<set<Port>>>)
      modifies `log
      ensures r.Some? ==> r.value == paused
      ensures log == old(log) + [Attempted(ReadPauses, r.Some?)]
    {
      var readable: bool := *;
      r := if readable then Some(paused) else None;
      log := log + [Attempted(ReadPauses, readable)];
    }

    method LoadManual() returns (r: Option<seq<ManualForward>>)
      modifies `log
      ensures r.Some? ==> !manual.Garbled? && r.value == RulesIn(manual)
      ensures log == old(log) + [Attempted(LoadRules, r.Some?)]
    {
      var readable: bool := *;
      r := if readable && !manual.Garbled? then Some(RulesIn(manual)) else None;
      log := log + [Attempted(LoadRules, r.Some?)];
    }

    /** `paused_automatic_ports`. */
    method LoadPaused() returns (r: Option<set<Port>>)
      modifies `log
      ensures r.Some? ==> !paused.Garbled? && r.value == PortsIn(paused)
      ensures log == old(log) + [Attempted(LoadPauses, r.Some?)]
    {
      var readable: bool := *;
      r := if readable && !paused.Garbled? then Some(PortsIn(paused)) else None;
      log := log + [Attempted(LoadPauses, r.Some?)];
    }

    method WriteManual(file: File<seq<ManualForward>>) returns (ok: bool)
      modifies `manual, `log
      ensures manual == if ok then file else old(manual)
      ensures log == old(log) + [Attempted(WriteRules(file), ok)]
    {
      ok := *;
      if ok { manual := file; }
      log := log + [Attempted(WriteRules(file), ok)];
    }

    method WritePaused(file: File<set<Port>>) returns (ok: bool)
      modifies `paused, `log
      ensures paused == if ok then file else old(paused)
      ensures log == old(log) + [Attempted(WritePauses(file), ok)]
    {
      ok := *;
      if ok { paused := file; }
      log := log + [Attempted(WritePauses(file), ok)];
    }

    method Publish(forwards: Forwards) returns (ok: bool)
      modifies `state, `log
      ensures state == if ok then Saved(forwards) else old(state)
      ensures log == old(log) + [Attempted(WriteState(forwards), ok)]
    {
      ok := *;
      if ok { state := Saved(forwards); }
      log := log + [Attempted(WriteState(forwards), ok)];
    }
  }

  /** A missing file counts as an empty list. */
  function RulesIn(f: File<seq<ManualForward>>): seq<ManualForward> { if f.Saved? then f.content else [] }

  function PortsIn(f: File<set<Port>>): set<Port> { if f.Saved? then f.content else {} }
}

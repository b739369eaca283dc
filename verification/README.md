# Verified model of remote port forwarding for Herdr

The program keeps SSH port forwards in step with the servers that run in the panes of
a remote Herdr session. A local companion owns one SSH master and a registry of
forwards; a remote watcher finds listeners and asks the companion for forwards; both
sides survive outages of the connection. This project states what the parts promise
and proves it, for all inputs and for whole runs.

`dafny verify dfyconfig.toml` checks everything.

## How the model is built

* **Registry** (`RegistrySpec`, `RegistryProofs`, `RegistryEffects`, `RestoreSpec`,
  `ForwardRegistry`, `SshMaster`). The state is the map of entries, the id counter and the tunnels that
  are really open. The specification functions take the answers of the outside world
  as arguments; the class `Registry` works in place on an `SshMaster` that may refuse
  any call, and each method is proved to compute its specification function for the
  answers it got. What a call has done when it answers is then stated without these
  functions, in terms of entries, tunnels and SSH calls. A refused SSH call changes nothing, a port that is bound cannot be
  bound again, and which ports look free is arbitrary at every moment.
* **Transactions** (`Preferences`, `Operations`, `Undo`, `PreferenceRuns`, `SessionFiles`,
  `Companion`, `ManualReload`). A mutation, the merging of its own change into the latest files and
  the rollback are methods over the same `Registry`; runs of any number of companions
  are sequences of steps under the file lock.
* **Recovery** (`Recovery`, `Attempts`, `Supervisor`). The transport is a step system. The
  worker is also a program whose recorded steps are proved to be a run of that system,
  with a reason for every attempt that fails. The test of the recovery flag and the
  mutation behind it are one step.
* **Watcher** (`Reconciliation`, `Convergence`, `Watcher`, `Lease`, `ProcessTree`).
* **Text and trees** (`Detect`, `UrlGrammar`, `Model`, `Sessions`, `Http`, `Rpc`, `HttpProofs`,
  `Dashboard`, `DashboardProofs`, `ConfigTree`, `ConfigFingerprint`, `HerdrConfig`,
  `HerdrConfigProofs`, `Shell`), on `Utf8`, `Strings`, `Decimal`, `Sorting`,
  `Journal` and `Wrappers`.

The iteration order of maps is left open (an arbitrary remaining element), so what is
proved does not depend on it. Clocks, file and network outcomes are arbitrary values.
A method hands its caller the answers it met as ghost results, so that its contract can
name the specification function it computed. The objects that stand for the outside
world (the SSH master, the files, a connection, the way to the companion) keep a record
of what they were asked and how they answered. The contracts state what was added to
these records, so that no failure is reported that nothing outside has caused.

## What turned out differently from what one might expect

* The id counter saturates. At the largest value a creation may take the id of a live
  entry and lose its tunnel: `CreateKeepsInvExactly`, `SaturationLosesATunnel`.
* An escape sequence with intermediate characters (such as `ESC ( B`) is taken for a
  two-character one, and its rest stays behind as text; so does the character string of
  SOS (`ESC X`), the one control string the program does not know:
  `IntermediatesLeaveText`, `CharacterStringsStay`. Nothing but the plain text is left if
  and only if neither occurs: `StripRendered`.
* A rollback that reopens an entry's old tunnel but cannot close its new one leaves a
  tunnel without an entry until the master ends: `ARollbackLeaks`. Which tunnels are left
  is exact: `UnclaimedAfterRestore`, `UndoLeaks`.
* A listener that moves between `127.0.0.1` and `::1` in one process is not forwarded
  again, because entries are compared by pane, process and port only:
  `ReboundListenerIsMissed`, and the exact condition in `EndpointAfterPass`.
* A timed-out read of the event stream that swallows the text of an event but not its
  line end loses the event until the next scan: `TimedOutReadLoses`.
* The watcher's 60 seconds cover lease and recovery, as `docs/architecture.md` says, if
  and only if noticing an expired lease and terminating the old master take no more than
  20 seconds together, which nothing in the program bounds:
  `RepairedOutagesAreNotReaped`.
* The fingerprint with which a configuration edit checks itself joins keys with dots, so
  that different documents can have the same one: `DottedNamesAreConfused`,
  `NumeralsAreConfused`, and the exact condition on key names in `FingerprintIsFaithful`
  and `PlainNamesJoinApart`. The edits themselves change nothing outside the rows.
* A header whose blank line begins in the last three positions below the limit is
  accepted or refused depending on how the bytes arrive: `HeadIsFoundUnlessCut`,
  `SameBytesTwoOutcomes`.
* Switching the ports row off refuses if there are two of them, and switching on and
  off is not the identity if there was exactly one: `OnAndOffRestores`.

## Model

| member | source | states |
|---|---|---|
| ForwardRegistry.Registry.Create | src/registry.rs:154-232 | creating in place computes the specification for the answers SSH, the port probe and the clock gave, and asks SSH exactly what it says; below saturation the entries stay well formed |
| ForwardRegistry.Registry.CreateNew | src/registry.rs:196-231 | limit, start port, port search, opening and the new id, exactly as specified, and no change on failure |
| ForwardRegistry.Registry.Remove | src/registry.rs:234-247 | an unknown id is no error; an entry goes only after its tunnel was closed |
| ForwardRegistry.Registry.SetEnabled | src/registry.rs:249-282 | pausing closes first, resuming opens on the least usable port from the old one on; a refusal changes nothing |
| ForwardRegistry.Registry.SetLocalPort | src/registry.rs:284-342 | cancel, open, reopen on the old port, and disable when that fails too, for every combination of answers |
| ForwardRegistry.Registry.CloseAll | src/registry.rs:391-396 | one removal per entry in any order, one SSH call per enabled entry; the errors are exactly the entries left |
| RegistrySpec.FirstUsable | src/registry.rs:344-356 | the least port at or above the start that is free and claimed by no other enabled entry, or none exists |
| RegistryEffects.PortChoice | src/registry.rs:344-356 | the search gives a port if and only if it is the least offered one from the start on, and none if and only if there is none |
| RegistryEffects.CreationEffect | src/registry.rs:154-232 | a creation that fails has its reason, changes nothing and says what SSH refused; one that succeeds enriches the one entry of its endpoint, or adds an entry field by field as requested, with its tunnel open on the least usable port or paused without one |
| RegistryEffects.RemovalEffect | src/registry.rs:234-247 | an entry that is removed is gone with its tunnel and nothing else; otherwise SSH refused and nothing changed |
| RegistryEffects.ToggleEffect | src/registry.rs:249-282 | the entry is switched as asked and all else kept: resumed on the least usable port from its old one on, with exactly that tunnel opened, or paused with exactly its tunnel closed and no time; an error changes nothing and has its reason |
| RegistryEffects.RemapEffect | src/registry.rs:284-342 | the entry is on the port asked for with its tunnel moved there and all else kept; each error has its reason and its SSH calls, and only the last one leaves it paused |
| RegistryEffects.ClosingEffect | src/registry.rs:391-396 | exactly the tunnels of the listed entries that SSH did not refuse to close are gone |
| RegistryEffects.ClosingAsks | src/registry.rs:391-396 | SSH is asked about the listed enabled entries and nothing else |
| RegistryProofs.RegistryIsTruthful | src/registry.rs:162-396 | over every run of calls with every outcome: open tunnels are exactly the enabled entries, ports and endpoints distinct, at most 256 entries, disabled entries without a time |
| RegistryProofs.TruthfulFromTheStart | src/registry.rs:81-90 | the same for every run from a new registry |
| RegistryProofs.IdsAreNeverReissued | src/registry.rs:215-217 | two creations of one run never issue the same id, removals in between included |
| RegistryProofs.CreateKeepsInvExactly | src/registry.rs:162-230 | a creation keeps the registry truthful if and only if it does not, at the saturated counter, pass every guard while the last id belongs to an enabled entry |
| RegistryProofs.SaturationLosesATunnel | src/registry.rs:215-230 | a concrete saturated registry whose tunnel is forgotten |
| RegistryProofs.FailureLeavesNoTrace | src/registry.rs:162-282 | creation, removal and toggling that fail leave entries, counter and tunnels as they were |
| RegistryProofs.FailedRemap | src/registry.rs:284-342 | when a port change fails, exactly when nothing changed and when the entry is disabled without a tunnel |
| RegistryProofs.CloseAllLeaves | src/registry.rs:391-396 | what is left are the listed entries whose tunnel would not close, and those not listed |
| RegistryProofs.StepKeepsBacked | src/registry.rs:162-396 | every call, closing everything included, keeps a tunnel open for each enabled entry even when stray tunnels are around |
| RegistryProofs.StepKeepsUnclaimed | src/registry.rs:162-396 | no call opens, closes or adopts a tunnel that belongs to no enabled entry |
| ForwardRegistry.Registry.Restore | src/registry.rs:99-152 | the two loops of a rollback ask SSH once about each tunnel that differs and about no other, and leave exactly what its answers explain |
| RestoreSpec.RestoredExactly | src/registry.rs:99-152 | on success the open tunnels are exactly the snapshot's and the counter is not lowered |
| RestoreSpec.PartlyRestored | src/registry.rs:99-152 | on failure every enabled entry is still backed by an open tunnel |
| RestoreSpec.UnclaimedAfterRestore | src/registry.rs:99-152 | the tunnels without an entry after a rollback are exactly those that had none before and those whose closing failed while their entry was replaced |
| RestoreSpec.CommonTunnelIsUntouched | src/registry.rs:103-132 | a tunnel both sides want shares its port with no call of the rollback |
| RestoreSpec.CommonTunnelIsNotNamed | src/registry.rs:103-142 | no SSH call of a rollback names the port of a common tunnel |
| ForwardRegistry.Registry.RestoreTunnels | src/registry.rs:360-389 | replay is all or nothing: one turn per enabled entry, each on the least port usable when its turn came, and exactly the enabled tunnels; or unchanged entries, the one turn that failed with its reason (cancelled, no port, refused), one closing call per tunnel opened, and only tunnels left whose closing failed |
| RestoreSpec.ReplayedKeepsEntries | src/registry.rs:360-389 | after a replay the entries are well formed under the same ids |
| Preferences.Merge | src/bin/local/companion.rs:155-191 | the two loops apply the mutation's own change: last write per touched endpoint, pauses and resumes, nothing else |
| Preferences.DropRemoved | src/bin/local/companion.rs:160-166 | exactly the rules of removed manual entries go; those of every other endpoint stay as they were |
| Preferences.SaveChanged | src/bin/local/companion.rs:167-185 | new and changed manual entries are saved once, pauses recorded and lifted |
| Preferences.MatchingWithout | src/bin/local/companion.rs:294-304 | dropping one normalized endpoint leaves the rules of every other endpoint |
| Operations.MergingRecordsTheEvent | src/bin/local/companion.rs:155-191 | merging the change of one entry turns the saved decisions into those after that one decision |
| Operations.OperationEvent | src/bin/local/companion.rs:522-640 | every served mutation changes one entry and amounts to the decision read off the request |
| Operations.ServedAsAsked | src/bin/local/companion.rs:522-640 | what each of the four mutations has done when it succeeds; a new entry is paused, without a tunnel, if and only if it was detected and its port is among the paused ones |
| Operations.CommitSaves | src/bin/local/companion.rs:155-191 | what is saved of each of them: a pause set or lifted by switching a detected forward, a rule with the fields of a manual one, and nothing else |
| PreferenceRuns.PreferencesAreSerializable | src/bin/local/companion.rs:193-258 | for any interleaving of any number of companions the files hold the fold of the users' decisions in lock order; an undone mutation counts exactly if the file its decision is about could not be put back |
| PreferenceRuns.StepOfOne | src/bin/local/companion.rs:193-258 | what one companion does to its registry and the files is a step of the whole system |
| PreferenceRuns.OthersAreUntouched | src/bin/local/companion.rs:155-191 | other endpoints' rules never change, and removing an automatic forward never lifts its pause |
| Companions.Companion.MutateAndPersist | src/bin/local/companion.rs:193-258 | every outcome is one step of those runs and has its reason in what the files and SSH answered; served: done as asked, saved as asked, and registry, files and published state agree; not started or refused: nothing changed; not saved: what each rollback step restores, and what a file keeps otherwise |
| Companions.Companion.RollBack | src/bin/local/companion.rs:225-254 | tunnels, both files and the published state are each tried once, independently, and restored as far as that worked |
| Companions.Companion.Save | src/bin/local/companion.rs:155-191 | both files are loaded afresh, then written, then the state is published, up to the first step that fails; the files hold the merge with what was saved before as far as the writes worked |
| Companions.Companion.Mutate | src/bin/local/companion.rs:522-640 | either the paused ports could not be loaded and nothing happens, or it is one registry call with its answer and its SSH calls; an answer of success means done as asked |
| Undo.UndoKeepsEntries | src/bin/local/companion.rs:225-232 | undoing any one mutation keeps entries well formed and backed, and restores everything if SSH cooperates |
| Undo.UndoLeaks | src/bin/local/companion.rs:225-232 | undoing a mutation adds exactly the outlived tunnels to the strays, and the registry stays truthful if and only if there are none |
| Companions.Companion.RestoreManual | src/bin/local/companion.rs:117-153 | one creation per saved rule in order, up to the first failure, with exactly the SSH calls of these creations |
| ManualReload.ReloadIsFaithful | src/bin/local/companion.rs:117-153 | a key-unique list reloads exactly when every rule is served, into one faithful manual entry per rule |
| ManualReload.RuleRequestIsValid | src/bin/local/companion.rs:130-145 | a synthesized request is valid if and only if its port is not zero and its host is accepted |
| ManualReload.SavedRulesComeBack | src/bin/local/companion.rs:285-292 | the rule saved for an entry comes back as a manual entry of the same endpoint and switch, on the same port when paused and on the least usable port from there on when enabled |
| Recovery.RecoveryIsSafe | src/bin/local/transport.rs:40-151 | over every run: with the gate open and the master alive the open tunnels are exactly those of the enabled entries and, on other ports, the strays that rollbacks left; a failed attempt leaves none |
| Recovery.ARollbackLeaks | src/bin/local/companion.rs:225-232 | a run in which a rollback leaves a stray tunnel |
| Recovery.NextKeepsSafe | src/bin/local/transport.rs:40-151 | every single step of clients, worker and environment keeps that |
| Recovery.OutagesKeepEntries | src/bin/local/transport.rs:60-142 | through any number of attempts ids, switches, endpoints and origins stay and local ports only rise |
| Recovery.OpeningNeedsFreshHeartbeat | src/bin/local/transport.rs:61-133 | the gate opens only before the deadline, and only on a heartbeat no older than the beginning of the attempt, before it connects |
| Recovery.GateClosesExactly | src/bin/local/transport.rs:42-53 | the gate closes exactly when the master is dead or the last heartbeat is more than ten seconds old |
| Recovery.FailureIsFinal | src/bin/local/transport.rs:143-148 | after giving up the gate stays closed and nothing is opened |
| Recovery.RecoveredOutage | src/bin/local/transport.rs:53-133 | from closing to opening: same entries, and exactly their tunnels if the master lives |
| Supervisor.Worker.Recover | src/bin/local/transport.rs:42-149 | the worker's loop follows the step system and ends with the gate open and the tunnels rebuilt, or closed with none; it then has made an attempt, gives a reason for every one, a second apart, and stopped only when asked or at the deadline |
| Supervisor.Worker.Attempt | src/bin/local/transport.rs:61-126 | one attempt begins at once, starts one master and runs its commands in order; it opens the gate, or takes its master down for a reason: no master, a refused command, a replay that failed with its error, a stop request, the deadline, or a master that died while waiting |
| Supervisor.Worker.AwaitHeartbeat | src/bin/local/transport.rs:97-116 | its looks are at least 200 ms apart and it goes on exactly while there is time, no fresh heartbeat and a live master; it succeeds exactly if the last look saw a fresh heartbeat in time |
| Supervisor.Worker.ReplayTunnels | src/bin/local/transport.rs:69-77 | a replay on the fresh master is a step of the system, and a failed one has its error |
| Reconciliation.DetectAll | src/bin/plugin/lifecycle.rs:410-467 | one request per pane and listening port, and no other |
| Reconciliation.DetectedFields | src/bin/plugin/lifecycle.rs:446-466 | what a detected request names, field by field |
| Reconciliation.DetectedIsValid | src/bin/plugin/lifecycle.rs:446-466 | the registry accepts it if and only if port, host, pane and label are acceptable |
| Reconciliation.DetectedCreation | src/bin/plugin/lifecycle.rs:446-466 | a forwardable listener is turned down exactly for want of room or of a local port, or by SSH, and otherwise has an entry with its process |
| Reconciliation.GoneExactly | src/bin/plugin/lifecycle.rs:469-480 | deleted are exactly the automatic entries without an active pane that listens on the port and still has the process |
| Reconciliation.Deletions | src/bin/plugin/lifecycle.rs:469-480 | exactly the automatic entries whose pane, process or port is gone, each once |
| Reconciliation.Reconcile | src/bin/plugin/lifecycle.rs:529-553 | deletions before creations, each request sent once; failures, lost requests included, are collected in order and never stop the pass; created ones counted |
| Convergence.CreatedAreUncovered | src/bin/plugin/lifecycle.rs:555-570 | requested are exactly the detected listeners without an automatic entry of the same pane, process and port |
| Convergence.CreationsLeave | src/bin/plugin/lifecycle.rs:541-550 | requested endpoints exist and know their process; all other entries are as before |
| Convergence.Pass | src/bin/plugin/lifecycle.rs:396-514 | a pass without errors has that effect on the registry |
| Convergence.NothingIsGone | src/bin/plugin/lifecycle.rs:469-480 | after a successful pass no entry is to be deleted |
| Convergence.CoverageAfterPass | src/bin/plugin/lifecycle.rs:481-497 | a detected listener is covered afterwards if and only if it was before or no manual entry holds its endpoint |
| Convergence.SecondPassIsQuiet | src/bin/plugin/lifecycle.rs:469-497 | a second pass deletes nothing and requests nothing, the latter if and only if no manual entry is in the way |
| Convergence.RecordedProcess | src/bin/plugin/lifecycle.rs:578-591 | every automatic entry is on a listening port of an active pane and records a process of it, or never recorded any |
| Convergence.RecordedProcessWhenHostsAgree | src/bin/plugin/lifecycle.rs:578-591 | with matching hosts every automatic entry records a process of its pane |
| Convergence.EndpointAfterPass | src/bin/plugin/lifecycle.rs:555-570 | exactly which detected endpoints have an entry afterwards |
| Convergence.ReboundListenerIsMissed | src/bin/plugin/lifecycle.rs:559-569 | a listener that moves to the other loopback address is not forwarded again |
| Watcher.PaneWatcher.Turn | src/bin/plugin/lifecycle.rs:200-249 | every turn subscribes, waits, lists the sessions and scans in this order and for these reasons, and keeps: seen, or an event waits, or the next subscription is followed by a scan, or a timed-out read has swallowed the only event |
| Watcher.PaneWatcher.Begin | src/bin/plugin/lifecycle.rs:191-196 | subscribing before the first scan leaves no gap |
| Watcher.PaneWatcher.Wait | src/bin/plugin/herdr.rs:829-858 | the result follows from what had arrived; a wait that reports nothing leaves every pending change pending, unless its timeout swallowed the only event, and then it says which |
| Watcher.TimedOutReadLoses | src/bin/plugin/herdr.rs:829-858 | something was pending and nothing is after a timed-out read, if and only if the read took the text of the only waiting event without its line end |
| Watcher.SwallowedEventIsLost | src/bin/plugin/herdr.rs:834-840 | a concrete stream where that happens |
| Watcher.ReadsFirstLine | src/bin/plugin/herdr.rs:834-842 | a line that has arrived is read whole and the rest of the stream stays |
| Lease.Heartbeats.Once | src/bin/plugin/lifecycle.rs:327-358 | one heartbeat per session in order up to a clean-up that fails; per session failing since the first failure after the last success, cleaned up exactly after the grace |
| Lease.RepairedOutagesAreNotReaped | src/bin/local/transport.rs:16-133 | with answered heartbeats, outages repaired by the deadline never make the watcher reap, if and only if lease, noticing, termination and recovery fit into the grace |
| Lease.TickKeepsTimely | src/bin/plugin/lifecycle.rs:327-358 | every tick keeps: the watcher has failed no longer than the last heartbeat is old, and a session is reaped at the missed deadline at the earliest |
| Lease.TickKeepsBounded | src/bin/local/transport.rs:42-133 | how old the last heartbeat can be in each phase, through every command of an attempt |
| Lease.ReopeningIsFresh | src/bin/local/transport.rs:61-133 | the heartbeat that reopens the gate is at most 6.2 seconds old, because it can only arrive once the new session file is being installed |
| Lease.LongOutageIsReaped | src/bin/plugin/lifecycle.rs:48 | if the delays do not fit, an outage that is repaired before its deadline and in which the watcher reaps the session |
| Lease.UnansweredHeartbeatsAreReaped | src/bin/plugin/lifecycle.rs:333-350 | heartbeats whose answers are lost lead to reaping while the companion sees no outage |
| ProcessTree.Search | src/bin/plugin/herdr.rs:421-462 | queue and cap compute the first 512 ids of the level-by-level search |
| ProcessTree.SearchIsExact | src/bin/plugin/herdr.rs:421-462 | no repeats, nearest first, only ids within the depth, all of them unless the cap is reached |
| ProcessTree.LevelsAreSpheres | src/bin/plugin/herdr.rs:434-460 | the n-th level is exactly the set of ids at distance n, cycles and duplicates included |
| ProcessTree.ChildrenByParent | src/bin/plugin/herdr.rs:426-432 | the table lists each parent's children, sorted |
| Detect.StripAnsi | src/detect.rs:12-61 | the byte loop stays on character boundaries and computes the stripping of characters |
| Detect.StripLeavesNoEscape | src/detect.rs:12-61 | the result has no ESC |
| Detect.StripAfterText | src/detect.rs:12-61 | text without ESC in front is kept as it is |
| Detect.StripIdempotent | src/detect.rs:12-61 | stripping twice is stripping once |
| Detect.StripRendered | src/detect.rs:12-61 | any concatenation of plain text and complete sequences strips to its plain text if and only if no sequence has intermediate characters and no SOS string has text of its own |
| Detect.StripRemains | src/detect.rs:12-61 | exactly what is left of any concatenation of plain text and complete sequences |
| Detect.LeavesNothing | src/detect.rs:51-57 | nothing is left of an SOS string if and only if it is made of escape sequences alone; without ESC in it, if and only if it is empty |
| Detect.IntermediatesLeaveText | src/detect.rs:51-57 | sequences with intermediate characters leave their rest behind |
| Detect.CharacterStringsStay | src/detect.rs:51-57 | the character string of SOS stays whole |
| Detect.SanitizeIdempotent | src/detect.rs:63-68 | display text has no control characters and is stable |
| Detect.SanitizeKeepsText | src/detect.rs:63-68 | every other character of the stripped text stays, in its place |
| Detect.FindUrlsLoop | src/detect.rs:70-106 | the collecting loop computes the specified candidates |
| Detect.FindUrlsIsExact | src/detect.rs:70-106 | each loopback endpoint of the text once, ordered by port, none missed, nothing else |
| Strings.WordsJoin | src/detect.rs:74 | a whitespace character separates the words of what stands before it from those behind it |
| UrlGrammar.CandidateExactly | src/detect.rs:75-114 | a word is a candidate exactly if, without the punctuation around it, it is scheme, loopback host with or without brackets, port and a rest; and then with these parts |
| Model.AcceptedRequest | src/model.rs:31-55 | an accepted request names a usable port, a loopback host and a loopback URL for that port |
| Model.ValidateExactly | src/model.rs:31-55 | a request is accepted exactly within all limits, and refused for the first fault in order |
| Model.ComposedRequestIsValid | src/model.rs:31-55 | every request the program composes for an accepted host and a port is valid |
| Model.LoopbackUrlIsCandidate | src/detect.rs:85-114 | a composed URL is found again as a candidate for its own host and port |
| Sessions.StorageKeysAreDistinct | src/model.rs:102-115 | two sessions never share a storage key |
| Sessions.StorageKeyIsSafe | src/model.rs:102-131 | exactly the acceptable session names have a key, and it is a short file name of safe characters |
| Http.Connection.ReadParts | src/bin/local/http.rs:121-232 | what is returned follows from the reads, the one interim answer and the stop flag; nothing is read or written beyond them, and every error of the connection has happened |
| Http.Connection.ReadHeader | src/bin/local/http.rs:126-137 | the first loop finds the blank line or fails as specified |
| Http.Connection.ReadBody | src/bin/local/http.rs:220-222 | the last loop reads until the declared length is there |
| Http.CollectHeaders | src/bin/local/http.rs:162-189 | the header loop computes the specified list or the first failure |
| HttpProofs.HeadIsFoundUnlessCut | src/bin/local/http.rs:126-137 | up to three bytes below the limit always, in the last three positions exactly when no read ends in the gap |
| HttpProofs.LongHeadIsRefused | src/bin/local/http.rs:128-135 | beyond the limit, or without a blank line, the header is refused |
| HttpProofs.SameBytesTwoOutcomes | src/bin/local/http.rs:126-137 | the same bytes in two cuttings: accepted and refused |
| HttpProofs.BlankLineIsFound | src/bin/plugin/rpc.rs:43-50 | the blank line found is the one that was printed |
| Utf8.EncodeDecoded | src/bin/local/http.rs:139 | the header is decoded strictly: only encodings decode |
| HttpProofs.PrintedHeadParses | src/bin/local/http.rs:138-219 | the printed header parses to the method whose text was printed (any other word to the unknown method), path, headers and length |
| HttpProofs.RequestLineExactly | src/bin/local/http.rs:140-160 | exactly the lines of method, path and known version, one space apart, are accepted, with that meaning |
| HttpProofs.HeaderLineExactly | src/bin/local/http.rs:163-189 | a header line is accepted exactly if its name is a token, its value has no control characters but tabs, and no guarded header is repeated |
| HttpProofs.RequestRoundTrip | src/bin/local/http.rs:121-232 | under any cutting and with any bytes behind it a printed request is read back exactly, its method included |
| HttpProofs.ResponseRoundTrip | src/bin/plugin/rpc.rs:58-77 | status and body of every answer that fits are split off as they were sent |
| HttpProofs.AcceptedHeadIsUnambiguous | src/bin/local/http.rs:161-219 | an accepted header has no transfer encoding, no repeated framing or authorization header, a length that is its numeral and bounded, and no expectation but the one known |
| Dashboard.OrderIsStable | src/bin/plugin/dashboard_render.rs:620-649 | the order is a sorted permutation that keeps equal entries in place |
| Dashboard.OrderMeans | src/bin/plugin/dashboard_render.rs:620-649 | automatic entries come first, by space number, space id, tab number, tab id and pane, unknown panes last; manual ones by id |
| Dashboard.SortForDisplay | src/bin/plugin/dashboard_render.rs:608-618 | the sorted list is the list in that order |
| Dashboard.SortedIsShownInOrder | src/bin/plugin/dashboard_render.rs:608-649 | after sorting, index order is shown order |
| Dashboard.TreeLines | src/bin/plugin/dashboard_render.rs:361-519 | the loop draws headings and entries as specified |
| DashboardProofs.TwoLinesEach | src/bin/plugin/dashboard_render.rs:393-417 | each entry owns exactly two adjacent lines |
| DashboardProofs.EntriesAreUnderTheirHeadings | src/bin/plugin/dashboard_render.rs:419-517 | reading the lines from the top tells of each entry its space, tab and pane as Herdr places it, or that it is manual |
| DashboardProofs.HeadingsAreUnique | src/bin/plugin/dashboard_render.rs:429-490 | with numbers determined by ids no heading is drawn twice |
| DashboardProofs.HeadingsArePresent | src/bin/plugin/dashboard_render.rs:429-490 | every automatic entry has its three headings above it |
| DashboardProofs.SelectedIsVisible | src/bin/plugin/dashboard_render.rs:163-174 | both lines of the selected entry are in a window of two rows or more, which starts at the top or ends right behind them |
| DashboardProofs.ClicksMeanWhatIsDrawn | src/bin/plugin/dashboard_render.rs:521-547 | a click means the entry drawn on that row, or nothing |
| HerdrConfig.Document.AddPortsRow | src/herdr_config.rs:211-239 | adds the row behind the explicit or default rows, or finds it there, or refuses |
| HerdrConfig.Document.RemovePortsRow | src/herdr_config.rs:241-256 | takes out the first ports row, or finds none, or refuses |
| HerdrConfig.Document.SetDelivery | src/herdr_config.rs:156-165 | sets the delivery in the toast table, or finds it set, or refuses |
| HerdrConfig.NotifiedKeepsOthers | src/herdr_config.rs:156-165 | the delivery is set and every other value kept; refused exactly if one of the two tables is something else |
| ConfigFingerprint.Collect | src/herdr_config.rs:338-369 | the loops produce one line per value outside the rows: its keys joined by dots, and its text |
| ConfigFingerprint.FingerprintIsFaithful | src/herdr_config.rs:338-369 | in documents over any set of names, equal fingerprints mean equal values outside the rows if and only if different paths over these names join differently |
| ConfigFingerprint.PlainNamesJoinApart | src/herdr_config.rs:345-369 | paths over names without dots that are no numerals join differently; over names that come with the parts between their dots, only those do |
| ConfigFingerprint.DottedNamesAreConfused | src/herdr_config.rs:365 | for every name with a dot, two different documents with the same fingerprint |
| ConfigFingerprint.NumeralsAreConfused | src/herdr_config.rs:358-363 | for every array index, a document with that index and one with the key that spells it, with the same fingerprint |
| ConfigFingerprint.ListingIsExact | src/herdr_config.rs:338-369 | the values listed below a table are exactly those its paths lead to, the rows apart |
| ConfigFingerprint.SameOutsideSameFingerprint | src/herdr_config.rs:258-268 | documents that differ in the rows only have the same fingerprint |
| HerdrConfig.Verify | src/herdr_config.rs:258-295 | the self-check accepts exactly the same fingerprint and one ports row come or gone |
| HerdrConfig.UpdatePortsRow | src/herdr_config.rs:138-154 | everything outside the rows is kept; when it refuses is exact; the self-check never refuses an added row, and a removed one exactly when there were two or more |
| HerdrConfig.RowsAfterSwitch | src/herdr_config.rs:211-256 | on puts the row behind the others unless it is there; off takes the one row out and moves up the others |
| HerdrConfig.SetRowsKeepsOutside | src/herdr_config.rs:211-239 | setting the rows changes no value outside them |
| HerdrConfig.RemovedIsVerified | src/herdr_config.rs:258-295 | a removal passes the self-check if and only if there was one ports row |
| HerdrConfigProofs.SwitchingIsIdempotent | src/herdr_config.rs:138-154 | switching on twice is like once, switching off twice too |
| HerdrConfigProofs.OnAndOffRestores | src/herdr_config.rs:211-256 | on and off restores explicit rows if and only if they did not hold exactly one ports row |
| HerdrConfigProofs.OnAndOffWritesDefaults | src/herdr_config.rs:215-224 | without explicit rows, on and off writes the default rows down |
| HerdrConfigProofs.EditsCommute | src/herdr_config.rs:138-165 | the sidebar and the notification edit give the same configuration in either order, refusals included |
| Shell.QuoteRoundTrip | src/shell.rs:5-7 | a quoted text is read as exactly that word if and only if it has no NUL |
| Shell.DashboardCommandRoundTrip | src/bin/plugin/lifecycle.rs:837-853 | the composed command is read as exactly the intended words |

## Left out

- Recovery.Next: the test of the recovery flag and the mutation behind it are one step, although the source reads the flag before it takes the registry lock.
- ForwardRegistry.Registry.Create: the id counter is assumed below its largest value wherever a contract promises well-formed entries; what happens there is stated separately.
- Preferences.Merge: the order of saved rules and of the paused list in the files, and their JSON text.
- Reconciliation.Send: deletions and creations act on the registry directly; the saving of preferences around each of them is in `Companion` only, and other clients do nothing during a pass.
- Convergence.Pass: parsing of `lsof`, `ss`, `ps` and Herdr's JSON, the eight second deadline, and the dashboard and notification calls after the pass; an observation is a given table of panes, processes and listeners.
- Watcher.PaneWatcher.Turn: a scan that fails is logged by the source and not repeated before the next event, probe or interval; here a scan counts from when it began, whether or not it succeeded. The foreground probe and the interval are arbitrary further reasons to scan.
- Lease.RepairedOutagesAreNotReaped: one session; heartbeats are sequential, both clocks run at the same rate, an attempt never draws the reverse port of the previous session file again, and its remote commands end within their time limits.
- ProcessTree.Search: the 32-bit range of process ids.
- Detect.StripAnsi: the byte loop is over the encoded text; invalid UTF-8 cannot reach it.
- Supervisor.Worker.ReplayTunnels: no time passes within a replay, so that all its questions whether to stop get the same answer.
- Http.Connection.ReadParts: sockets, timeouts and the waiting for bytes are arbitrary failures between arrivals.
- Rpc.SplitResponse: the JSON in the body, and what replaces invalid UTF-8 in a status line.
- Dashboard.TreeLines: the text, colours and branch drawings of the lines, and keyboard handling.
- HerdrConfig.UpdatePortsRow: comments, formatting and key order of the TOML text.
- The popup shortcut edit of the configuration, and the extraction of default rows from Herdr's commented default configuration.
- Shell lexing beyond blanks, quotes and backslashes: a line with any other special character outside quotes is not read.
- Starting and stopping of processes, SSH commands, key exchange, remote installation, release download, the command line and its help.
- Lock poisoning and thread scheduling: each region under a lock is one step.

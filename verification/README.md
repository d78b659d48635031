# psycheval: evidence, trajectories, lifecycles and files

psycheval runs coding agents on the host, keeps what they said as evidence, and turns it into ATIF-v1.7
trajectories. This project models the parts of it that keep state over unbounded runs or transform structured
input, and proves what they promise. Line numbers below refer to the Python files under `src/psycheval`.

## Components

* **Host lifecycle** (`HostLifecycle`, `HostChanges`). The event loop runs one task at a time, so `start`, `stop`,
  `exec` and the filesystem calls are atomic sections between `await`s. Class `HostEnvironment` updates the shared
  fields; a state machine interleaves any number of calls, processes, termination tasks and workers. `HostChanges`
  says for each field which events change it.
* **ACP evidence** (`Evidence`, `EvidenceReading`, `Transport`, `StrictTransports`, `AcceptedTraffic`, `JsonLimits`).
  One budget admits what several gzip writers retain; a JSON-RPC 2.0 transport records before it acts; bounded readers
  check the closed files and frame the event log again. `AcceptedTraffic` says on the wire log alone which messages
  get through.
* **ACP projection** (`AcpConvert`, `AcpLog`, `AcpCalls`). The event log becomes steps, calls and observations; `AcpLog`
  and `AcpCalls` say what they are in terms of the events and the last updates in the log.
* **Session compiler** (`ClaudeSession`, `ClaudeTranscript`, `ClaudeFamily`, `FamilyLinks`, `MessageAdapter`,
  `AdapterFacts`, `Finalize`, `FinalizedFacts`, `FinalizeTwice`, `Atif`, `AtifRules`). Events become messages,
  messages become steps, subagent files are linked by a depth-first search, finalization repairs the result, and the
  ATIF validator is the independent specification of what comes out. `ClaudeTranscript`, `FamilyLinks`, `AdapterFacts`
  and `FinalizedFacts` say what the results carry, in terms of the events, files and records alone; `AtifRules` lists
  the offences that the validator knows.
* **Files** (`SkillInstall`, `AtomicFiles`, `ReportState`, `ReportLibrary`, `Leases`). Replacement that survives
  crashes, all-or-nothing writing, and management state edited under leases beside a cache.
* **Text that must survive** (`TextLines`, `LineTables`, `TomlTables`, `ConfigFile`, `ConfigText`, `Redaction`,
  `RedactionFacts`, `HostPaths`, `UnquotedPaths`, `CommandTranslate`). Rewriting of owned TOML tables, redaction of
  JSON strings, and translation of virtual paths in shell commands (quoting as in section 2.2 of the POSIX.1-2017
  Shell Command Language).

A class follows each class of the program that updates its fields; its methods are proved equal to a function of
the old state, and the runs and invariants are proved about that function. Loops are methods with invariants.

## What is assumed

* gzip (RFC 1952): a finished stream inflates to the concatenation of the admitted data, every sync-flushed prefix
  inflates to a truncated member with the same data, finishing takes at most 20 bytes, and a decompressor makes
  progress. `Evidence.LawsAreSatisfiable` gives a codec that meets the laws.
* JSON encoding of events is injective, is decoded by its decoder, and holds no raw line feed.
* A rename is atomic. Any file system call may fail or be the last one before a crash, where the text below says so.
* SHA-256 digests stand for the data that they are taken of.
* TOML: a text that begins with a table header whose quoted key is still open at the end of the line is refused.
  `ConfigText` reads tables of the shapes that the program renders; its strings are those of TOML v1.0.0, where an
  escape by number must be a character (Unicode scalar value) and control characters other than tab are refused.

## Where the code does not do what it is for

Each of these is a lemma with a concrete input, beside the exact condition under which the property holds.

* `HostLifecycle.CancelledStartDeletesUnderLivingProcess`: `start` awaits `_stop_commands` without owning it as a
  task. Cancelled after the failed terminations were dropped from the registry, it forgets a living process, and the
  next start deletes the workspace under it. `CancellationIsSafe` says exactly when a cancellation does that.
* `Transport.PromptEndsReplay`: a submitted `session/prompt` also leaves the replay phase, and the answer to the load
  then moves the prompt phase back to setup. `LeavingReplay` is the exact account.
* `ReportLibrary.RacingScanMissesReference`: a state file that is replaced between the stat and the opening is given
  up, and its report then binds nothing, in this answer and in the cache. `DroppedExactly` says when.
* `SkillInstall.HandlerLosesBoth`: an error while the backup is being removed makes the handler remove the new skill
  and restore what is left of the backup. `Spoils` says when.
* `AtomicFiles.WriteFilesAtomically`: a staging write that fails after creating its temporary leaves it behind.
  `Leaks` says when. A path listed twice makes the call fail and roll back.
* `FinalizeTwice.StrayDoesNotRepeat` and `MisnamedDoesNotRepeat`: metadata that name another call than their result
  will have, or none beside a tool with an empty id, give the result the execution time of another tool the second
  time. `SettlesAll` says exactly when, on the conversion that is passed in.
* `UnquotedPaths.RootBehindEquals`: that no host path begins with a root does not make the sequential replacement a
  single pass: a root behind `=` inside a host path is replaced as well. `Undisturbed` is the exact condition; it
  evaluates the later replacements on finitely many short texts, because a later root may undo what an earlier one
  did, which no condition on pairs of roots can see when there are more than two.
* `ConfigFile.SecondWriteFails`: titles are written without escaping U+2028 and its like, which `splitlines` takes for
  line ends. The end of such a title can look like a header, so that the next writing leaves it behind as the first
  line; `tomllib` then refuses the text before anything is written. `WritingAgentsTwice` is the exact condition.
* `ConfigText.WidePathIsNotRead`: paths are escaped as in JSON, where a character beyond U+FFFF becomes two surrogate
  escapes. TOML knows no such escapes, so a dataset or mount below a directory with such a name cannot be written at
  all. A title or argument with the character DEL, which is left as it is, has the same fate. `AgentsAreRead` and
  `HarborIsRead` are the exact conditions.

## Model

| member | source | states |
|---|---|---|
| `HostLifecycle.HostEnvironment.RequireCommandReady` | src/psycheval/harbor/environment.py:1790-1799 | a command is admitted exactly between start and stop, or by the initialization task that was not cancelled |
| `HostLifecycle.HostEnvironment.AdmitFilesystem` | src/psycheval/harbor/environment.py:503-526 | a refused operation leaves no trace, an admitted one is registered in the same atomic section |
| `HostLifecycle.HostEnvironment.RegisterProcess` | src/psycheval/harbor/environment.py:1679-1690 | a spawned process is active before the launch lock is released |
| `HostLifecycle.HostEnvironment.TerminateProcess` | src/psycheval/harbor/environment.py:1801-1816 | one termination task per process: a registered one is shared, otherwise the new one is registered |
| `HostLifecycle.HostEnvironment.SnapshotCommands` | src/psycheval/harbor/environment.py:942-957 | under the launch lock every active or terminating process is collected, and exactly the failed terminations are dropped for a retry |
| `HostLifecycle.HostEnvironment.ForgetSettled` | src/psycheval/harbor/environment.py:985-988 | exactly the terminations of the collected processes are forgotten |
| `HostLifecycle.HostEnvironment.FinishCommand` | src/psycheval/harbor/environment.py:1755-1783 | a finished command is no longer active, and its termination stays registered unless it succeeded |
| `HostLifecycle.StepKeepsInv` | src/psycheval/harbor/environment.py:942-993 | every atomic section of every interleaving keeps the invariant on registries, tasks, calls and the world, cancelled stops and starts included, unless a cancelled startup loses a process |
| `HostLifecycle.RunKeepsInv` | src/psycheval/harbor/environment.py:676-703 | the invariant holds in every reachable state |
| `HostLifecycle.DeletionIsSafe` | src/psycheval/harbor/environment.py:925-1042 | whenever owned directories are being deleted, no spawned process lives and no admitted filesystem worker runs, in every run in which no cancellation loses a process; `CancellationIsSafe` shows that this is the exact condition, and `DeletesOnlyWhenAsked` that a stop deletes only when asked to |
| `HostLifecycle.StepAdmitsNothing` | src/psycheval/harbor/environment.py:945-990 | from the launch-lock section of a stop until its end one step spawns nothing and admits no filesystem operation |
| `HostLifecycle.NothingIsAdmitted` | src/psycheval/harbor/environment.py:945-993 | the same in every run: nothing is admitted between the snapshot and the deletion |
| `HostLifecycle.LivingProcessesStayTracked` | src/psycheval/harbor/environment.py:1755-1783 | between lifecycle calls every living process is in a registry that the next stop looks at |
| `HostLifecycle.FailedTerminationBlocksDeletion` | src/psycheval/harbor/environment.py:958-984 | a stop that awaited a failed termination ends without deleting, and the living process stays tracked |
| `HostLifecycle.StepKeepsActive` | src/psycheval/harbor/environment.py:1679-1691 | every active process belongs to a call, only preparation commands run while start initializes, and none is active or being spawned while the environment is otherwise not started |
| `HostLifecycle.CancellationIsSafe` | src/psycheval/harbor/environment.py:676-703 | after any run, cancelling a start during its cleanup leaves deletion safe in all continuations if and only if no living process is missing from the registered terminations |
| `HostLifecycle.RegisteredIsSafe` | src/psycheval/harbor/environment.py:945-963 | the same as far as the program can see it: a cancellation is harmless when every gathered termination request has a registry entry |
| `HostLifecycle.LostIsDeletedUnder` | src/psycheval/harbor/environment.py:683-686 | whatever else is registered, terminating or working, a process that no registry knows can be deleted under: the next start drops, requests and awaits all other terminations, succeeds, and deletes |
| `HostLifecycle.CancelledStartDeletesUnderLivingProcess` | src/psycheval/harbor/environment.py:683-698 | a concrete run in which a cancelled start loses a living process and its directories are deleted |
| `HostLifecycle.RunKeepsAsked` | src/psycheval/harbor/environment.py:925-993 | in every run a stop that is under way goes by what the latest call of stop asked for, read off the list of actions; the cleanups of start always delete |
| `HostLifecycle.DeletesOnlyWhenAsked` | src/psycheval/harbor/environment.py:925-993 | whenever a stop deletes, the latest call of stop in the run asked for deletion |
| `HostLifecycle.StopKeepsRuntime` | src/psycheval/harbor/environment.py:925-993 | from a stop that must not delete until it ends, nothing is deleted: workspace, runtime root and `started` are what they were |
| `HostLifecycle.StopDeletes` | src/psycheval/harbor/environment.py:958-993 | the converse: a stop that must delete has deleted before it ends, unless it awaited a failed termination |
| `HostLifecycle.StartedChanges` | src/psycheval/harbor/environment.py:676-703 | the environment is started by an initialization that succeeded and no longer when a deletion begins, and by nothing else |
| `HostChanges.StoppingTells` | src/psycheval/harbor/environment.py:925-932 | in every run `stopping` is set exactly while some call of stop has not been followed by an end without error or cancellation |
| `HostChanges.RunKeepsCancelled` | src/psycheval/harbor/environment.py:925-932 | in every run a stop that is under way counts as cancelled exactly if its caller was cancelled since the latest call of stop |
| `HostChanges.DirectoriesChange` | src/psycheval/harbor/environment.py:676-1021 | owned directories appear while start goes on and disappear when a deletion removed them, and at no other time |
| `HostChanges.ActiveChanges` | src/psycheval/harbor/environment.py:1682-1783 | a process is active from its spawning until its own command is over |
| `HostChanges.TerminationsChange` | src/psycheval/harbor/environment.py:1755-1816 | a termination is registered when it is first asked for, keeps its one task, and is forgotten exactly when it succeeded and its command is over, when it failed and a stop retries, or when a stop gathered it |
| `HostChanges.TasksChange` | src/psycheval/harbor/environment.py:1801-1816 | a termination task ends once, a successful one leaves its process dead, and a new one exists only because somebody asked |
| `HostChanges.AliveChanges` | src/psycheval/harbor/environment.py:1801-1830 | a process lives from its spawning until it exits or a termination of it succeeds |
| `HostChanges.FilesystemChanges` | src/psycheval/harbor/environment.py:503-526 | an operation is registered from its admission, which needs a ready environment, until it returns |
| `HostChanges.LaunchChanges` | src/psycheval/harbor/environment.py:1679-1690 | the launch lock goes to one call at a time, which is checked for readiness again and is dropped if that fails |
| `HostChanges.GatheredAreForgotten` | src/psycheval/harbor/environment.py:945-988 | once a stop has gathered everything, no command of its snapshot is active and no process of it is registered |
| `Evidence.LawsAreSatisfiable` | src/psycheval/harbor/acp_protocol.py:410-433 | the laws assumed of the compressor have a model |
| `Evidence.WriteEffect` | src/psycheval/harbor/acp_protocol.py:422-433 | a write adds one record to its own writer or changes no record anywhere |
| `Evidence.WriteKeepsInv` | src/psycheval/harbor/acp_protocol.py:373-385 | stored bytes plus reserve and decoded bytes stay within their limits, and every stream still decodes to its records |
| `Evidence.CloseIsAdmitted` | src/psycheval/harbor/acp_protocol.py:435-444 | closing is never refused by the budget: it succeeds unless the write itself fails |
| `Evidence.StepKeepsInv` | src/psycheval/harbor/acp_protocol.py:363-444 | opens, writes, retains, frames and closes in any order keep the budget invariant |
| `Evidence.RunKeepsInv` | src/psycheval/harbor/acp_protocol.py:339-444 | in every run each unbroken stream inflates to the concatenation of what was admitted, whole exactly when closed |
| `Evidence.RefusedWriteLeavesWriters` | src/psycheval/harbor/acp_protocol.py:363-378 | a refused write leaves streams, compressors and counters as they were, and is recorded as incomplete and exhausted |
| `Evidence.CloseFromClosesAll` | src/psycheval/harbor/acp_protocol.py:396-404 | closing goes on behind a failing writer, until all are closed and the whole reserve is released |
| `Evidence.WrittenExactly` | src/psycheval/harbor/acp_protocol.py:373-433 | when a write is done, refused or impossible, in terms of the limits and the stream alone, and what each outcome leaves in writer and budget |
| `Evidence.WriteCounts` | src/psycheval/harbor/acp_protocol.py:379-433 | the counters move at least as the stream and the records of the writer do, and stay within the limits |
| `Evidence.FramesAreLimited` | src/psycheval/harbor/acp_protocol.py:346-371 | a frame is admitted exactly below the smaller limit that the byte budget gives, and always below the fixed one |
| `Evidence.EvidenceBudget.constructor` | src/psycheval/harbor/acp_protocol.py:342-361 | a fresh budget has no bytes, frames, reserve or writers |
| `Evidence.EvidenceBudget.Exhausted` | src/psycheval/harbor/acp_protocol.py:363-366 | the first exhausted kind is kept and completeness is lost |
| `Evidence.EvidenceBudget.AdmitFrame` | src/psycheval/harbor/acp_protocol.py:368-371 | frames are admitted up to the limit that the byte budget gives |
| `Evidence.EvidenceBudget.Check` | src/psycheval/harbor/acp_protocol.py:373-377 | refuses what does not fit beside the reserve, stored bytes first, and changes nothing else |
| `Evidence.EvidenceBudget.Retain` | src/psycheval/harbor/acp_protocol.py:387-394 | metadata count in both budgets or in none |
| `Evidence.EvidenceBudget.OpenWriter` | src/psycheval/harbor/acp_protocol.py:412-420 | a writer exists exactly when its closing reserve was admitted |
| `Evidence.EvidenceBudget.Write` | src/psycheval/harbor/acp_protocol.py:379-385 | bytes are counted only after they were written; a failing write breaks the file |
| `Evidence.EvidenceBudget.Close` | src/psycheval/harbor/acp_protocol.py:396-404 | all writers are closed, in order, whatever fails |
| `Evidence.EvidenceWriter.constructor` | src/psycheval/harbor/acp_protocol.py:412-420 | a new writer has an empty stream and an unused compressor |
| `Evidence.EvidenceWriter.Write` | src/psycheval/harbor/acp_protocol.py:422-433 | the in-place write is the admitted, failed or refused write of the specification on the shared budget |
| `Evidence.EvidenceWriter.Settle` | src/psycheval/harbor/acp_protocol.py:428-433 | the compressor copy is committed only when the write was done |
| `Evidence.EvidenceWriter.Close` | src/psycheval/harbor/acp_protocol.py:435-444 | the reserve is released once, and the trailer written unless the file is broken |
| `EvidenceReading.Decoder.Decompress` | src/psycheval/harbor/acp_protocol.py:255-266 | each call yields the next piece of the decoded member, keeps what it did not consume, and makes progress |
| `EvidenceReading.EvidenceReader.NextChunk` | src/psycheval/harbor/acp_protocol.py:243-254 | unconsumed input comes before the file, and a file over the limit is refused |
| `EvidenceReading.EvidenceReader.Read` | src/psycheval/harbor/acp_protocol.py:242-271 | a reader fails only on a file that is not acceptable; empty data mean the end of the file |
| `EvidenceReading.EvidenceReader.Finish` | src/psycheval/harbor/acp_protocol.py:273-275 | a file is finished when its member ended and nothing is pending |
| `EvidenceReading.EvidenceManifest` | src/psycheval/harbor/acp_protocol.py:290-319 | a manifest exists if and only if every present file is one whole member within the limits and the totals fit; it then describes stored and decoded data |
| `EvidenceReading.VerifyEvidence` | src/psycheval/harbor/acp_protocol.py:322-336 | verification passes if and only if the invocation is named, all files are expected, and the manifest is the expected one |
| `EvidenceReading.TakeLines` | src/psycheval/harbor/acp_evidence.py:230-243 | the inner loop takes exactly the complete lines; framing what follows is unaffected by where the buffer was cut |
| `EvidenceReading.AddChunk` | src/psycheval/harbor/acp_evidence.py:228-245 | after any chunk the events, buffer and count are those of framing the whole data so far, and a fault has the same events |
| `EvidenceReading.FollowReader` | src/psycheval/harbor/acp_evidence.py:224-247 | the outer loop follows a reader to its end |
| `EvidenceReading.ReadEvents` | src/psycheval/harbor/acp_evidence.py:220-250 | for every way the reader cuts the stream, an acceptable file yields exactly the frames of its decoded data |
| `EvidenceReading.FramedLines` | src/psycheval/harbor/acp_evidence.py:228-249 | framing inverts writing lines: neither limit rejects an admissible log, and the events come back in order |
| `EvidenceReading.WriterFileIsWhole` | src/psycheval/harbor/acp_protocol.py:435-444 | a cleanly closed writer leaves one whole member holding its records |
| `EvidenceReading.TotalsFit` | src/psycheval/harbor/acp_protocol.py:297-315 | the totals of cleanly closed files are within the budget that admitted them |
| `EvidenceReading.ClosedFilesAreAccepted` | src/psycheval/harbor/acp_protocol.py:290-336 | cleanly closed evidence passes manifest and verification under the limits it was written with |
| `JsonLimits.ValidateStructure` | src/psycheval/harbor/acp_protocol.py:99-113 | the worklist accepts exactly the values with at most 65536 nodes, at most 32 levels on every path and finite numbers only, whatever order it visits |
| `Transport.StepKeepsInv` | src/psycheval/harbor/acp_protocol.py:485-587 | every send, receive and close keeps log, pending requests, phase and evidence in step |
| `Transport.RunKeepsInv` | src/psycheval/harbor/acp_protocol.py:447-602 | the transport and budget invariants hold in every reachable state |
| `Transport.EvidenceIsTraffic` | src/psycheval/harbor/acp_protocol.py:485-587 | while the protocol is complete, retained stdin is what the child got, retained stdout what was read, the log is in wire order with its phases, at most 32 requests are outstanding and they are the unanswered ones; a line reaches the child only after it was retained |
| `Transport.RecordedEventsFrame` | src/psycheval/harbor/acp_protocol.py:472-483 | the frame limit and the size tests of the reader never reject what the transport recorded |
| `Transport.FilesDecode` | src/psycheval/harbor/acp_protocol.py:593-601 | the closed files decode to the records of the three streams |
| `Transport.ClosedEvidenceReadsBack` | src/psycheval/harbor/acp_protocol.py:290-319 | from any reachable, cleanly closed transport the evidence is accepted and reads back as exactly the recorded events, which are the whole traffic if the protocol is complete |
| `Transport.ReadEvidenceBack` | src/psycheval/harbor/acp_evidence.py:253-283 | manifest, verification and reader composed: on the files of any reachable, cleanly closed transport the manifest is made, verification passes against it, and the events are those recorded, which are the wire log if the protocol is complete |
| `Transport.LeavingReplay` | src/psycheval/harbor/acp_protocol.py:497-505 | the replay phase ends if and only if the awaited load response is accepted or a prompt is submitted |
| `Transport.SendLeavesReplay` | src/psycheval/harbor/acp_protocol.py:502-516 | a send leaves the replay phase exactly when it submits a prompt |
| `Transport.ReceiveLeavesReplay` | src/psycheval/harbor/acp_protocol.py:582-583 | a receive leaves it exactly when it accepts the response to the load |
| `Transport.PromptEndsReplay` | src/psycheval/harbor/acp_protocol.py:504-505 | a concrete run: a prompt is submitted during the replay and starts the prompt phase, and the response to the load then ends that phase while the prompt is unanswered |
| `AcceptedTraffic.RefusedSend` | src/psycheval/harbor/acp_protocol.py:485-495 | a message that may not be sent leaves nothing behind but, at most, its admitted frame |
| `AcceptedTraffic.SubmittedExactly` | src/psycheval/harbor/acp_protocol.py:485-520 | a message reaches the child if and only if it may be sent and its line and event were retained; what it leaves behind in each case |
| `AcceptedTraffic.ValidateExactly` | src/psycheval/harbor/acp_protocol.py:539-562 | a message is fine if and only if it is admissible after the wire log so far: method names, payloads and errors are read off the log, and an answer uses up its request |
| `AcceptedTraffic.DeliverExactly` | src/psycheval/harbor/acp_protocol.py:564-584 | a message is refused behind its validation exactly when it switches the model; otherwise it is delivered, and the awaited load response ends the replay |
| `AcceptedTraffic.ProcessExactly` | src/psycheval/harbor/acp_protocol.py:539-587 | a decoded message is delivered if and only if it is admissible, retained and does not switch the model |
| `AcceptedTraffic.LineExactly` | src/psycheval/harbor/acp_protocol.py:536-587 | a line is delivered if and only if it is retained and decodes to such a message; any other leaves the protocol incomplete |
| `AcceptedTraffic.OtherInput` | src/psycheval/harbor/acp_protocol.py:522-538 | the end of the input and oversized lines: what they leave of the protocol |
| `AcceptedTraffic.RunAccepts` | src/psycheval/harbor/acp_protocol.py:485-587 | in every reachable state: pending requests carry the names of their latest sent requests, and while the protocol is complete every received message was admissible where it stands in the log |
| `AcceptedTraffic.OnlyAdmissibleGetsThrough` | src/psycheval/harbor/acp_protocol.py:539-587 | while the protocol is complete, every success response in the log has a known name and a valid payload for it, every error response is well formed, every request or notification is known and valid or an admissible unknown one, and none switches the model |
| `AcceptedTraffic.DeliveredExactly` | src/psycheval/harbor/acp_protocol.py:522-587 | the converse: from any reachable complete state a line that is retained and decodes to an admissible message is delivered as that message, and no other line is |
| `AcceptedTraffic.CompletenessIsLost` | src/psycheval/harbor/acp_protocol.py:585-587 | in every run an incomplete protocol is never complete again |
| `StrictTransports.StrictTransport.constructor` | src/psycheval/harbor/acp_protocol.py:450-470 | a new transport has no pending request and is in the setup phase |
| `StrictTransports.StrictTransport.Record` | src/psycheval/harbor/acp_protocol.py:472-483 | the event is retained with the current phase, unless it is oversized |
| `StrictTransports.StrictTransport.Announce` | src/psycheval/harbor/acp_protocol.py:498-505 | what a request changes before anything is written |
| `StrictTransports.StrictTransport.Send` | src/psycheval/harbor/acp_protocol.py:485-520 | the in-place send is the send of the specification, for every I/O outcome |
| `StrictTransports.StrictTransport.Submit` | src/psycheval/harbor/acp_protocol.py:496-520 | the part of a send behind its admission, with the handler of a failure |
| `StrictTransports.StrictTransport.HandOver` | src/psycheval/harbor/acp_protocol.py:507-511 | the line is handed to the child only after line and event were retained |
| `StrictTransports.StrictTransport.Undo` | src/psycheval/harbor/acp_protocol.py:512-517 | a failed send forgets its request and restores the phase |
| `StrictTransports.StrictTransport.Fail` | src/psycheval/harbor/acp_protocol.py:585-587 | any failure of a receive makes the protocol incomplete |
| `StrictTransports.StrictTransport.Validate` | src/psycheval/harbor/acp_protocol.py:539-562 | the in-place validation is that of the specification; `AcceptedTraffic.ValidateExactly` says what it accepts |
| `StrictTransports.StrictTransport.Receive` | src/psycheval/harbor/acp_protocol.py:522-587 | the in-place receive is the receive of the specification, at the end of the input and for oversized lines too |
| `StrictTransports.StrictTransport.ReceiveLine` | src/psycheval/harbor/acp_protocol.py:536-538 | a line is admitted and retained before it is decoded |
| `StrictTransports.StrictTransport.Process` | src/psycheval/harbor/acp_protocol.py:539-563 | a decoded message is validated, then recorded |
| `StrictTransports.StrictTransport.Deliver` | src/psycheval/harbor/acp_protocol.py:564-584 | a changed model is refused after recording; the awaited load response ends the replay |
| `AcpConvert.CodebuddyOutcome` | src/psycheval/harbor/acp_evidence.py:67-122 | an outcome is an error exactly when its status is not completed, and completed exactly when no failure, missing exit or business failure is reported |
| `AcpConvert.RsiversiOutcome` | src/psycheval/harbor/acp_evidence.py:123-170 | the same for the rsiversi format with its execution values |
| `AcpConvert.OutcomeOf` | src/psycheval/harbor/acp_evidence.py:50-171 | for every format `is_error` holds exactly when the reported status is not completed |
| `AcpLog.TextsAreSaid` | src/psycheval/harbor/acp_evidence.py:279-315 | the texts of an accepted log are those of its message and thought events, each in the order of the log |
| `AcpLog.ChunkExactly` | src/psycheval/harbor/acp_evidence.py:22-30 | a chunk is read if and only if its content is an object whose text, if it is one, is a string |
| `AcpLog.UpdatesExactly` | src/psycheval/harbor/acp_evidence.py:316-340 | the updates of a call are the announcements and updates of its id that arrived during the prompt |
| `AcpLog.ItemsAreSaid` | src/psycheval/harbor/acp_evidence.py:279-340 | texts and first announcements stand in the order of their events |
| `AcpLog.StepsSayLog` | src/psycheval/harbor/acp_evidence.py:279-378 | the steps of every projection: the instruction, then one agent step for each maximal block of texts and calls in the log, numbered in order, with its texts and its calls; no text is lost or moved |
| `AcpLog.TruthyExactly` | src/psycheval/harbor/acp_evidence.py:320-321 | seven values count as empty names |
| `AcpLog.CodebuddyExactly` | src/psycheval/harbor/acp_evidence.py:67-122 | the codebuddy status by evidence: failed if the agent, a sign of failure or the business flag says so; completed if the agent says so, nothing speaks against it and a shell command reports its end |
| `AcpLog.RsiversiExactly` | src/psycheval/harbor/acp_evidence.py:123-170 | the rsiversi status by evidence: an execution goes by its process, any other result by its form and error flag, and only when the agent calls it completed |
| `AcpLog.StatusExactly` | src/psycheval/harbor/acp_evidence.py:50-171 | the same for every format and every state of a call |
| `AcpCalls.FoldHolds` | src/psycheval/harbor/acp_evidence.py:174-194 | what the updates of a call fold to, without the fold: exactly their keys, each with the value of the last update that holds it; for codebuddy the metadata entries likewise among those that are not null, and the native name |
| `AcpCalls.MergedExactly` | src/psycheval/harbor/acp_evidence.py:174-194 | updates are merged if and only if each of them may follow those before it, metadata and canonical names read off the updates alone |
| `AcpCalls.AcceptedExactly` | src/psycheval/harbor/acp_evidence.py:279-340 | a log is accepted if and only if each of its events may follow those before it |
| `AcpCalls.CallsReflectLog` | src/psycheval/harbor/acp_evidence.py:50-194 | every call of a projection says what its last updates in the log say, and its observation has the status that the evidence in them amounts to; in the plain format it is completed if and only if the last update holding a status says so |
| `AcpCalls.ConvertedExactly` | src/psycheval/harbor/acp_evidence.py:253-378 | a log is projected if and only if it is accepted and every call that it updates has a title in the end |
| `AcpConvert.MergeKeepsName` | src/psycheval/harbor/acp_evidence.py:174-194 | an accepted update keeps a canonical name that was set |
| `AcpConvert.NameIsStable` | src/psycheval/harbor/acp_evidence.py:174-194 | once set by a prefix of the updates, the name is the same in every longer prefix |
| `AcpConvert.ScanAllOk` | src/psycheval/harbor/acp_evidence.py:279-338 | the announced ids are distinct, exactly those with updates, and the updates of each fold to a defined state |
| `AcpConvert.ScanUpdates` | src/psycheval/harbor/acp_evidence.py:313-338 | what is merged into a call are exactly its updates in the log, in order, and a call exists exactly when it has some |
| `AcpConvert.BlocksAreMaximal` | src/psycheval/harbor/acp_evidence.py:298-332 | the blocks are the relevant events in order, each chunks and then tools, and none can be extended |
| `AcpConvert.MaximalIsUnique` | src/psycheval/harbor/acp_evidence.py:298-332 | there is no other decomposition into maximal blocks |
| `AcpConvert.BlocksConserve` | src/psycheval/harbor/acp_evidence.py:339-340 | the texts and tool ids of the blocks, concatenated, are those of the log |
| `AcpConvert.AnnouncedOnce` | src/psycheval/harbor/acp_evidence.py:313-332 | every announced tool stands in exactly one block, and no other tool does |
| `AcpConvert.TakeEvent` | src/psycheval/harbor/acp_evidence.py:279-338 | one iteration fails exactly when the event is refused, and keeps the dictionaries in step with the blocks |
| `AcpConvert.ProjectCalls` | src/psycheval/harbor/acp_evidence.py:345-368 | call and observation stand at one position, and the observation is an error exactly when the folded updates do not report completion; `AcpCalls.CallsReflectLog` says what they are in terms of the log |
| `AcpConvert.ProjectSteps` | src/psycheval/harbor/acp_evidence.py:339-370 | one agent step per block, in order, with joined texts |
| `AcpConvert.Convert` | src/psycheval/harbor/acp_evidence.py:253-370 | a conversion exists exactly for acceptable logs, and it is the instruction and one step per maximal block |
| `AcpConvert.ProjectionConserves` | src/psycheval/harbor/acp_evidence.py:278-370 | the messages and reasoning texts of the steps concatenate to the chunk texts of the event log, and the calls that the log updates have exactly one observation each |
| `SkillInstall.BackupOfOneSkill` | src/psycheval/skill_install.py:276-288 | a backup name belongs to one skill only and is no skill or staging name |
| `SkillInstall.RecoverIsSafe` | src/psycheval/skill_install.py:275-303 | recovery, interrupted anywhere, changes neither what a later recovery will find nor any other skill, and leaves at most one backup |
| `SkillInstall.RecoverSucceeds` | src/psycheval/skill_install.py:289-303 | undisturbed recovery succeeds if and only if there is nothing to restore or the backup is a valid skill; the skill is then complete |
| `SkillInstall.InstallIsSafe` | src/psycheval/skill_install.py:55-93 | wherever an installation stops, the next recovery finds the old tree or the new tree, complete, unless an error broke the removal of the backup; other skills are untouched |
| `SkillInstall.RunIsSafe` | src/psycheval/skill_install.py:55-93 | over any sequence of interrupted installations a skill is what it was or a complete and valid source of one of them, and no skill ever has two backups |
| `SkillInstall.RunRecovers` | src/psycheval/skill_install.py:275-303 | after any such run an undisturbed recovery succeeds and leaves the complete, valid skill, when it was absent or valid at first |
| `SkillInstall.InvalidIsRefused` | src/psycheval/skill_install.py:72-73 | a source that is no valid skill changes nothing of what the next recovery finds |
| `SkillInstall.HandlerLosesBoth` | src/psycheval/skill_install.py:79-89 | an error in the removal of the backup leaves neither tree complete |
| `SkillInstall.BackupNameExactly` | src/psycheval/skill_install.py:275-282 | a backup name is a dot, the skill, a dot, any 32 hexadecimal digits and the suffix, and nothing else is |
| `SkillInstall.ProperExists` | src/psycheval/skill_install.py:55-70 | requests as the theorems ask for them exist |
| `SkillInstall.InstallSucceeds` | src/psycheval/skill_install.py:55-94 | an undisturbed installation succeeds if and only if the source is a valid skill and what has to be recovered is; the skill is then the source, otherwise what it was, and nothing else changed |
| `SkillInstall.GuardedAchieves` | src/psycheval/skill_install.py:66-88 | the same for the guarded part: the source is in place without a backup, or the former tree is |
| `SkillInstall.OneErrorIsUndone` | src/psycheval/skill_install.py:77-94 | with a single failing call, wherever it is except in the removal of the backup, the skill is the source or what it was, and neither staging directory nor backup stays behind |
| `SkillInstall.RecoverTouchesOwn` | src/psycheval/skill_install.py:275-303 | a recovery touches the skill and its backups only |
| `SkillInstall.SkillsDirectory.RecoverInterruptedReplacement` | src/psycheval/skill_install.py:275-303 | the loop over the sorted backups does what the specification of recovery says, for every failure and crash |
| `SkillInstall.SkillsDirectory.TryReplace` | src/psycheval/skill_install.py:64-82 | the guarded part: copy, validate, move aside, place, remove the backup |
| `SkillInstall.SkillsDirectory.Handle` | src/psycheval/skill_install.py:83-90 | the handler restores the backup |
| `SkillInstall.SkillsDirectory.InstallSkill` | src/psycheval/skill_install.py:55-93 | the whole installation in place is the installation of the specification |
| `SkillInstall.SkillsDirectory.ReplacePath` | src/psycheval/skill_install.py:306-308 | a rename happens entirely or not at all |
| `SkillInstall.SkillsDirectory.RemovePath` | src/psycheval/skill_install.py:310-318 | an interrupted removal may leave part of a tree |
| `SkillInstall.SkillsDirectory.Meet` | src/psycheval/skill_install.py:55-93 | each call meets the next fate: it completes, fails or is the last before a crash |
| `SkillInstall.SkillsDirectory.MakeTemporary` | src/psycheval/skill_install.py:61 | an empty staging directory exists, or none |
| `SkillInstall.SkillsDirectory.CopyTree` | src/psycheval/skill_install.py:65-71 | an interrupted copy may leave part of a tree in the staging directory |
| `AtomicFiles.Stage` | src/psycheval/_state/artifacts.py:208-213 | staging stops at the first listing that fails; originals are remembered for every listing so far |
| `AtomicFiles.ReplaceAll` | src/psycheval/_state/artifacts.py:214-216 | replacing gets through if and only if no replacement fails and no path is listed twice |
| `AtomicFiles.RollBack` | src/psycheval/_state/artifacts.py:217-225 | every replaced path has its original again |
| `AtomicFiles.RemoveTemporaries` | src/psycheval/_state/artifacts.py:227-229 | no temporary of a staged file remains and nothing else changes |
| `AtomicFiles.WriteFilesAtomically` | src/psycheval/_state/artifacts.py:199-229 | success exactly if nothing fails and the paths are distinct, and then every path has its content; otherwise every file is as before, but for the leaked temporary of the listing that failed |
| `AtomicFiles.OnlyLeak` | src/psycheval/_state/artifacts.py:211-213 | only the first failing listing can leak, and does so exactly when its write left a part and its path had not been staged before |
| `AtomicFiles.NoLeak` | src/psycheval/_state/artifacts.py:217-229 | a failure behind staging never leaks |
| `AtomicFiles.LastContentDistinct` | src/psycheval/_state/artifacts.py:202-216 | with distinct paths each file ends with the content of its own listing |
| `TextLines.SplitLines` | src/psycheval/config.py:731 | splitting gives lines of one terminator each, and joining them gives the text back |
| `TextLines.SplitJoin` | src/psycheval/config.py:731 | splitting recovers joined lines if what follows cannot join the last of them |
| `TextLines.SplitWhole` | src/psycheval/config.py:756 | lines survive writing and reading |
| `TextLines.ReadHasNoReturn` | src/psycheval/config.py:730 | a text file is read without carriage returns, and a text without them is read as it is |
| `LineTables.TableRanges` | src/psycheval/config.py:918-930 | the ranges are disjoint, ordered, all the owned tables, each up to the next header of any kind |
| `LineTables.Starts` | src/psycheval/config.py:902-906 | exactly the owned headers, in order |
| `LineTables.TableEnd` | src/psycheval/config.py:908-914 | a table ends before the next header |
| `LineTables.DeleteTables` | src/psycheval/config.py:732-733 | deleting the ranges from the last to the first leaves exactly the lines outside them, in order |
| `LineTables.DeleteStep` | src/psycheval/config.py:732-733 | deleting one range leaves what filtering leaves from there on |
| `LineTables.FilterFilter` | src/psycheval/config.py:901-930 | deleting the tables of two owners commutes and is deleting both |
| `LineTables.OtherTablesKept` | src/psycheval/config.py:901-930 | deleting the tables of one owner keeps every line of another's |
| `TomlTables.Rewrite` | src/psycheval/config.py:730-756 | the rewritten text is what remains, trimmed, and the rendered tables behind a blank line |
| `TomlTables.RewritingTwice` | src/psycheval/config.py:730-756 | rewriting a text that was read again changes nothing if and only if the rendered tables read back without a foreign header |
| `TomlTables.RewrittenReadsBack` | src/psycheval/config.py:763 | what was written is read as it is |
| `TomlTables.OtherTablesSurvive` | src/psycheval/config.py:774-815 | the tables of any other owner keep all their lines, up to trailing blank ones |
| `ConfigFile.KindsAreLawful` | src/psycheval/config.py:31-34 | the header patterns tell agents, harbor tables and other headers apart, and a line feed at the end changes none of it |
| `ConfigFile.QuoteIsPlain` | src/psycheval/config.py:747-749 | a quoted text has no line end if it is escaped to ASCII or has none of the characters that are left as they are |
| `ConfigFile.RenderAgents` | src/psycheval/config.py:741-755 | the loop renders the tables of the agents, blank lines between them |
| `ConfigFile.RenderDatasets` | src/psycheval/config.py:784-797 | the same for datasets with their optional lines |
| `ConfigFile.RenderMounts` | src/psycheval/config.py:800-814 | the same for mounts |
| `ConfigFile.WriteAcpAgents` | src/psycheval/config.py:725-764 | the rewriting of what was read with the agents' tables is written exactly when it is accepted; otherwise the file stays as it is |
| `ConfigFile.WriteHarborConfig` | src/psycheval/config.py:767-827 | the same with datasets, then mounts |
| `ConfigFile.WritingAgentsTwice` | src/psycheval/config.py:725-756 | writing the same agents twice is writing them once, if and only if no line of a value, behind its first, looks like a header of nobody |
| `ConfigFile.WritingAgentsKeepsHarbor` | src/psycheval/config.py:725-756 | writing such agents keeps every line of the harbor tables |
| `ConfigFile.WritingHarborTwice` | src/psycheval/config.py:767-815 | writing the same datasets and mounts twice is writing them once, if and only if the mounts have no such line |
| `ConfigFile.WritingHarborKeepsAgents` | src/psycheval/config.py:767-815 | writing datasets and such mounts keeps every line of the agents' tables |
| `ConfigFile.PlainAgentIsTame` | src/psycheval/config.py:747-755 | texts without the characters that `splitlines` breaks at and JSON leaves as they are never have such a line |
| `ConfigFile.PlainMountIsTame` | src/psycheval/config.py:810-814 | the same for the dataset ids of mounts |
| `ConfigFile.TitleLineSplits` | src/psycheval/config.py:748 | a title with U+2028 and a bracket behind it, which validation accepts, is two lines when read again, the second a header of nobody |
| `ConfigFile.SecondWriteFails` | src/psycheval/config.py:725-764 | an agent with that title can be written once; the next writing begins with the end of its title, is not accepted, and leaves the file as it is |
| `ConfigText.HeaderExactly` | src/psycheval/config.py:31-34 | a line is a header of an owned table if and only if it is two brackets, the name and two brackets with spaces between them and a comment behind |
| `ConfigText.QuoteReadsBack` | src/psycheval/config.py:747-754 | a value is read back by TOML as it was if and only if it holds no character that TOML refuses: DEL, or, in escaped form, a character beyond U+FFFF |
| `ConfigText.AgentsAreRead` | src/psycheval/config.py:738-756 | the rendered tables of agents are read as exactly those agents, all fields and absent arguments included, if and only if all their values are readable |
| `ConfigText.HarborIsRead` | src/psycheval/config.py:780-815 | the same for datasets and the mounts behind them |
| `ConfigText.WidePathIsNotRead` | src/psycheval/config.py:790-807 | a dataset whose path holds a character beyond U+FFFF is rendered as text that TOML refuses |
| `Redaction.ValueStart` | src/psycheval/redaction.py:140-143 | a value that is found begins at the next quote of the text, so the next token exists and begins exactly there |
| `Redaction.RedactStrings` | src/psycheval/redaction.py:127-153 | the output is the text with only literal values behind credential keys replaced, everything between them kept in order |
| `Redaction.UnchangedWhenProtected` | src/psycheval/redaction.py:122-153 | a text without such values is left alone |
| `Redaction.ScanProtects` | src/psycheval/redaction.py:122-153 | the output has no literal value behind a credential key |
| `Redaction.ScanTwice` | src/psycheval/redaction.py:122-153 | a second scan changes nothing |
| `RedactionFacts.ValueExactly` | src/psycheval/redaction.py:122-140 | a value is found behind a string exactly when space, a colon, space and a quote follow it |
| `RedactionFacts.NoStringIsKept` | src/psycheval/redaction.py:111-153 | a text without a quote is kept |
| `RedactionFacts.PlainStringIsKept` | src/psycheval/redaction.py:111-153 | a first string that is no credential key, or has no value behind it, is kept, and the rest is scanned by itself |
| `RedactionFacts.PairIsRedacted` | src/psycheval/redaction.py:111-153 | a first string that is a credential key keeps its text, its value is redacted unless it is a reference, and the rest is scanned by itself |
| `RedactionFacts.OpenValueIsRedacted` | src/psycheval/redaction.py:111-153 | the same for a value without a closing quote, which goes to the end of the text |
| `RedactionFacts.OpenStringIsKept` | src/psycheval/redaction.py:111-153 | a last string without a closing quote is kept |
| `RedactionFacts.FormsAreAll` | src/psycheval/redaction.py:111-153 | every text is of one of these forms, so that together they say what the scan does to any text |
| `RedactionFacts.ReferenceExactly` | src/psycheval/redaction.py:95-100 | a reference is the name of a variable in one of two forms, and nothing else |
| `HostPaths.LongestRootDecides` | src/psycheval/harbor/paths.py:49-59 | the longest root that covers a value decides, and a covered value is never taken for a native one |
| `HostPaths.TranslatedStaysUnder` | src/psycheval/harbor/paths.py:124-131 | a translated path stays under its host path, except behind a double slash, where the rest is absolute and replaces it |
| `HostPaths.NamesAreCounting` | src/psycheval/harbor/paths.py:49-59 | the names of a suffix are its parts without the empty and the dot ones, in order |
| `HostPaths.TranslatedText` | src/psycheval/harbor/paths.py:95-131 | a suffix translates to the host path, a slash unless it ends with one, and the parts that count joined by slashes; a parent part makes it unsafe |
| `HostPaths.PlainSuffixIsKept` | src/psycheval/harbor/paths.py:95-131 | a suffix of plain names is appended character for character |
| `UnquotedPaths.OnePassKeepsText` | src/psycheval/harbor/environment.py:112-126 | outside the replaced roots nothing is lost, added or moved |
| `UnquotedPaths.FirstIsLongest` | src/psycheval/harbor/environment.py:103-105 | with the longest root first, a position takes the longest root that matches there |
| `UnquotedPaths.SequenceAppend` | src/psycheval/harbor/environment.py:114-125 | what stands behind a character that may precede a root is replaced by itself, whatever stands before |
| `UnquotedPaths.Follow` | src/psycheval/harbor/environment.py:114-125 | whatever follows an inserted text, later roots treat it as if one of finitely many contexts did: ends of these roots, one after the other |
| `UnquotedPaths.SequenceIsOnePass` | src/psycheval/harbor/environment.py:112-126 | replacing root after root is one pass of longest matches for every text, if and only if each inserted text is still there after the later roots, in each of the finitely many contexts in which no earlier root takes the word |
| `UnquotedPaths.InertIsUndisturbed` | src/psycheval/harbor/environment.py:112-126 | it suffices that no inserted text can be met by a later root that does not stand for itself, inside or at its end |
| `UnquotedPaths.TwoRootsAreOnePass` | src/psycheval/harbor/environment.py:112-126 | for two roots this is exact: sequence and pass agree for every text if and only if the second root stands for itself or the first text is inert for it |
| `UnquotedPaths.RootBehindEquals` | src/psycheval/harbor/environment.py:115-119 | for any two roots, a host path that holds the second behind an equals sign is rewritten once more |
| `UnquotedPaths.SubLeavesAlone` | src/psycheval/harbor/environment.py:120-125 | a text without the root is unchanged |
| `UnquotedPaths.SequenceLeavesAlone` | src/psycheval/harbor/environment.py:112-126 | a text without any root is unchanged |
| `CommandTranslate.PiecesAreCommand` | src/psycheval/harbor/environment.py:128-168 | the pieces that the scanner cuts are the whole command, also when a quote is not closed |
| `CommandTranslate.QuoteRoundTrip` | src/psycheval/harbor/environment.py:119 | a shell reads a quoted text back exactly |
| `CommandTranslate.FindClose` | src/psycheval/harbor/environment.py:140-147 | the closing quote, escapes in double quotes skipped |
| `CommandTranslate.TakeQuoted` | src/psycheval/harbor/environment.py:139-166 | one quoted piece is taken, keeping the output of the whole in step |
| `CommandTranslate.TranslateCommand` | src/psycheval/harbor/environment.py:102-168 | the scanner translates piece by piece, and fails exactly when a quoted path is unsafe |
| `CommandTranslate.UnquotedIsOnePass` | src/psycheval/harbor/environment.py:112-126 | unquoted text is translated by longest matches in one pass, for every text if and only if the quoted host paths are undisturbed; everything outside the roots is kept |
| `CommandTranslate.QuotedStandsForHost` | src/psycheval/harbor/environment.py:151-164 | a rewritten quoted piece dequotes to exactly the mapped path, and any other to its own content; a piece that the shell expands is left alone |
| `CommandTranslate.QuotedPieces` | src/psycheval/harbor/environment.py:131-166 | every quoted piece of every command meets the condition of that statement |
| `CommandTranslate.NoRootNoChange` | src/psycheval/harbor/environment.py:102-168 | a command that names no mapped root is returned unchanged |
| `ReportState.PayloadStandsFor` | src/psycheval/workspace_reports.py:470-511 | leaving out empty lists and a false flag loses nothing: the payload of a valid state stands for it |
| `ReportState.WrittenReadsBack` | src/psycheval/workspace_reports.py:717-748 | every written state reads back equal, and a state is refused exactly when it is invalid or its UTF-8 form is too large |
| `ReportState.StandsForExactly` | src/psycheval/workspace_reports.py:470-511 | a payload stands for a state if and only if it says so under the four known keys and the state is valid |
| `ReportState.PayloadSays` | src/psycheval/workspace_reports.py:84-94 | what is written says the state, and leaves out exactly what is empty or false |
| `ReportState.ReadExactly` | src/psycheval/workspace_reports.py:462-511 | a file is read as a state if and only if it is within the limit, decodes, says the state and the state is valid |
| `Leases.StepKeepsRegistered` | src/psycheval/file_access.py:51-56 | while anyone holds the lock of a path, the registry leads to that lock, weak references and collection included |
| `Leases.StepKeepsExclusive` | src/psycheval/file_access.py:57-144 | every step keeps thread locks and file locks with one holder |
| `Leases.RunKeepsLeases` | src/psycheval/file_access.py:28-144 | both hold in every run |
| `Leases.LeasesExclude` | src/psycheval/file_access.py:51-63 | overlapping leases of one path share one thread lock, and of two that acquired it there is only one; inside the body the file lock is held |
| `Leases.StepKeepsReleased` | src/psycheval/file_access.py:57-144 | every step keeps held locks with a lease that is under way |
| `Leases.NothingStaysLocked` | src/psycheval/file_access.py:28-144 | in every run: a thread without a lease holds no thread lock and no file lock, whether its body returned, raised or timed out |
| `Leases.ForgottenExactly` | src/psycheval/file_access.py:51-56 | the registry can forget the lock of a path if and only if no lease of that path is under way |
| `Leases.StepIsLocal` | src/psycheval/file_access.py:28-144 | a step changes the lease of one thread only and leaves the file locks of other processes alone |
| `Leases.SomebodyGoesOn` | src/psycheval/file_access.py:51-144 | while a lease is under way somebody can go on, unless another process holds the file that it waits for |
| `Leases.LeaseRegistry.constructor` | src/psycheval/file_access.py:13-14 | the registry starts empty |
| `Leases.LeaseRegistry.LockOf` | src/psycheval/file_access.py:51-56 | the registered lock, or a new one that is registered |
| `ReportLibrary.EffectIsLocal` | src/psycheval/workspace_reports.py:296-322 | a mutation changes its own report only |
| `ReportLibrary.BindingsAreReplaced` | src/psycheval/workspace_reports.py:256-275 | replacing bindings is possible exactly for a managed report whose bindings resolve to a state that can be written; then they are the new ones and the flag is the old one |
| `ReportLibrary.FlagIsSet` | src/psycheval/workspace_reports.py:277-294 | setting the flag writes exactly when it changes, and keeps the bindings |
| `ReportLibrary.PackagesComeAndGo` | src/psycheval/workspace_reports.py:349-371 | an import adds its package and a deletion removes it, and neither does anything else |
| `ReportLibrary.StepKeepsSerial` | src/psycheval/workspace_reports.py:256-294 | every step keeps the disk equal to the committed mutations applied one after the other |
| `ReportLibrary.StepKeepsLeasing` | src/psycheval/workspace_reports.py:325-339 | what a writer read under its lease is still on disk when it writes |
| `ReportLibrary.StepKeepsCaching` | src/psycheval/workspace_reports.py:211-218 | the cache lock is held exactly while a call scans, and a scan or a cached set covers every mutation that has cleared the cache |
| `ReportLibrary.StepKeepsFreshness` | src/psycheval/workspace_reports.py:409-468 | what a scan has computed, what is cached and what was answered holds only references bound since, and all that were bound ever since by reports that were not dropped |
| `ReportLibrary.RunKeepsInv` | src/psycheval/workspace_reports.py:211-381 | all of this holds in every interleaving of readers and writers |
| `ReportLibrary.MutationsAreSerial` | src/psycheval/workspace_reports.py:256-371 | no update is lost: the disk is what replaying the committed edits, resolved one after the other, gives |
| `ReportLibrary.AnswersAreFresh` | src/psycheval/workspace_reports.py:211-218 | every reference in an answer was bound since the call began, and every one left out was not bound all that time, unless its report was dropped |
| `ReportLibrary.NoStaleAnswer` | src/psycheval/workspace_reports.py:211-218 | once a mutation has returned, no later call answers with a reference bound only before it, nor without one bound ever since, unless its report was dropped |
| `ReportLibrary.DroppedExactly` | src/psycheval/workspace_reports.py:692-710 | a scan drops a report if and only if a mutation of it is committed between the stat of its state file and the opening |
| `ReportLibrary.OwnReferenceIsKept` | src/psycheval/workspace_reports.py:211-218 | a reference that one report alone binds all the time is in the answer if and only if that report was not dropped |
| `ReportLibrary.RacingScanMissesReference` | src/psycheval/workspace_reports.py:437-459 | a concrete run: another process archives a report during a scan, and a reference bound in every state of the disk is missing from the answer and from the cache |
| `ReportLibrary.FreshNowIsExact` | src/psycheval/workspace_reports.py:213-217 | an answer fresh since now is exactly the set bound now |
| `ReportLibrary.StepKeepsHeld` | src/psycheval/workspace_reports.py:211-218 | every step keeps leases and cache lock with the calls that took them |
| `ReportLibrary.NothingIsLeaked` | src/psycheval/workspace_reports.py:325-339 | in every run: when no call is under way, no lease and no lock is held, whatever failed or was given up before |
| `ReportLibrary.WorkspaceReportLibrary.BoundSourceRefs` | src/psycheval/workspace_reports.py:211-218 | the answer is the set bound on disk, from the cache or computed package by package |
| `ReportLibrary.WorkspaceReportLibrary.ReplaceManagementState` | src/psycheval/workspace_reports.py:296-322 | a state that can be written replaces that of its package; any other changes nothing; the cache stays right |
| `ReportLibrary.WorkspaceReportLibrary.ReplaceReportBindings` | src/psycheval/workspace_reports.py:256-275 | the bindings are those resolved from the current state, the archived flag is kept |
| `ReportLibrary.WorkspaceReportLibrary.SetReportArchived` | src/psycheval/workspace_reports.py:277-294 | the flag changes and the bindings stay; an equal flag writes nothing |
| `ReportLibrary.WorkspaceReportLibrary.DeleteReport` | src/psycheval/workspace_reports.py:349-371 | the package is gone from the catalog and from the cache |
| `Atif.ValidateCalls` | src/psycheval/atif.py:221-238 | call ids are accepted exactly when they are distinct, and collected for the results |
| `Atif.ValidateStep` | src/psycheval/atif.py:175-270 | a step is accepted if and only if it is numbered, sourced, counted, resolved and measured as ATIF-v1.7 says |
| `Atif.Validate` | src/psycheval/atif.py:121-172 | a trajectory is accepted if and only if it is valid at every depth |
| `AtifRules.ValidExactly` | src/psycheval/atif.py:121-330 | a trajectory is valid if and only if none of the offences of ATIF-v1.7, listed one by one, is committed in it or in any subagent trajectory at any depth |
| `Finalize.FinalStepIsValid` | src/psycheval/conversion.py:239-345 | a projected and normalized step is valid if and only if it was repairable before |
| `Finalize.TotalsOrdered` | src/psycheval/conversion.py:359-385 | cached tokens are among the prompt tokens in the totals because they are in every step |
| `Finalize.AggregateIsValid` | src/psycheval/conversion.py:359-389 | the totals of valid metrics are valid; `FinalizedFacts.TotalsAreSums` says what they are |
| `FinalizedFacts.TotalIsSum` | src/psycheval/conversion.py:367-384 | a total is the sum of what the steps report, and absent exactly when none reports |
| `FinalizedFacts.CostIsSum` | src/psycheval/conversion.py:367-384 | the same for the cost before rounding |
| `FinalizedFacts.TotalsAreSums` | src/psycheval/conversion.py:359-389 | prompt, completion, cached tokens and rounded cost of the totals are the sums of the same field of the steps, and the number of steps is theirs |
| `FinalizedFacts.TotalSplits` | src/psycheval/conversion.py:367-384 | the total of two lists of steps is the absent-aware sum of their totals |
| `FinalizedFacts.CostSplits` | src/psycheval/conversion.py:367-384 | the same for the cost before rounding |
| `FinalizedFacts.TotalsOfOne` | src/psycheval/conversion.py:359-389 | the totals of a single step are its own metrics |
| `FinalizedFacts.StepFactsSay` | src/psycheval/conversion.py:245-262 | which facts of its metadata a step gets, key by key |
| `FinalizedFacts.CallFactsSay` | src/psycheval/conversion.py:264-279 | which facts a call gets from its tool, key by key |
| `FinalizedFacts.ResultFactsSay` | src/psycheval/conversion.py:281-311 | which facts a result gets: its own, and the execution of the tool that its metadata name |
| `FinalizedFacts.LastToolOf` | src/psycheval/conversion.py:264-296 | the tool of a result is the last one with its id |
| `FinalizedFacts.MetadataOf` | src/psycheval/conversion.py:115-128 | the metadata of a step are those with its number, the last if there are several, and otherwise those at its position |
| `FinalizedFacts.FinalStepReads` | src/psycheval/conversion.py:239-345 | a finished step keeps what it says, drops empty lists and gets exactly those facts |
| `FinalizedFacts.AlignedReads` | src/psycheval/conversion.py:348-356 | the metadata that are left follow the repaired ids of their step and change in nothing else |
| `FinalizedFacts.FinalizedReads` | src/psycheval/conversion.py:73-148 | what finalization returns, at every depth: the trajectory with these steps, the sums as totals, the children and the metadata |
| `FinalizedFacts.WarningsTell` | src/psycheval/conversion.py:105-128 | the warnings are those passed in, those of the children under their names, and one for every stray result, each once |
| `Finalize.FinalizeSteps` | src/psycheval/conversion.py:115-128 | the loop with its mutable metadata is the pass of the specification |
| `Finalize.AdoptWarnings` | src/psycheval/conversion.py:105-112 | warnings of children are qualified and taken over once |
| `Finalize.FinalizeChildren` | src/psycheval/conversion.py:104 | all children are finalized, or one of them cannot be |
| `Finalize.AssembleConversion` | src/psycheval/conversion.py:113-140 | root facts and totals are those of the specification |
| `Finalize.FinalizeConversion` | src/psycheval/conversion.py:73-148 | children, steps, totals and the validator in their order, at every depth |
| `Finalize.FinalizationSucceeds` | src/psycheval/conversion.py:73-148 | finalization succeeds if and only if the conversion is repairable, and what it returns is a valid trajectory |
| `FinalizeTwice.FinalAgain` | src/psycheval/conversion.py:239-345 | a finished step is finalized to itself if and only if its results have the execution facts of their tools |
| `FinalizeTwice.SecondPasses` | src/psycheval/conversion.py:115-128 | a second pass adds no warning and changes no metadata, and changes no step exactly when all are settled |
| `FinalizeTwice.FinalizedIsFinal` | src/psycheval/conversion.py:73-148 | what finalization returns is in final form at every depth |
| `FinalizeTwice.FinalAgainIsSame` | src/psycheval/conversion.py:73-148 | a conversion in final form is finalized to itself exactly when it is settled at every depth |
| `FinalizeTwice.FinalizationTwice` | src/psycheval/conversion.py:73-148 | finalization is idempotent on trajectory and warnings at every depth if and only if the conversion settles: each result, with the facts it is about to get, has those of the tool that its metadata name once they follow the repaired ids |
| `FinalizeTwice.LateSession` | src/psycheval/conversion.py:151-160 | finalizing again under a late session id changes the session and the derived id and nothing else, if and only if the conversion settles |
| `FinalizeTwice.AgreeingSettlesAll` | src/psycheval/conversion.py:296-306 | whenever metadata name the call of their result and no tool lacks an id, as adapters make them, the conversion settles |
| `FinalizeTwice.SettledIffSettles` | src/psycheval/conversion.py:239-356 | the finalized conversion is settled if and only if the conversion that was passed in settles, at every depth |
| `FinalizeTwice.StrayDoesNotRepeat` | src/psycheval/conversion.py:296-306 | a conversion with a tool without an id and a result without its call is finalized, and changes when finalized again |
| `FinalizeTwice.MisnamedDoesNotRepeat` | src/psycheval/conversion.py:348-356 | so does one whose metadata name another call than the result has |
| `MessageAdapter.ConvertRecords` | src/psycheval/adapters/common.py:23-107 | the loop with its pending tools is the run of the specification |
| `MessageAdapter.RunInStep` | src/psycheval/adapters/common.py:26-76 | ids are 1 to n, steps and metadata have equally many results with the same calls, a tool error is the disjunction over the observations, and pending ids lead to the latest step holding them |
| `MessageAdapter.RecordsAreCounted` | src/psycheval/adapters/common.py:32-76 | new steps, attached results and unmapped records add up to the records, and every tool result stands in the steps |
| `MessageAdapter.ResultHasOwner` | src/psycheval/adapters/common.py:35-58 | every result in the steps is the observation of a record |
| `MessageAdapter.OwnerIsUnique` | src/psycheval/adapters/common.py:35-58 | no two records own one place |
| `MessageAdapter.AttachedToLatest` | src/psycheval/adapters/common.py:39-50 | an attached result went to the latest step that held its call |
| `MessageAdapter.UnmatchedHasNoCall` | src/psycheval/adapters/common.py:51-58 | a result gets its own step only if no step so far holds its call |
| `MessageAdapter.NewStepsInOrder` | src/psycheval/adapters/common.py:55-76 | steps are in the order of their records |
| `MessageAdapter.AttachKeepsPaired` | src/psycheval/adapters/common.py:276-311 | attaching keeps step and metadata paired, the error flag included, and holds the same calls |
| `AdapterFacts.StepSaysRecord` | src/psycheval/adapters/common.py:26-76 | the step of a record says what was built from it, also after later results were attached to it |
| `AdapterFacts.ResultStepSaysRecord` | src/psycheval/adapters/common.py:214-273 | a result without a known call has a step of its own that says nothing else |
| `AdapterFacts.PlaceSaysRecord` | src/psycheval/adapters/common.py:228-311 | the result and its metadata at a place are those of the record that owns it: content, call, error, status and times |
| `AdapterFacts.ReplySays` | src/psycheval/adapters/common.py:141-212 | the step of a reply: redacted and bounded text and reasoning, its calls in order with their arguments, times and durations, and whether anything was cut |
| `AdapterFacts.PlainSays` | src/psycheval/adapters/common.py:109-139 | the step of any other message |
| `AdapterFacts.BoundedSays` | src/psycheval/adapters/common.py:656-660 | a bounded text is the prefix of the given length, or the whole |
| `AdapterFacts.FirstExactly` | src/psycheval/adapters/common.py:762-768 | the value of the first key that is there |
| `AdapterFacts.TruncTowardZero` | src/psycheval/adapters/common.py:483-521 | counts are rounded toward zero |
| `AdapterFacts.MetricsSay` | src/psycheval/adapters/common.py:483-521 | where the prompt tokens come from: the first of three usage keys, else the accounting, whose parts are added |
| `AdapterFacts.OtherMetricsSay` | src/psycheval/adapters/common.py:483-521 | the same for completion tokens, cached tokens and cost |
| `AdapterFacts.ToolIsTimed` | src/psycheval/adapters/common.py:276-311 | how a result times its tool: reported start and duration, else the difference of timestamps, never a negative one |
| `AdapterFacts.ComparedKeepsStart` | src/psycheval/adapters/common.py:419-434 | a tool that is timed by timestamps keeps its start |
| `AdapterFacts.AttachTimesOne` | src/psycheval/adapters/common.py:276-311 | an attached result times the one tool of its call and leaves the others alone |
| `AdapterFacts.RunKeeps` | src/psycheval/adapters/common.py:32-76 | what a prefix of the records built is still there in the end, except for attached results |
| `ClaudeSession.MergeKeepsSum` | src/psycheval/adapters/claude.py:641-649 | merged usage has prompt tokens equal to the sum of its parts whenever it has any |
| `ClaudeSession.UsageGivesValidMetrics` | src/psycheval/adapters/claude.py:317-319 | metrics of merged usage are valid: cached tokens are among the prompt tokens |
| `ClaudeSession.TakeBlocks` | src/psycheval/adapters/claude.py:408-456 | the loop over the blocks of a reply is the fold of the specification |
| `ClaudeSession.TakeResults` | src/psycheval/adapters/claude.py:476-502 | the loop over the blocks of a user event is the fold of the specification |
| `ClaudeSession.Normalize` | src/psycheval/adapters/claude.py:342-573 | the loop over the events is the session of the specification |
| `ClaudeSession.EventKeepsSound` | src/psycheval/adapters/claude.py:381-445 | every event keeps the call ids of a reply distinct, its prompt tokens the sum of their parts, and each response id leading to its own reply |
| `ClaudeSession.ReplayChangesNothing` | src/psycheval/adapters/claude.py:343-349 | an event that was taken before changes nothing when it comes again |
| `ClaudeSession.SoundStepBuilt` | src/psycheval/adapters/claude.py:305-324 | each message becomes a step with distinct calls and valid metrics, a synthetic one without metrics and reasoning; `ClaudeTranscript.ReplyReachesStep` says what it carries |
| `ClaudeSession.RunSound` | src/psycheval/adapters/claude.py:327-601 | all steps of a session have these properties, also after results were attached |
| `ClaudeTranscript.FreshSaysAll` | src/psycheval/adapters/claude.py:343-349 | replayed events say nothing: the session is that of the events without them |
| `ClaudeTranscript.SessionSaysEvents` | src/psycheval/adapters/claude.py:342-573 | the messages of a session without replays, read off the events alone |
| `ClaudeTranscript.MessagesSayEvents` | src/psycheval/adapters/claude.py:342-573 | conservation for every session: one message for each reply, remark and result of the first-seen events, in order, with their texts, reasoning, calls and results |
| `ClaudeTranscript.JoinsInOrder` | src/psycheval/adapters/claude.py:408-419 | texts are joined in order, the separator between each two of them |
| `ClaudeTranscript.ReplyReachesStep` | src/psycheval/adapters/claude.py:381-445 | every reply has a step of its own: its message is the redacted, bounded join of the text blocks of its events, its reasoning that of their thinking blocks unless it is synthetic, and its calls have their names and arguments in order |
| `ClaudeTranscript.RemarkReachesStep` | src/psycheval/adapters/claude.py:364-573 | every remark of the user or the system has a step of its own that says its text |
| `ClaudeTranscript.ResultReachesStep` | src/psycheval/adapters/claude.py:458-502 | every result stands in the steps with its redacted, bounded content, its call, its error flag and its time |
| `ClaudeTranscript.LinksSayEvents` | src/psycheval/adapters/claude.py:458-568 | a call is linked to the subagent that the last of its results names, and unknown events are counted once |
| `ClaudeFamily.IdentityIsInjective` | src/psycheval/adapters/claude.py:243-244 | different agents of a session have different trajectory ids |
| `ClaudeFamily.FindLinks` | src/psycheval/adapters/claude.py:586-594 | the links are the results of calls in their own step that name a subagent, in order |
| `ClaudeFamily.ConvertEvents` | src/psycheval/adapters/claude.py:574-601 | events become an unlinked conversion and its links |
| `ClaudeFamily.TakeLink` | src/psycheval/adapters/claude.py:255-291 | one link: refer to a known child, read a new one, or omit the link |
| `ClaudeFamily.Search` | src/psycheval/adapters/claude.py:247-296 | the recursive search with its shared visited set is the family of the specification, and terminates on every link graph |
| `ClaudeFamily.Smaller` | src/psycheval/adapters/claude.py:261-264 | following a link leaves strictly fewer identities unvisited, cycles and shared children included |
| `ClaudeFamily.FamilyIsMember` | src/psycheval/adapters/claude.py:247-296 | whatever is read has new, pairwise distinct ids, all marked visited, and references that name direct embedded children |
| `ClaudeFamily.LinksFollow` | src/psycheval/adapters/claude.py:254-291 | following any number of links keeps the children apart and changes the steps in their references only |
| `FamilyLinks.SafeIdExactly` | src/psycheval/adapters/claude.py:18 | a subagent's name is safe if and only if it is one or more ASCII letters, digits, hyphens or underscores; it then names no other directory |
| `FamilyLinks.LinksExactly` | src/psycheval/adapters/claude.py:586-594 | the links are exactly the results of calls in their own step that name a subagent, in the order of the steps |
| `FamilyLinks.FamilyFound` | src/psycheval/adapters/claude.py:247-296 | what the search has visited below an agent is exactly what links lead to |
| `FamilyLinks.FamilyIsTree` | src/psycheval/adapters/claude.py:247-296 | every trajectory that was read says the events of its file, and its children are those of the links that it owns |
| `FamilyLinks.FamilyIsComplete` | src/psycheval/adapters/claude.py:247-296 | every readable subagent with a conversation that links lead to, over any number of files, is embedded, and nothing else is |
| `FamilyLinks.ConvertedSays` | src/psycheval/adapters/claude.py:560-603 | the unlinked conversion: its steps, metadata in step, ids and session of the agent, and nothing that finalization has to add |
| `ClaudeFamily.WholeIsMember` | src/psycheval/adapters/claude.py:292-296 | a trajectory with its children and references is such a family member |
| `ClaudeFamily.ClaudeConversionIsValid` | src/psycheval/adapters/claude.py:247-296 | valid by construction: for every event list and every set of child files a conversion exists exactly when there is a conversation record; its ids are pairwise distinct, finalization succeeds with a valid trajectory, and finalizing again changes nothing |

## Left out

* Clocks, timeouts, signals and process trees: a termination succeeds or fails, a process exits when it likes.
  Descendants that survive the natural exit of their leader are not part of this model.
* Windows branches of environments, paths, leases and files.
* Spawning is one step under the launch lock; spawns cancelled in between, which the Linux adapter keeps as pending
  processes for a later stop, are not part of this model.
* Internals of gzip, JSON, SHA-256, YAML, TOML and regular expressions beyond the laws above; validation against the
  ACP schema is a predicate.
* Warning texts, evidence extras and progress output of the adapters; the tool status and title that a result updates.
* `final_metrics_from_records` of the common adapter: finalization computes the totals anew.
* Symbolic links, path escapes, directory flushing and closing errors of `skill_install.py`; the validity of a skill is
  a predicate.
* Command line, user interface, report rendering, SQLite readers, paging and filename helpers, `uniquify_trial_keys`:
  they would only add easy members.
- Atif.Validate: trajectories are typed, so unknown keys, token ids, log probabilities, reasoning effort and the copied-context flag are not modelled.
- AcpConvert.Convert: the text content of observations, the collected model request ids, the retained non-text chunks, the prompt timestamp and the closing validation against the trajectory class are not modelled.
- AtomicFiles.WriteFilesAtomically: rolling back and removing temporaries are taken to succeed.
- AtomicFiles.RollBack: rolling back is taken to succeed.
- ConfigFile.WriteAcpAgents: which texts are parsed and validated is a parameter, and the atomic write behind it succeeds; line ends are those of POSIX.
- ConfigFile.WriteHarborConfig: the same.
- Redaction.RedactStrings: the text is what `sanitize_credentials` returns; the branch for a text that is JSON as a whole is not modelled.
- Redaction.ScanTwice: covers the scanner; a second call of the whole function on a text that has become JSON as a whole takes the branch that is not modelled.
- Redaction.ScanProtects: JSON decoding and the search for credential fields are parameters.
- HostPaths.TranslatedText: host paths are absolute, as the environment makes them; a host path "." would be joined without its dot.
- UnquotedPaths.SequenceIsOnePass: roots hold no character that may stand before or behind a root, such as a space or an equals sign.
- HostLifecycle.DeletionIsSafe: `CancellationIsSafe` speaks of the moment of the cancellation; a lost process may still exit by itself later.
- ReportLibrary.WorkspaceReportLibrary.BoundSourceRefs: one caller at a time; what other threads and processes do during a scan is in the runs above.
- ReportLibrary.WorkspaceReportLibrary.DeleteReport: a failing removal of the detached package is not modelled; the package is gone either way. Evaluation reports with their association files are not modelled either.
- ReportLibrary.DroppedExactly: a replaced state file is taken to be told apart from the one before; the number of a removed file that comes back between stat and opening is not modelled.
- MessageAdapter.ConvertRecords: token counts are exact numbers; rounding of floating-point counts is not modelled.
- ClaudeFamily.Search: symbolic links and the location of the child files are one condition on whether a file can be read.
- ClaudeFamily.ClaudeConversionIsValid: JSON numbers are finite; tool arguments that hold NaN or an infinity, which Python's parser lets through and the validator refuses, cannot be expressed.
- ClaudeSession.Normalize: version, branch and other session facts kept beside the trajectory are not modelled.

# rightsize: a verified model

rightsize starts throwaway containers from a test process, on Docker or on microsandbox
(`msb`). This project models its state-heavy core in Dafny and proves what that core is
for: nothing is printed twice or lost while a log is followed, nothing leaks when a start
fails or the process dies, no retry runs for ever or under a burned name, and no good
checkpoint is thrown away for a bad one.

Asynchronous code is modelled as the atomic steps between its awaits. What the outside
decides - a backend call, the clock, another process, a crash, a close request - is a
nondeterministic choice or a parameter, and the statements hold for every choice.
`dafny verify dfyconfig.toml` checks the whole project.

| files | what they model |
|---|---|
| `Lines`, `Frames`, `DockerFollow`, `MsbFollow` | following a log: line splitting as the simple specification; docker's frame demuxer and line assembler; msb's poller on Windows and live stream with one replay elsewhere |
| `FreePorts`, `RunLedger`, `CleanupRegistry`, `SandboxNames`, `Container` | one container's `start()` and `stop()` as a class over the four stores they keep in step |
| `LedgerDisk`, `Lifecycle`, `LifecycleOrder`, `LifecyclePorts`, `LifecycleLedger`, `LifecycleTidy`, `LifecycleCrash`, `LifecycleRuns` | every interleaving of any number of containers' start, stop, checkpoint and reuse calls, with a crash allowed between any two steps - those of the ledger file's rewrite included; and runs built up for the examples |
| `Reaper`, `Watchdog`, `Sweep`, `Sweepers`, `SweepComplete`, `Liveness` | recovery: the reaper's bring-up, the watchdog's pass, one sweep, any number of concurrent sweeps, judging each run by the test of whether its recorded process lives |
| `BootRetry` | the nested boot and restore retries over an arbitrary stream of outcomes, with a ledger that may fail |
| `Checkpoints`, `CheckpointSpecs` | the registry of named checkpoints against the artifacts |
| `JsonText`, `JsonScan`, `JsonFields`, `LsJson`, `LsParse`, `LsEntries` | reading `msb ls`: `JSON.parse`, the tolerant scanner it falls back to, and both on any printed array cut off anywhere |
| `ImageReference`, `ReuseIdentity` | a parser and a canonical form against their simple counterparts |
| `Installer` | any number of processes installing the runtime at once |
| `Options`, `LedgerLines`, `Decimals`, `Search`, `Spaces`, `Sorting`, `Records`, `StartLimit` | shared definitions |

Where the code does not do what is promised for it, the code is modelled as it is, and the
exact condition under which the promise holds is proved:

- Replaying an *empty* microsandbox log prints one empty line that no other follower prints
  (`Lines.ReplayAgreesUnlessEmpty`).
- The Windows poller delivers the whole log exactly if it has at most 1000 lines and is not
  all blank (`MsbFollow.FollowByPolling`); the POSIX replay completes the log exactly if
  something was printed, the stream was cut between lines, and no line is hidden that the
  stream did not bring (`MsbFollow.ReplayCompletesExactlyWhen`).
- A follow that is closed while the listing that misses the sandbox is awaited still replays
  (`MsbFollow.ReplayAfterClose`); a close is heeded exactly if it comes before that listing is
  asked for (`MsbFollow.FollowLive`).
- `stop()` is documented never to throw, but untracking can while other containers are listed,
  and then the ports stay issued (`LifecyclePorts.StopCanLoseAPort`). Over a whole run ports are
  lost exactly if some call threw outside the guarded part with ports allocated
  (`LifecyclePorts.NothingLostExactlyWithoutLeaks`).
- A guest port exposed twice loses a host port (`Container.AllocateAll`).
- The ledger's truncating rewrite is said to be safe, because its lock-free readers come only
  after the owner's death. The owner can die between the truncation and the write, and then
  other containers' sandboxes live and are listed nowhere
  (`LifecycleCrash.CrashInRewriteUnlists`). A rewrite, read or append that fails loses lines
  too; one that stops half way hides the name appended next
  (`LifecycleCrash.TornAppendHidesTheNext`). Everything that should be listed is, exactly if
  nothing of the kind befell a sandbox that still exists
  (`LifecycleCrash.CrashedRunIsFullyListed`), and the watchdog leaves exactly the rest
  (`Watchdog.ReapAfterCrash`).
- The run record is deleted when a run's files go empty and is never written again. It is
  there exactly if no removal found them empty, or could not read them
  (`LifecycleCrash.RecordSurvivesExactlyWhenNeverEmptied`); after that the sweep is blind, and
  the watchdog is not (`LifecycleCrash.RecordIsNotRewritten`).
- A checkpoint call can leave an entry dangling where refs are deterministic, where two names
  share an artifact, or where the registry write fails after the prior artifact went; each
  call's contract in `Checkpoints.CheckpointStore` is an if-and-only-if.
- After the backend's close the ledger files are said to be recreated by a later container;
  they are not: nothing is tracked any more (`Reaper.TrackAfterClose`).
- A sweep can reap a live run: a `ps` that fails, or answers late, makes its owner count as
  dead (`Sweepers.FailedPsReapsTheLiving`). It happens exactly if a sweep judges the run by an
  answer that is missing, unreadable or over two seconds off
  (`Sweepers.LivingReapedExactlyWhenMisjudged`), and never with prompt answers and a record
  to the millisecond (`Sweepers.NeverReapsTheLiving`). What such a run lists afterwards may
  never be swept (`SweepComplete.MisjudgedRunCanBeLost`).
- The scanner's field pattern reads a key that ends with a quote and the field's name in place
  of the field (`LsJson.ExtractedFieldMeaning`); the names of running sandboxes come out wrong
  where such a text is cut off, and right where it is whole (`LsEntries.LookalikeIsMisread`).
- The install lock does not exclude: a lock file is empty between its creation and its first
  write, and an empty lock file counts as stale (`Installer.TwoHoldersWithoutACrash`). It
  keeps every holder's own file in place exactly in the runs without one of three steps
  (`Installer.LockExcludesExactlyUnlessStolen`), and lets in one process at a time exactly in
  those where nobody finds the file missing while another is at work
  (`Installer.OneHolderExactlyUnlessOpenedBeside`). The installation is sound all the same
  (`Installer.PresentMeansComplete`).
- A retry that cannot untrack a name it gives up throws and leaves it listed; else a failed
  retry or checkpoint leaves the ledger as it was (`BootRetry.MsbBackend.CreateCheckpoint`),
  unless its file was damaged on the way.
- An environment variable named `__proto__` is dropped from a registry entry and from a
  reuse identity (`CheckpointSpecs.RestoredAsCheckpointed`,
  `ReuseIdentity.SameIdentityExactlyWhenTheyAgree`).

## Model

| member | source | states |
|---|---|---|
| `Lines.SplitCharacterized` | src/backend-msb/follow-replay.ts:13-19 | Joining the split parts gives the text back, and no part holds a newline |
| `Lines.SplitUnique` | src/backend-msb/follow-replay.ts:13-19 | There is no other way to cut a text at its newlines |
| `Lines.ConcatLines` | src/backend-docker/frames.ts:84-103 | Cutting a text anywhere and going on with the unterminated rest yields the same complete lines and the same rest |
| `Lines.TerminatedRoundTrip` | src/backend-msb/invoke.ts:76-80 | Lines written out with their newlines are read back unchanged |
| `Lines.ReplayAgreesUnlessEmpty` | src/backend-msb/follow-replay.ts:13-19 | The replay of an undelivered text agrees with reading it line by line if and only if the text is not empty |
| `Frames.DemuxConcat` | src/backend-docker/frames.ts:40-68 | Parsing may stop at any byte and resume with the unparsed rest: chunk boundaries do not matter |
| `Frames.DemuxUndoesEncoding` | src/backend-docker/frames.ts:40-68 | From any frames' bytes the payloads of type bytes 0, 1 and 2 come back in order as stdin, stdout and stderr, other types leave no trace, and an incomplete last frame stays buffered |
| `Frames.KnownAt` | src/backend-docker/frames.ts:25-36 | The frames that come out of any frames are those whose type byte is 0, 1 or 2, each in its place, with the stream of that number and its own payload |
| `Frames.PushEncoded` | src/backend-docker/frames.ts:44-66 | A chunk that ends within a frame answers the frames before it, by those numbers, and buffers the rest |
| `Frames.StrictPrefixIsIncomplete` | src/backend-docker/frames.ts:47-54 | A proper prefix of a frame is never taken for a frame |
| `Frames.FrameDemuxer.Push` | src/backend-docker/frames.ts:44-66 | Returns exactly the whole frames of buffer and chunk, and keeps exactly the unparsed suffix |
| `Frames.LineAssembler.Feed` | src/backend-docker/frames.ts:84-103 | Returns the lines the text completes and keeps the unterminated rest |
| `Frames.LineAssembler.Flush` | src/backend-docker/frames.ts:106-117 | Hands out the unterminated rest, at most once |
| `DockerFollow.DeliverFrames` | src/backend-docker/backend.ts:524-572 | One chunk's frames deliver the lines they complete, cut short only by a close |
| `DockerFollow.FollowLogs` | src/backend-docker/backend.ts:524-572 | For every chunking and close point a prefix of the output's lines is delivered; all of them at the natural end; all but the unterminated one on an error; none after a close, and none kept back but for a close |
| `DockerFollow.Logs` | src/backend-docker/backend.ts:495-521 | The printed log has exactly the lines that following the stream to its end delivers |
| `DockerFollow.StreamCarriesOutput` | src/backend-docker/frames.ts:40-68 | Whatever the write boundaries, the followed text is the payloads of type bytes 1 and 2, in order |
| `DockerFollow.FollowEncoded` | src/backend-docker/backend.ts:524-572 | Following any frames' bytes to their end, in any chunks, delivers exactly the lines of the payloads of type bytes 1 and 2 |
| `MsbFollow.WindowLines` | src/backend-msb/commands.ts:347-349 | A fetch shows the last 1000 lines of the log, with its unterminated end |
| `MsbFollow.Deliver` | src/backend-msb/backend.ts:2607-2612 | Hands over a range of lines in order, each located further on in the log, testing for a close before each |
| `MsbFollow.FetchTerminal` | src/backend-msb/backend.ts:2642-2655 | The final fetch is repeated only while it fails, until the deadline or a close: it answers the first fetch that works, gives up exactly at a failure past the deadline or with a close before the next, and else is still trying |
| `MsbFollow.DeliverTerminalTail` | src/backend-msb/backend.ts:2635-2668 | Drained, the last line is delivered, or nothing where the shown log is all blank; and it ends drained, given up, closed or still trying exactly by the first of those to come |
| `MsbFollow.DeliverLive` | src/backend-msb/backend.ts:2591-2613 | While the sandbox runs only complete lines are delivered, each at its place in the final log |
| `MsbFollow.DeliverPoll` | src/backend-msb/backend.ts:2567-2613 | A failed listing or fetch delivers nothing and is tried again; a fetch leaves no complete line it showed undelivered |
| `MsbFollow.FollowByPolling` | src/backend-msb/backend.ts:2553-2625 | For every growth of the log, failing probes and close: delivered lines have strictly increasing positions, past the window too; every complete line shown by a round is delivered in it unless a close came first; drained, the whole log arrived if and only if it has at most 1000 lines and is not all blank. It gives up only in the round that saw the sandbox stopped, at a failed fetch past the deadline or before a close; it ends closed only at a test it came to, of a round or of a line still owed |
| `MsbFollow.UnclosedFollowIsDrained` | src/backend-msb/backend.ts:2553-2668 | Without a close, a run that comes to a round that sees the sandbox stopped, and to a fetch that works before any past the deadline fails, is drained |
| `MsbFollow.AwaitGone` | src/backend-msb/backend.ts:2500-2509 | The watchdog replays if and only if some listing does not show the sandbox, a failed one included, and no close came before the first such listing was asked for |
| `MsbFollow.FollowLive` | src/backend-msb/backend.ts:2463-2525 | Live lines, then one replay of what the count of delivered lines says is owed, if and only if the watchdog saw the sandbox gone and the fetch answered; else live lines alone |
| `MsbFollow.ReplayAfterClose` | src/backend-msb/backend.ts:2500-2522 | After any number of rounds, a close during the listing that misses the sandbox still replays |
| `MsbFollow.CutIsPrefix` | src/backend-msb/backend.ts:2470-2478 | What a killed stream delivered are lines of the log if and only if it was cut between lines |
| `MsbFollow.ReplayCompletesExactlyWhen` | src/backend-msb/backend.ts:2487-2498 | Live lines and replay make up the log if and only if something was printed, the cut was between lines, and no undelivered line is hidden |
| `MsbFollow.ReplayRedeliversNothing` | src/backend-msb/backend.ts:2487-2498 | Live and replayed lines sit at strictly increasing positions of the log |
| `MsbFollow.FailedListingEndsTheFollow` | src/backend-msb/backend.ts:2502-2506 | After a failed listing taken for "stopped", the follow is complete if and only if the log never grew again |
| `FreePorts.FirstFreshMeaning` | src/core/free-ports.ts:73-82 | An allocation answers a port nobody holds, and throws if and only if every pick before a failing bind is taken |
| `FreePorts.Pool.Allocate` | src/core/free-ports.ts:73-82 | The answered port was not issued and now is; a throw issues nothing |
| `FreePorts.Pool.Release` | src/core/free-ports.ts:85-87 | Exactly that port is no longer issued |
| `RunLedger.ReadWritten` | src/core/reaper/ledger.ts:31-54 | Names written to a ledger file are the names read back |
| `RunLedger.AppendedLine` | src/core/reaper/ledger.ts:112-118 | Appending a line to the file's text appends its name to the list, or to the last name if that was left unterminated |
| `RunLedger.EmptyMeansNoLines` | src/core/reaper/ledger.ts:73-80 | The trimmed text is empty if and only if no name is listed |
| `RunLedger.CutTextReads` | src/core/reaper/ledger.ts:44-54 | A file whose rewrite stopped at any byte reads as the first of its lines and perhaps part of the next |
| `RunLedger.RemoveLine` | src/core/reaper/ledger.ts:31-64 | Without a fault the first such line goes; it throws only if other lines are left, with the file untouched or cut off anywhere; a failed read or unlink is not noticed and leaves no line, or all |
| `RunLedger.RunLedger.AppendSandboxName` | src/core/reaper/ledger.ts:112-118 | The name is the last line; or it throws, having written nothing, part of the line or all of it |
| `RunLedger.RunLedger.RemoveSandboxName` | src/core/reaper/ledger.ts:121-128 | Without a fault the first such line goes, and the record if and only if nothing is listed any more; with one, what `RemoveLine` and a misread pruning leave |
| `RunLedger.RunLedger.RemoveNetworkId` | src/core/reaper/ledger.ts:140-147 | The same for networks |
| `RunLedger.RunLedger.PruneIfEmpty` | src/core/reaper/ledger.ts:89-97 | Without a fault deletes the three files exactly when both lists are empty; a file it cannot read counts as empty |
| `LedgerLines.UntrackUndoesTrack` | src/core/reaper/ledger.ts:56-62 | Removing the line just appended restores the file |
| `LedgerLines.RemoveFirstFromDistinct` | src/core/reaper/ledger.ts:56-62 | On a file without repeats, removal takes exactly one name away |
| `CleanupRegistry.CleanupRegistry.Register` | src/core/cleanup.ts:83-86 | A new id goes last, a known one keeps its place |
| `CleanupRegistry.CleanupRegistry.Unregister` | src/core/cleanup.ts:89-91 | The id is gone and the others keep their order |
| `CleanupRegistry.CleanupRegistry.RunAll` | src/core/cleanup.ts:40-50 | Every registered teardown runs once, in start order, whichever of them throw; then the registry is empty |
| `CleanupRegistry.RekeyedInPlaceOfOld` | src/core/generic-container.ts:1411-1421 | Re-keying after a rename lists the new id last, drops the old one and touches no other |
| `SandboxNames.NamesDiffer` | src/core/sandbox-name.ts:17-20 | Different counts give different names |
| `SandboxNames.NothingBeforeAName` | src/core/sandbox-name.ts:17-20 | A name appended behind anything else on its line is no sandbox's name |
| `SandboxNames.SandboxNames.NextSandboxName` | src/core/sandbox-name.ts:17-20 | The minted name was never known before |
| `Container.AllocateAll` | src/core/generic-container.ts:571-581 | Each exposed guest port gets a host port of its own; ports are lost if and only if a guest port is exposed twice; a throw leaves what was allocated issued |
| `Container.GenericContainer.BootOrCleanUp` | src/core/generic-container.ts:757-774 | A failed create or boot leaves neither a ledger line nor an accounted sandbox, unless a ledger file fails; what a failed create or removal left behind is a stray; it throws at the ledger only where others are listed |
| `Container.GenericContainer.TrackAndBoot` | src/core/generic-container.ts:743-774 | The name is fresh and listed before the sandbox is made |
| `Container.GenericContainer.Attempt` | src/core/generic-container.ts:741-787 | One attempt's ports end held, quarantined, released or lost, according to how it ended, and never overlap those issued before it; how it ended is what the backend answered, unless no port, spec or ledger line was to be had |
| `Container.GenericContainer.AttemptUntilBooted` | src/core/generic-container.ts:730-787 | At most five attempts with pairwise disjoint host ports, TCP and UDP alike, whose outcomes are the backend's answers in order; only the last can have thrown, and only for want of a port, a spec or a ledger line |
| `Container.GenericContainer.BootWithRetries` | src/core/generic-container.ts:740-789 | However the loop is left, the quarantine is released and only the booted attempt's ports stay issued |
| `Container.GenericContainer.Settle` | src/core/generic-container.ts:797-840 | Ready, it is started, or keeps running though its hook throws; a container that never becomes ready is undone |
| `Container.GenericContainer.Start` | src/core/generic-container.ts:727-842 | Conflicts are retried up to five times and nothing else is; the result is what the backend answered last, what waiting for readiness came to and whether the hook threw; running: one more ledger line, registration, sandbox and set of ports; failed otherwise: every store as before (the ledger while its files do not fail) |
| `Container.GenericContainer.Stop` | src/core/generic-container.ts:1112-1146 | Gives back exactly this container's entries in every store, the registry's by the handle's id and, while its files do not fail, the ledger's by its name; it throws only where others are listed; the second call changes nothing |
| `Container.StartThenStopTwice` | src/core/generic-container.ts:1112-1152 | Start, stop and stop again leaves no trace in ports, registry or sandboxes, nor in the ledger while its files do not fail; it goes all the way whenever nothing but the backend and the wait fails |
| `LifecyclePorts.PortsStep` | src/core/generic-container.ts:727-789 | Every step of every call keeps the issued ports the disjoint union of those held, quarantined, running, retained and lost |
| `LifecyclePorts.PortsConserved` | src/core/generic-container.ts:919-996 | Port conservation over every run of any number of interleaved containers, reuse ones included |
| `LifecyclePorts.QuiescentPorts` | src/core/generic-container.ts:571-590 | With every container idle, only retained and lost ports are issued |
| `LifecyclePorts.NeverPickedTwice` | src/core/generic-container.ts:730-787 | In every reachable state the attempts of one start have pairwise disjoint ports, and no port of an attempt is allocated to anybody before its loop exits |
| `LifecyclePorts.LostExactlyByLeaks` | src/core/generic-container.ts:741-756 | A step loses ports if and only if it throws outside the guarded part with ports allocated, and then exactly that attempt's |
| `LifecyclePorts.NothingLostExactlyWithoutLeaks` | src/core/generic-container.ts:727-789 | Over any run from the beginning, no port is lost if and only if no such step was taken with ports allocated |
| `LifecyclePorts.StopCanLoseAPort` | src/core/generic-container.ts:1112-1146 | A run of two containers' starts and stops that ends with both idle and a port issued for good |
| `LifecyclePorts.IdleToIdleRestoresPorts` | src/core/generic-container.ts:727-837 | A container's calls that end idle without such a throw restore the issued sets |
| `LifecyclePorts.HoldsWhatItAllocated` | src/core/generic-container.ts:571-590 | From its first allocation until its sandbox is stopped or given up, a container holds exactly the ports allocated to its current attempt, all of them issued |
| `LifecyclePorts.RetainedForGood` | src/core/generic-container.ts:1126-1136 | Over every run, the ports a reuse container held when it was stopped, or when its registry write failed, are exactly those retained: they stay issued ever after, and no allocation of one is possible |
| `LifecyclePorts.ReuseStopKeepsItsPort` | src/core/generic-container.ts:1126-1136 | A reuse container starts on a port and is stopped: the port stays issued |
| `LifecycleLedger.LedgerStep` | src/core/reaper/ledger.ts:112-128 | Every step keeps each existing sandbox due to be listed and names apart |
| `LifecycleLedger.LedgerOverRuns` | src/core/generic-container.ts:741-781 | The same over every interleaving |
| `LedgerDisk.LineMoves` | src/core/reaper/ledger.ts:41-97 | Whatever is done to the files, a name's line comes and goes only by an append, its own removal, or one of the named faults |
| `LedgerDisk.Found` | src/core/reaper/ledger.ts:41-54 | After a crash a name is read if it has its line and the rewrite under way has come to it, or has written a part that reads as it |
| `LifecycleCrash.LineOverRuns` | src/core/reaper/ledger.ts:112-128 | Over every run, a name due to be listed has its line if and only if it got one and no step lost it for good |
| `LifecycleCrash.CrashedRunLists` | src/core/generic-container.ts:749-756 | Whenever the process dies, a sandbox that exists and was not given up on is listed if and only if no step lost its line for good and the run does not end in a rewrite that has not come to it |
| `LifecycleCrash.CrashedRunIsFullyListed` | src/core/generic-container.ts:749-756 | Whenever the process dies, every such sandbox is listed if and only if none of them lost its line so |
| `LifecycleCrash.FaultlessRunIsFullyListed` | src/core/generic-container.ts:749-756 | Where no file operation fails and the process does not die in a rewrite, every sandbox that exists is listed, but those whose removal had failed or that a failed create had left |
| `LifecycleCrash.LiveOverRuns` | src/core/generic-container.ts:757-774 | Over every run, a sandbox exists if and only if some step made it and no removal of it that works came after |
| `LifecycleCrash.StrayOverRuns` | src/core/generic-container.ts:757-774 | And one is given up on if and only if a removal of it failed, or a create failed that had made it |
| `LifecycleCrash.CrashInRewriteUnlists` | src/core/reaper/ledger.ts:41-54 | Two containers run, one is stopped, the process dies after the truncation: the other's sandbox is listed nowhere |
| `LifecycleCrash.TornAppendHidesTheNext` | src/core/reaper/ledger.ts:112-118 | An append that stops half way hides the name appended after it |
| `LifecycleTidy.TakenOff` | src/core/reaper/ledger.ts:56-97 | Untracking takes a name's one line off, unless the file was to be unlinked and was not |
| `LifecycleTidy.ListsExactlyTheTracked` | src/core/reaper/ledger.ts:112-128 | In every interleaving in which no operation on the file fails, its lines are exactly the names tracked and not untracked since, each once |
| `LifecycleLedger.RegistryOverRuns` | src/core/generic-container.ts:814-817 | The registry holds exactly the ids of the containers' current phases, over every run |
| `LifecycleLedger.RegistryListsRunningContainers` | src/core/generic-container.ts:1411-1441 | Between calls the registered ids are exactly the current handle ids, assigned by docker or named by msb, of running ephemeral containers, through renames, failed checkpoints and stops |
| `LifecycleOrder.StepsInOrder` | src/core/generic-container.ts:727-842 | In every interleaving, each container's own steps come one after another as its call's code has them, by a table that names every pair |
| `LifecycleOrder.FirstStepBegins` | src/core/generic-container.ts:727-730 | And the first of them begins a start |
| `LifecycleOrder.RetriesConflictsOnly` | src/core/generic-container.ts:775-787 | In every interleaving, a start whose failed attempt is cleaned up goes on to another if and only if the failure was a host-port conflict and fewer than five attempts met one |
| `LifecycleOrder.ReuseRetriesConflictsOnly` | src/core/generic-container.ts:940-985 | The same of a reuse start; after another failure it looks whether the name runs by now |
| `LifecycleCrash.RecordSurvivesExactlyWhenNeverEmptied` | src/core/reaper/ledger.ts:89-97 | The run record is there if and only if no removal found both files empty, or could not read them, and unlinked it |
| `LifecycleCrash.RecordIsNotRewritten` | src/core/reaper/init.ts:65-69 | A run that starts, stops and starts again leaves a listed sandbox no record points at |
| `Reaper.Reaper.DoInit` | src/core/reaper/init.ts:42-93 | Active if and only if the mode is not off and the record was written first; a failing watchdog leaves it active |
| `Reaper.Reaper.EnsureInitialized` | src/core/reaper/init.ts:102-109 | The bring-up happens once; later calls change nothing |
| `Reaper.Reaper.TrackSandbox` | src/core/reaper/init.ts:112-117 | One more line, or a no-op while inactive; thrown, what a failed append leaves |
| `Reaper.Reaper.UntrackSandbox` | src/core/reaper/init.ts:120-125 | One line less, or a no-op while inactive; thrown, what a failed rewrite leaves |
| `Reaper.Reaper.NotifyBackendClosed` | src/core/reaper/init.ts:155-162 | Inactive, and the run's files gone whatever they listed, but any that could not be unlinked |
| `Reaper.BringUpThenTrack` | src/core/reaper/init.ts:65-69 | With the reaper active, record and line are on disk before the sandbox may be made |
| `Reaper.TrackAfterClose` | src/core/reaper/init.ts:155-162 | After a close no bring-up and no container writes a line again |
| `Watchdog.Host.RunRemove` | src/core/reaper/watchdog.ts:69-83 | A removal is repeated once after a database error: the sandbox goes if and only if fewer than two such errors and no other failure meet it |
| `Watchdog.Host.Reap` | src/core/reaper/watchdog.ts:85-91 | Every listed name is attempted and every removable one is gone, and nothing else |
| `Watchdog.RunScript` | src/core/reaper/watchdog.ts:85-100 | One pass attempts every listed sandbox and network and deletes the three files, but any that cannot be |
| `Watchdog.ReapAfterCrash` | src/core/reaper/watchdog.ts:64-100 | After a crash at any point, one pass leaves, of the sandboxes nobody gave up on, exactly those whose line was lost or still to be rewritten: nothing at all, if no file operation failed, every removal took effect and the crash was not in a rewrite |
| `Liveness.GroupsMeaning` | src/core/reaper/process-liveness.ts:54-72 | The elapsed-time pattern matches a text in one way at most, and exactly the texts of its form |
| `Liveness.ParseUndoesPrint` | src/core/reaper/process-liveness.ts:66-76 | Parsing inverts printing for every duration and padding |
| `Liveness.LiveOwnerAccepted` | src/core/reaper/process-liveness.ts:118-142 | A live owner is accepted if ps answers within 1999 ms and its record is within 1 ms |
| `Liveness.LaterAnswerCanReject` | src/core/reaper/process-liveness.ts:83-91 | Every longer delay can turn such an owner down, ps being asked after it began |
| `Liveness.ReusedPidRejected` | src/core/reaper/process-liveness.ts:117-142 | A process that took the pid over later is not mistaken for the owner |
| `Sweep.PassRemovesExactlyTheCondemned` | src/core/reaper/sweep.ts:67-99 | A removal is asked for if and only if it is listed by a run of another process whose record parses, with this backend and no live owner, or has been unparseable for over an hour |
| `Sweep.PassDeletesExactlyTheCondemned` | src/core/reaper/sweep.ts:26-43 | Exactly those runs' files go |
| `Sweep.NamesBeforeNetworks` | src/core/reaper/sweep.ts:26-43 | Of each run the sandboxes in their order, then the networks in theirs |
| `Sweep.RunsDirectory.ReapRun` | src/core/reaper/sweep.ts:26-43 | All names, then all networks are attempted in order, whatever fails; then the files go |
| `Sweep.RunsDirectory.SweepOneRun` | src/core/reaper/sweep.ts:67-99 | Vanished, alive, fresh unreadable and foreign runs are left alone |
| `Sweep.RunsDirectory.SweepOnce` | src/core/reaper/sweep.ts:52-65 | The loop performs exactly the pass |
| `Sweepers.SafeOverRuns` | src/core/reaper/sweep.ts:67-99 | Over every run of sweepers, owners and watchdogs, what is being reaped is not the sweeper's own; if its record parses, it is of the sweeper's backend, and dead or misjudged |
| `Sweepers.RemovalsAreJustified` | src/core/reaper/sweep.ts:52-99 | In every interleaving, a sweep removes an item only of another's run: of its backend, and dead or judged by a bad answer while alive, if the record parses; and if not, only after it found the record over an hour old |
| `Sweepers.WorkOnStaleBegins` | src/core/reaper/sweep.ts:73-83 | A sweep sets to work on a run whose record does not parse if and only if it comes to it and finds the record over an hour old |
| `Sweepers.LivingReapedExactlyWhenMisjudged` | src/core/reaper/process-liveness.ts:117-142 | Over every run, a run with a parsing record is reaped while its owner lives if and only if some sweep judged it then by an answer that is missing, unreadable or more than two seconds from the record |
| `Sweepers.NeverReapsTheLiving` | src/core/reaper/process-liveness.ts:83-91 | In every interleaving, a run whose record is within 1 ms of its start, and that is judged by answers given within 1999 ms, is never reaped while its owner lives |
| `Sweepers.FailedPsReapsTheLiving` | src/core/reaper/process-liveness.ts:120-138 | A run in which ps fails and a live owner's sandbox is removed |
| `SweepComplete.InvOverRuns` | src/core/reaper/sweep.ts:26-43 | Files of a dead run that was never misjudged go only after everything in them was attempted |
| `SweepComplete.FinishedSweepIsComplete` | src/core/reaper/sweep.ts:52-99 | Everything that a run listed when it died with its record in place is removed, or its removal attempted, in the course of any run in which a sweep of its backend lists the directory after that and finishes - unless that sweep judged it alive by a good answer, or some sweep misjudged it while it lived; and its files are gone, unless one of that sweep's unlinks failed or it missed the record |
| `SweepComplete.FinishedWatchdogIsComplete` | src/core/reaper/watchdog.ts:64-100 | The same of everything the watchdog's own run listed when it died, once the watchdog finished |
| `SweepComplete.MisjudgedRunCanBeLost` | src/core/reaper/sweep.ts:67-99 | A run in which a misjudged owner's sandbox is never attempted and its record is gone |
| `SweepComplete.ReapedFilesAreGone` | src/core/reaper/ledger.ts:65-71 | The files of a reaped run that was never misjudged are gone for good, unless an unlink failed |
| `BootRetry.MsbBackend.BootOnce` | src/backend-msb/backend.ts:927-976 | A second attempt, under the same name and mode, if and only if the first failed at the agent relay |
| `BootRetry.MsbBackend.PollInstallLock` | src/backend-msb/backend.ts:797-893 | At most thirty attempts; given up on the lock only once the budget is spent |
| `BootRetry.MsbBackend.BootClassified` | src/backend-msb/backend.ts:797-893 | At most 32 attempts, all under the given name and mode, all but the last transient; a first that is transient has a second |
| `BootRetry.MsbBackend.TryFreshName` | src/backend-msb/backend.ts:1773-1809 | A fresh name is listed before its restore, and nothing boots unlisted; a name that fails is unlisted again if and only if untracking works, which it does where no other is listed - the ledger file not being damaged half way |
| `BootRetry.MsbBackend.RetryRestoreAfterAccessDenied` | src/backend-msb/backend.ts:1756-1816 | At least one retry; no burned name is used again; an attempt is brokered if and only if this is Windows and one before it was denied access; every attempt boots the handle's spec but for the name; failure changes no registry but to leave listed the name that could not be untracked, success moves the state to the winning name alone; given up on a denial only after three retries |
| `BootRetry.MsbBackend.Start` | src/backend-msb/backend.ts:745-893 | The same for a whole start, in at most 98 attempts; each attempt after the first follows a failure that calls for it, and no transient failure of a name's first attempt is left without a second; a fresh name is minted if and only if the first boot is denied access, and three are before it gives up on a burned name; another's install lock is given up on only after 30 seconds |
| `BootRetry.MsbBackend.RebootUnderFreshName` | src/backend-msb/backend.ts:1884-1942 | The same for a checkpoint's reboot, in at most 512 attempts: brokered if and only if this is Windows and one before was denied access, each of the source's spec with the snapshot and its command or the captured one; the ledger gains exactly the winning name, or the name that could not be untracked, or nothing; given up on a burned name only once the budget is spent |
| `BootRetry.MsbBackend.CreateCheckpoint` | src/backend-msb/backend.ts:2080-2209 | Failed, every registry is untouched, but for a name that could not be untracked; done, the handle's state lives under the new name only, booted from the snapshot whose ref is answered; refused, without a state or without a snapshot nothing is booted |
| `BootRetry.NextRound` | src/backend-msb/backend.ts:1891-1941 | A round under a freshly minted name keeps burned names burned, brokered attempts exactly those after a denial on Windows, and every retry called for |
| `Checkpoints.LosesTwo` | src/core/generic-container.ts:1391-1457 | Removing artifacts leaves an entry dangling if and only if an entry points at one that went |
| `Checkpoints.PriorMeaning` | src/core/generic-container.ts:1370-1376 | A name's prior artifact is the ref its entry has, if that parses and is of the active backend |
| `Checkpoints.CheckpointStore.Checkpoint` | src/core/generic-container.ts:1349-1479 | A failed call keeps the entry and all but the nominal ref's artifact; a successful one takes away at most the name's prior artifact; the entry set stays sound if and only if nothing else pointed at what went |
| `Checkpoints.CheckpointStore.MakeAndReplace` | src/core/generic-container.ts:1391-1457 | Exactly which artifacts a call adds and removes, for every way it can go |
| `Checkpoints.CheckpointStore.Find` | src/core/checkpoint/api.ts:51-75 | Found if and only if the entry parses and is of another backend, or its artifact is there; it throws if and only if that could not be asked; stale and corrupt entries go |
| `Checkpoints.CheckpointStore.Remove` | src/core/checkpoint/api.ts:122-141 | True if and only if there was an entry; sound if and only if no other entry shared the artifact |
| `Checkpoints.CheckpointStore.Import` | src/core/checkpoint/api.ts:229-266 | Replaces like a checkpoint, the imported artifact kept |
| `Checkpoints.Perform` | src/core/checkpoint/api.ts:51-266 | Any one call leaves exactly the entries and artifacts that its outcomes determine |
| `Checkpoints.PerformAll` | src/core/checkpoint/api.ts:51-266 | Over any run of these calls with unshared content-addressed refs, registry and artifacts end as the calls one after another leave them, and every active-backend entry points at an existing artifact |
| `CheckpointSpecs.RestoredAsCheckpointed` | src/core/checkpoint/registry.ts:246-312 | Through the registry and back a container is configured as the source was: environment, guest ports by protocol, memory limit, and its command or the captured one |
| `CheckpointSpecs.GuestPortsMeaning` | src/core/checkpoint/registry.ts:246-260 | Every binding's guest port is among those of its protocol, and no other is |
| `Records.LastPairWins` | src/core/checkpoint/registry.ts:246-250 | A variable has the value of its last pair |
| `Records.Fill` | src/core/reuse/hash.ts:86-89 | The loop fills exactly that record |
| `JsonScan.SplitTopLevelObjects` | src/backend-msb/ls-json.ts:25-67 | The index-keeping loop finds what the character machine finds |
| `JsonScan.TruncatedRun` | src/backend-msb/ls-json.ts:18-67 | Of any sequence of objects behind plain gaps, cut off anywhere, exactly the complete ones are found |
| `JsonFields.UnescapeUndoesEscape` | src/backend-msb/ls-json.ts:76 | The two replacements undo escaping for every string |
| `JsonFields.FirstMatchAtLiteral` | src/backend-msb/ls-json.ts:70-75 | The pattern matches at a literal if and only if a value follows and it is, or ends with a quote and, the field's name |
| `LsJson.ExtractedFieldMeaning` | src/backend-msb/ls-json.ts:70-77 | The extracted value is that of the first member taken for the field, for every printed object |
| `LsJson.TruncatedScan` | src/backend-msb/ls-json.ts:18-67 | A printed array cut off anywhere yields exactly the objects complete before the cut |
| `LsJson.EveryCutIsAfterSome` | src/backend-msb/ls-json.ts:18-24 | Every cut is of that kind |
| `JsonText.ValueMore` | src/backend-msb/ls-json.ts:92-99 | A value that parses off the front of a text parses the same however the text goes on |
| `LsParse.ArrayParsed` | src/backend-msb/ls-json.ts:92-99 | A printed array is read back as printed, or not at all; and read back, if it is JSON |
| `LsParse.CutParsed` | src/backend-msb/ls-json.ts:92-99 | A cut of a printed array parses only if the closing bracket is there, and then to the whole array; of one that is JSON, exactly then |
| `LsEntries.ScanRecovers` | src/backend-msb/ls-json.ts:79-84 | The scan of a cut recovers name and status of exactly the complete objects, where no key looks like the field |
| `LsEntries.CutEntries` | src/backend-msb/ls-json.ts:86-99 | Parsed or scanned, the entries of any printed array cut off anywhere are those of exactly the objects complete before the cut |
| `LsEntries.WholeEntries` | src/backend-msb/ls-json.ts:86-99 | With its closing bracket a JSON array is parsed, and no key is mistaken for another; without it, it is scanned |
| `LsEntries.RunningNames` | src/backend-msb/ls-json.ts:106-114 | Exactly the names of the entries that are running; it throws if and only if an entry is null |
| `LsEntries.RunningNamesOfCut` | src/backend-msb/ls-json.ts:106-114 | Of a printed array cut off anywhere: exactly the names of the running sandboxes whose objects are complete |
| `LsEntries.StatusOf` | src/backend-msb/ls-json.ts:124-131 | The first entry of that name decides, unless a null comes first and it throws |
| `LsEntries.StatusOfCut` | src/backend-msb/ls-json.ts:124-131 | Of a printed array cut off anywhere: the status of the first complete object of that name, or undefined if there is none |
| `LsEntries.LookalikeIsMisread` | src/backend-msb/ls-json.ts:70-114 | An array whose running name is right while it is whole and wrong once its closing bracket is cut off |
| `ImageReference.ParseMeaning` | src/core/docker-image-name.ts:12-55 | A reference is the parse of a text if and only if it prints as that text and none of its parts would be read as another |
| `ImageReference.ParseIsLossless` | src/core/docker-image-name.ts:50-55 | The parts of any string print as that string |
| `ImageReference.DockerAgrees` | src/backend-docker/backend.ts:34-47 | Docker's own split agrees on every reference without a digest, a missing tag read as latest |
| `Sorting.SortsAlike` | src/core/reuse/hash.ts:97-104 | Two lists without ties sort alike if and only if they are permutations of each other |
| `ReuseIdentity.ContentsExactly` | src/core/reuse/hash.ts:70-95 | The copies hash the content read from each host path, under its guest path, in the copies' order |
| `ReuseIdentity.CanonicalEnv` | src/core/reuse/hash.ts:85-89 | The canonical environment holds each variable with its value, and nothing else, but for `__proto__` |
| `ReuseIdentity.CanonicalPorts` | src/core/reuse/hash.ts:97-110 | The canonical ports are the exposed ones of each protocol in ascending order, UDP ones only if there are any |
| `ReuseIdentity.CanonicalCopies` | src/core/reuse/hash.ts:91-97 | The canonical copies are the guest paths with their contents' digests, in the order of the paths |
| `ReuseIdentity.CanonicalRest` | src/core/reuse/hash.ts:99-109 | Image, limits and the network flag are as the spec has them, an unset command is an empty one, and false is left out |
| `ReuseIdentity.NoCanonicalForm` | src/core/reuse/hash.ts:91-96 | There is no canonical form if and only if some copied file cannot be read |
| `ReuseIdentity.SameIdentityExactlyWhenTheyAgree` | src/core/reuse/hash.ts:85-111 | Two specs share a canonical form if and only if they agree up to order and an unset command, in what their copied files hold and not in where these lie |
| `ReuseIdentity.ProtocolsKeptApart` | src/core/reuse/hash.ts:97-110 | A port exposed over TCP and one over UDP are never confused |
| `Installer.InstallOverRuns` | src/backend-msb/provisioner.ts:267-288 | Over every run, crashes included, a present msb stays the mark of a whole install |
| `Installer.PresentMeansComplete` | src/backend-msb/provisioner.ts:157-341 | In every interleaving a present msb implies a present library, both whole, and each there from the beginning or downloaded in the run with the checksum listed for it; success implies installed |
| `Installer.FailsExactlyWhenSpoilt` | src/backend-msb/provisioner.ts:157-341 | Over every run, an installer that does not crash fails if and only if it got no lock in time, a download of its failed, had no checksum listed or did not match it, or a write or rename of its failed |
| `Installer.MismatchWritesNothing` | src/backend-msb/provisioner.ts:233-246 | Such a download is written nowhere |
| `Installer.FetchesExactlyIfMissing` | src/backend-msb/provisioner.ts:157-341 | An installer waits for the lock if and only if it finds one of the two files missing, and downloads if and only if one is missing still when it has the lock |
| `Installer.ExclusionEndsExactlyBy` | src/backend-msb/provisioner.ts:167-214 | A step takes away a holder's own file if and only if it takes over a working process's file that was read empty or expired, or one made since the read, or releases another's |
| `Installer.LockExcludesExactlyUnlessStolen` | src/backend-msb/provisioner.ts:167-214 | From the beginning, every holder has its own file at the path throughout a run if and only if no such step is taken |
| `Installer.OneHolderExactlyUnlessOpenedBeside` | src/backend-msb/provisioner.ts:167-214 | From the beginning, one process at most holds the lock throughout a run if and only if nobody in it opens the lock file anew while another holds it |
| `Installer.StaleLockIsReplaced` | src/backend-msb/provisioner.ts:131-195 | The lock of a holder that died, one that has expired and an empty one are taken over by whoever comes upon them |
| `Installer.HolderIsWaitedFor` | src/backend-msb/provisioner.ts:131-195 | That of one at work cannot, while it is written and has not expired |
| `Installer.TwoHoldersOnlyByTheft` | src/backend-msb/provisioner.ts:167-214 | At most one process holds the lock at the end of a run without such a step |
| `Installer.TwoHoldersWithoutACrash` | src/backend-msb/provisioner.ts:121-128 | Two holders at once, with no crash and no expired lock |

## Left out

- UTF-8 decoding across frames and `\r\n` normalisation: text is a sequence of characters cut at `\n`.
- Child processes, sockets, HTTP and timing: only their outcomes, as choices or parameters. The classifiers of error texts are the outcome datatype of `BootRetry`.
- The exec tunnel, network links, the UDP forwarder, the PowerShell and guest scripts.
- The modules under `src/modules`, wait strategies, argument builders and error texts: configuration and wording.
- `start()` called twice on one instance, and `checkpoint()` racing `stop()` on the same container: each container's calls are taken one at a time; different containers interleave freely.
- A restore that is renamed during `start()` is modelled in `BootRetry`, not again in `Lifecycle`; a reuse container's checkpoint is one step there, which touches no store.
- `Lifecycle` keeps of the .networks file only whether it lists anything; `RunLedger` has both files' text.
- BootRetry.MsbBackend.CreateCheckpoint: says nothing of the ledger's lines once a write of its file stopped half way or a read of it failed; `LedgerDisk` says what is left then.
- A reuse start that fails looks once whether the name runs by now; `Lifecycle` lets it look, and begin again, any number of times.
- The reuse adopt path across processes: one process may remove another's sandbox; conservation is stated within one process.
- Container.GenericContainer.Start: does not model the network's own tracking and the reuse branch; the interleaving model has both. Of the ledger it speaks while no operation on its files has failed; `RunLedger` says what each failure leaves.
- LifecycleCrash.CrashedRunIsFullyListed: sandboxes whose removal failed unnoticed, or that a failed create left, are excepted, because the code untracks them all the same.
- BootRetry.MsbBackend.RebootUnderFreshName: states what the ledger lists after an unclassified failure, not that no sandbox is left behind, because that path untracks without removing.
- Sweepers.NeverReapsTheLiving: a run whose record does not parse may be alive when it is reaped after an hour; the code has no way to tell.
- SweepComplete.FinishedSweepIsComplete: a dead run whose pid another process took over within the tolerance counts as alive and is spared.
- Listing or unlinking a directory is one step; a half-read listing is not modelled.
- Checkpoint archives' contents: only their outcome, an effective ref or a failure.
- The digest is an injective function, and the canonical form's JSON text is taken to be determined by the form.
- JSON escapes other than `\\` and `\"` in printed arrays: the scanner leaves them as they are, and the parser's half surrogate pairs have no character of their own.
- Printed arrays hold flat objects with string values; `JSON.parse` itself is modelled for every text, but for the depth at which it runs out of stack.
- LsEntries.StatusOfCut: an object whose keys repeat is left out; parsed, its last value counts, and scanned, its first.
- Windows start times, which come from PowerShell in milliseconds and need no parsing of durations.

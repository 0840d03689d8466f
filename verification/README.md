# A verified model of the VMM's concurrent and sequential cores

This project models, in Dafny, the parts of the virtual machine monitor whose correctness does
not show in any one function, and proves what they promise for every input, every interleaving
or every run.

| files | what they model |
|---|---|
| `Vcpus` | the vCPU threads, the barrier that parks them, the kick and the stop |
| `Ledger`, `LedgerStream`, `LedgerProtocol` | the event ledger: its buffer, the stream it accepts, and the protocol between adders and writer |
| `Utf8`, `Terminal`, `CsiRules`, `ConsoleFilter`, `FilterMachine`, `ConsoleSafety`, `ConsoleFidelity` | the console filter, against a reference terminal and a language of safe text: what it lets out is harmless, and what is harmless it lets out |
| `Supervisor` | the wake pipe, the stop request and the lifecycle records |
| `RamLayout`, `FlatRam`, `RamScan`, `GuestRam` | guest RAM over regions of one object |
| `Newc`, `NewcRoundTrip`, `CpioWriter` | the newc writer of the initramfs tool, and a strict reader |
| `Exports` | the check of overlapping exports |
| `Base`, `Folds` | shared types and folds over sequences |

`dafny verify dfyconfig.toml` checks all of it.

The concurrent cores are transition systems: a state, one relation per atomic step (an access to
a shared atomic, a lock operation, or a section that holds the lock), and a run as a sequence of
states. Each step keeps an invariant, and the theorems are about every state, or every two
states, of every run. Condition variables may wake a waiter at any time. Writes to the ledger's
file may fail after any prefix of their bytes.

Sections of `events.rs` that hold the lock, the console filter, guest RAM, the archive writer and
the export check are classes and methods with loops, each proved against functions on values. The
theorems are about those functions.

The reference terminal follows sections 5.4 (control sequences) and 5.6 (control strings) of
ECMA-48, and the decoder section 4 of RFC 3629. The archive reader follows the buffer format of
the Linux kernel's initramfs.

## Model

| member | source | states |
|---|---|---|
| `Vcpus.PauseHoldsTheGuestStill` | src/hypervisor/vcpus.rs:203-223 | In every interleaving, from a pause's return of true to its resume no other vCPU is in the guest, even if a stop releases the barrier meanwhile. Until a release, every vCPU that had started is in the barrier and none is past it, through the call of a stop and all its kicks; only a stop that has done its kicks releases early. |
| `Vcpus.PauseGathers` | src/hypervisor/kvm.rs:355-400 | After a pause's kick, every step of a vCPU brings it closer to the barrier, at most eight steps away, or to its exit, and none leaves the barrier while the request is up. |
| `Vcpus.PauseReachesTheGuest` | src/hypervisor/kvm.rs:172-183 | While a pause that has kicked a vCPU keeps its request up, that vCPU never executes guest code with no signal on its way. |
| `Vcpus.PauseFailsForCause` | src/hypervisor/vcpus.rs:203-223 | A pause comes to its release without having been held only if its wait timed out or the VM has stopped. |
| `Vcpus.TimeoutHasCause` | src/hypervisor/quiesce.rs:123-135 | A wait is given up only while a started vCPU is not parked. |
| `Vcpus.PauseProceeds` | src/hypervisor/vcpus.rs:203-228 | Every step of a pause brings it closer to its answer and release, except to wait for a vCPU that has started and is not parked. |
| `Vcpus.ResumeFrees` | src/hypervisor/quiesce.rs:75-91 | Once no pause is asked for, every step of a parked vCPU brings it closer to the end of its checkpoint. |
| `Vcpus.FreeVcpuEnters` | src/hypervisor/kvm.rs:355-400 | Every step of a vCPU that no stop, pause or kick holds up brings it closer to the guest, ten steps away at most. |
| `Vcpus.VcpuLeavesForCause` | src/hypervisor/kvm.rs:355-400 | A vCPU leaves its loop only after a stop or because its own run ended the VM. |
| `Vcpus.StopIsFinal` | src/hypervisor/vcpus.rs:236-256 | Once a stop has done its kicks, in every later state no vCPU executes guest code, and none has entered the guest since, including one that was parked and one that registers late. |
| `Vcpus.StopProceeds` | src/hypervisor/vcpus.rs:236-256 | A stop clears the running flag, and every step of it brings it closer to its return. |
| `Vcpus.StopReleases` | src/hypervisor/vcpus.rs:250-256 | Past its release a stop leaves no pause holding the barrier: a request that is up then belongs to a pause still on its way. |
| `Vcpus.StoppedVcpusDrain` | src/hypervisor/vcpus.rs:236-256 | When a stop has returned, with no pause on its way, the request is down and each step of a vCPU, parked or not, brings it closer to its exit. |
| `Vcpus.NoReleaseIsLost` | src/hypervisor/quiesce.rs:75-145 | A vCPU asleep in the barrier and not notified is under a request, or a thread that cleared it owes the notify. A request is up only inside a pause that will clear it. |
| `Vcpus.RequesterIsNotLost` | src/hypervisor/quiesce.rs:111-135 | A requester asleep and not notified has a started vCPU still to park, which will notify it, or a stop on its way to its notify. |
| `Vcpus.StopDrains` | src/hypervisor/kvm.rs:355-400 | After a stop's kicks and with no request up, every step of a vCPU brings it closer to its exit, at most fourteen steps away. |
| `Vcpus.FullBarrier` | src/hypervisor/quiesce.rs:111-135 | A parked count that reaches the target means every started vCPU but the boot vCPU is parked, although the target grows during the wait. |
| `Vcpus.RunKeeps` | src/hypervisor/vcpus.rs:166-256 | The invariant holds in every state of every run, and a finished kick round is never undone. |
| `Vcpus.StepKeeps` | src/hypervisor/kvm.rs:355-400 | Every step of a vCPU, the pauser, the stopper or a stray kick keeps the invariant. |
| `LedgerProtocol.FileIsStreamPrefix` | src/events.rs:799-886 | In every state of every run, through partial writes, retries, a close and a give-up, the file is a prefix of the accepted stream. Until a give-up, written, taken and buffered bytes are the whole stream, and what lies past the offset is a prefix of the taken bytes. |
| `LedgerProtocol.FileHoldsWholeRecords` | src/events.rs:788-795 | While no write is under way or failed, the file is the text of the first entries of the stream: whole lines only. |
| `LedgerProtocol.AcknowledgedIsWritten` | src/events.rs:978-1001 | When a wait returns Ok, every byte of its batch and of all earlier batches is in the file and stays there. A writer that gave up acknowledges nothing unwritten. |
| `LedgerProtocol.IdleWriterHasAnswered` | src/events.rs:864-877 | With nothing to do the writer has answered everyone: the wait for the last awaited batch returns Ok. Whether its writes fail is known to those who wait. |
| `LedgerProtocol.WorkIsTaken` | src/events.rs:808-844 | A writer that looks and finds work starts a write of all that is accepted and not written, or finds the closed ledger written. |
| `LedgerProtocol.NoWakeupIsLost` | src/events.rs:924-947 | The writer is never in its untimed wait with work to do unless it has been notified or a thread owes it the notify, although only the first capture to find it idle notifies. |
| `LedgerProtocol.DropsAreConserved` | src/events.rs:527-592 | Droppable records offered are in the stream or counted as dropped, drops are summed by the markers of the stream or still unmarked, and unwritten droppable bytes stay within 4 MiB. |
| `LedgerProtocol.DroppedOnlyBeyondTheLimit` | src/events.rs:560-582 | In every reachable state, each record of a captured batch is kept exactly when it, with the marker due, leaves at most 4 MiB of the stream that the writer has not reported written. |
| `LedgerProtocol.CapturedIsKept` | src/events.rs:349-370 | A captured batch that fits within the limit is kept whole and in order. |
| `LedgerProtocol.MarkersAreWritten` | src/events.rs:530-582 | Each marker of the stream stands in the written, taken and buffered bytes as the marker line for its count, right before a record. |
| `LedgerProtocol.CloseIsFinal` | src/events.rs:493-512 | A closing batch, and nothing else, closes the ledger; it is the last batch and the only closing one, and nothing is accepted after it. |
| `LedgerProtocol.WriterEnds` | src/events.rs:808-885 | After it saw the close with failing writes the writer tries at most ten more times and never goes back to its waits for lines, so a success is its last try. It exits with the whole stream written and acknowledged, or gives up, a second after it saw the close at the earliest, and no thread waits on after that. |
| `LedgerProtocol.SubmittedIsKept` | src/events.rs:493-505 | A submitted batch adds to the stream its lines, whole, in order and with nothing between them, behind the marker for the drops before it. |
| `LedgerProtocol.RunKeeps` | src/events.rs:799-886 | The invariant holds in every state of every run, and the history only grows. |
| `LedgerProtocol.StepKeeps` | src/events.rs:799-947 | Every step of an adder, a closer, the clock and the writer keeps the invariant. |
| `LedgerProtocol.OfferAllKeeps` | src/events.rs:527-592 | Adding a batch record by record keeps the bytes, the drop counts and the buffer limit in step with the stream. |
| `LedgerProtocol.OverwriteKeepsPrefix` | src/events.rs:788-791 | A retry at the same file offset keeps the bytes past the offset a prefix of the taken bytes, wherever the last try broke off. |
| `LedgerStream.AccountIsStream` | src/events.rs:527-592 | The running account of a history is its rendered stream: its bytes, with the marker line for each count, the losses, the markers and the end of the last droppable record. |
| `LedgerStream.RunOfDrops` | src/events.rs:530-582 | A run of drops is marked once, by the marker line for their number, directly before the first record kept after it. |
| `LedgerStream.MarkersPrecedeRecords` | src/events.rs:530-560 | Every marker counts at least one drop and stands right before a record. |
| `LedgerStream.DropsRenderNothing` | src/events.rs:560-573 | Drops add nothing to the stream by themselves. |
| `LedgerStream.CutIsBetweenEntries` | src/events.rs:788-795 | A cut of the history is a cut of the stream between two entries. |
| `LedgerStream.TextGrows` | src/events.rs:527-592 | A longer history renders a stream that starts with the shorter one's. |
| `Ledger.State.constructor` | src/events.rs:638-669 | A fresh buffer is empty and open. |
| `Ledger.State.AddOne` | src/events.rs:530-582 | One record is dropped and counted, or appended behind the marker that is due. |
| `Ledger.State.Add` | src/events.rs:527-592 | A batch is added record by record and counted as one, and the first adder to find the writer idle is told to wake it. |
| `Ledger.State.Captured` | src/events.rs:349-370 | A captured batch is added as droppable unless the ledger is closed. |
| `Ledger.State.Submit` | src/events.rs:469-517 | A batch is refused when closed or not serialized and else added whole, and closes the ledger when it is the last. |
| `Ledger.State.CloseOnDrop` | src/events.rs:595-614 | Dropping the ledger closes it once. |
| `Ledger.State.Pass` | src/events.rs:808-844 | One pass of the writer takes the buffered lines behind those it failed to write, stops, or gives up. |
| `Ledger.State.Acknowledge` | src/events.rs:864-877 | The batches of a pass are acknowledged, and the writer told whether it is done. |
| `Ledger.KeepsFlags` | src/events.rs:527-592 | Adding changes neither the close, the give-up nor the acknowledgements. |
| `ConsoleSafety.ConsoleIsHarmless` | src/terminal/filter.rs:66-134 | For every input in any chunks, after each write the output is complete well-formed UTF-8, leaves the reference terminal in its ground state, and makes it do harmless things only. |
| `ConsoleSafety.ChunksDoNotMatter` | src/terminal/filter.rs:104-109 | The output for a list of writes is the output for their concatenation. |
| `ConsoleFidelity.EverythingHarmlessIsShown` | src/terminal/filter.rs:104-303 | For every input, the text, the C0 controls but ENQ, CAN and SUB, and the harmless sequences up to the hold limit that the terminal gets from the output are those it would have read from the guest itself, with malformed text read as U+FFFD and C1 controls showing nothing. |
| `ConsoleFidelity.WellFormedTextIsShown` | src/terminal/filter.rs:104-303 | For well-formed text with no C1 control and no DEL right behind an escape, they are those of the reference terminal on the text as it is. |
| `ConsoleFidelity.DelBehindAnEscape` | src/terminal/filter.rs:147-176 | DEL right behind an escape ends it in the filter and not in the reference terminal. |
| `ConsoleFidelity.AsciiSteps` | src/terminal/filter.rs:137-249 | In every mode, a byte below 0x80 moves the filter and the terminal alike and shows the same. |
| `ConsoleFidelity.ReadIsDecode` | src/terminal/filter.rs:271-303 | The reading of arbitrary bytes is the decoding of well-formed ones. |
| `ConsoleSafety.TokenIsTaken` | src/terminal/filter.rs:136-303 | Each safe token decodes, returns the terminal to ground and is harmless. |
| `ConsoleSafety.ControlIsTaken` | src/terminal/filter.rs:322-398 | So does each control sequence let through. |
| `ConsoleFilter.OutputIsInLanguage` | src/terminal/filter.rs:105-302 | Every output is in the safe language. |
| `ConsoleFilter.LanguagePassesUnchanged` | src/terminal/filter.rs:105-302 | A text is in the safe language exactly when the filter passes it whole and unchanged and ends at rest. |
| `ConsoleFilter.FilteringTwiceIsFilteringOnce` | src/terminal/filter.rs:105-134 | Filtering what was filtered changes nothing. |
| `ConsoleFilter.FeedEmitsTokens` | src/terminal/filter.rs:112-302 | From any state of the filter, any input gives whole safe tokens. |
| `ConsoleFilter.FeedKeepsValid` | src/terminal/filter.rs:112-302 | The held bytes are always a sequence in progress and within the hold limit. |
| `ConsoleFilter.ControlPasses` | src/terminal/filter.rs:204-269 | An allowed control sequence up to the hold limit of 128 bytes passes unchanged. |
| `ConsoleFilter.FinishedChar` | src/terminal/filter.rs:290-302 | The bytes collected for a character decode, as that one character, exactly when they are one well-formed character. |
| `ConsoleFilter.FeedConcat` | src/terminal/filter.rs:104-109 | Feeding two inputs one after the other is feeding their concatenation. |
| `CsiRules.JudgesAsTerminal` | src/terminal/filter.rs:322-398 | The rules let a control sequence through exactly when the reference terminal would dispatch it as one harmless function. |
| `CsiRules.ModesAgree` | src/terminal/filter.rs:389-398 | The mode check on text agrees with the meaning of the parameters as numbers. |
| `CsiRules.FieldAgrees` | src/terminal/filter.rs:392-397 | Parsing one parameter as a 32-bit number agrees with its value. |
| `CsiRules.SplitOfJoin` | src/terminal/filter.rs:390-392 | Splitting at semicolons undoes joining by them. |
| `CsiRules.AllowedIsBody` | src/terminal/filter.rs:322-379 | What is let through is a whole control sequence. |
| `FilterMachine.Machine.constructor` | src/terminal/filter.rs:92-102 | A new filter is at rest. |
| `FilterMachine.Machine.FilterInput` | src/terminal/filter.rs:104-109 | The loop over the input appends what the filter function gives for it and ends in its state, so the theorems about that function are theorems about the loop. |
| `FilterMachine.Machine.Push` | src/terminal/filter.rs:111-134 | One byte does to the state and the output what the filter function says, with the character collected in a four-byte array. |
| `FilterMachine.Machine.StartEscape` | src/terminal/filter.rs:252-256 | An escape starts a new sequence, whatever was held. |
| `FilterMachine.Machine.Hold` | src/terminal/filter.rs:263-269 | A byte is held up to 128 bytes, and a longer control sequence is dropped to its final byte. |
| `FilterMachine.Machine.InGround` | src/terminal/filter.rs:137-145 | Outside a sequence: the state and the output become what the filter function gives, and a lead byte starts a character. |
| `FilterMachine.Machine.InEscape` | src/terminal/filter.rs:147-176 | Behind an escape: the same, with simple sequences passed and control strings opened. |
| `FilterMachine.Machine.InEscapeIntermediate` | src/terminal/filter.rs:178-202 | Behind an intermediate: the same, with the selection of a character set passed. |
| `FilterMachine.Machine.InCsi` | src/terminal/filter.rs:204-224 | In a control sequence: the same, with the sequence judged whole at its final byte. |
| `FilterMachine.Machine.InCsiIgnore` | src/terminal/filter.rs:226-241 | In a sequence that is too long: the same, with all of it dropped up to its final byte. |
| `Supervisor.NoWakeIsLost` | src/run/stop.rs:207-234 | The supervisor is never blocked with an exit counted, a stop asked for or a vCPU to announce and no byte in the pipe or owed, for any number of wakers, a full pipe and partial drains. |
| `Supervisor.FirstIsKept` | src/run/stop.rs:100-114 | Who asked first and the first signal are written once, with one that did ask and a signal that did. A signal that asked first is recorded as a signal, and a request that has come back finds one recorded. |
| `Supervisor.StopHasCause` | src/run/supervisor.rs:351-380 | The run stops only for an exit, a request or a failure, and the ledger is closed once every vCPU thread has exited or the deadline for it has passed. |
| `Supervisor.SupervisorProceeds` | src/run/supervisor.rs:351-440 | With a reason to stop, every step of the supervisor brings it closer to the end of its loop, but for one that blocks on a request it just read as absent, and with every vCPU gone closer to the end of the run. |
| `Supervisor.LifecycleIsInOrder` | src/run/supervisor.rs:295-440 | When the run has ended, the lifecycle records are the start, each vCPU that had started at the last look once and in start order, and the stop, which is the last record of all. |
| `Supervisor.RunKeeps` | src/run/supervisor.rs:295-440 | The invariant holds in every state of every run. |
| `Supervisor.StepKeeps` | src/hypervisor/vcpus.rs:265-294 | Every step of a requester, a vCPU, a waker and the supervisor keeps it. |
| `RamLayout.AcceptedExactlyWhenApart` | src/memory/guest.rs:165-181 | A list of regions, in any order, is accepted exactly when it has one and no two overlap, and comes out as the same regions in address order. |
| `RamLayout.FoundExactlyInOneRegion` | src/memory/guest.rs:278-298 | A range is found exactly when one region holds all of it, with the 64-bit arithmetic checked. |
| `RamLayout.Find` | src/memory/guest.rs:278-298 | What is found is a region and the offset of the range in it. |
| `FlatRam.RefinesExactlyWhenFilesApart` | src/memory/guest.rs:401-404 | For every content and every write, the regions behave as one flat memory exactly when no two of them are kept in one place of the object. |
| `FlatRam.WriteIsFlat` | src/memory/guest.rs:401-404 | A write changes exactly its own addresses, and a refused one changes nothing. |
| `FlatRam.AliasShows` | src/memory/guest.rs:401-404 | With two regions kept in one place, a write of one byte shows at a second address. |
| `FlatRam.LastWriteWins` | src/memory/guest.rs:226-242 | After any history of writes, refused ones among them, an address holds the byte of the last one that covers it. |
| `RamScan.ScanReportsOccurrences` | src/memory/guest.rs:193-219 | A scan reports at most 64 occurrences, each in one region, in ascending addresses and apart. Every occurrence up to the last one reported, and every one at all when there are fewer than 64, starts inside one reported. |
| `RamScan.GreedyIsLeftmost` | src/memory/guest.rs:202-216 | The search of one region makes the leftmost choice of matches that do not overlap. |
| `GuestRam.Map` | src/memory/guest.rs:42-181 | Mapping is refused exactly when the list is empty, a region is empty, not aligned to 1 MiB, past the object or past the address space, or two overlap. |
| `GuestRam.Ram.constructor` | src/memory/guest.rs:165-181 | The mapped memory keeps its regions and object. |
| `GuestRam.Ram.Contains` | src/memory/guest.rs:226-228 | True exactly when one region holds the range. |
| `GuestRam.Ram.Read` | src/memory/guest.rs:239-242 | A read gives what the flat memory reads, and a refused one leaves the buffer as it was. |
| `GuestRam.Ram.Write` | src/memory/guest.rs:401-404 | A write is the write function on the object and, with file ranges apart, the write to the flat memory. |
| `GuestRam.Ram.Scan` | src/memory/guest.rs:193-219 | The nested loops report the first 64 of all matches. |
| `GuestRam.ScanRegion` | src/memory/guest.rs:202-216 | The inner loop appends the matches of one region, up to 64 in all. |
| `NewcRoundTrip.ArchiveReadsBack` | tools/mk-initramfs.py:86-128 | For all entries, a reader that takes all thirteen fields and only zero padding gets back every one, in order and nothing else, exactly when every size fits its 32-bit field and no name holds a NUL or is the trailer's. |
| `NewcRoundTrip.TrailerNameIsLost` | tools/mk-initramfs.py:122-124 | An entry added under the trailer's name is not read back. |
| `NewcRoundTrip.RecordReads` | tools/mk-initramfs.py:95-116 | A record at an aligned place reads back as its entry exactly when its sizes fit and its name holds no NUL, and then the next place is right behind it. |
| `NewcRoundTrip.StartsAligned` | tools/mk-initramfs.py:118-120 | Every record starts at a multiple of four. |
| `NewcRoundTrip.FieldsReadBack` | tools/mk-initramfs.py:92-93 | The header's fields read back as the low 32 bits of the numbers. |
| `Newc.HexReadsBack` | tools/mk-initramfs.py:92-93 | The digits are upper-case hexadecimal and read back as the number. |
| `Newc.Padded` | tools/mk-initramfs.py:122-127 | The archive's length is a multiple of 512. |
| `CpioWriter.Writer.constructor` | tools/mk-initramfs.py:88-90 | A new writer holds no entry. |
| `CpioWriter.Writer.Add` | tools/mk-initramfs.py:95-116 | Adding keeps the buffer the records of all entries added, numbered from 1. |
| `CpioWriter.Writer.Append` | tools/mk-initramfs.py:95-116 | The bytes appended are the record of the entry. |
| `CpioWriter.Writer.Pad` | tools/mk-initramfs.py:118-120 | The padding reaches the next multiple of four. |
| `CpioWriter.Writer.Finish` | tools/mk-initramfs.py:122-128 | The archive reads back as the entries added exactly when every size fits its field and every name is plain, and its length is a multiple of 512. |
| `Exports.CheckExportOverlap` | src/config.rs:358-411 | The list passes exactly when no path is granted both read-only and writable. A refusal names the first pair in conflict and says truly whether they are one directory or which lies in which. |
| `Exports.ConflictIsDoubleGrant` | src/config.rs:337-411 | A conflicting pair exists exactly when some path lies below a read-only and a writable root. |
| `Exports.RootsAreNested` | src/config.rs:349-357 | Two roots above one path lie one below the other. |

## Left out

- The panic hook's stop, which clears the running flag but may skip kicks; the stop theorems are about runs without it.
- A plugin that panics inside a pause: a pause is followed by its resume.
- The wait of a pause for a limited time is a choice of the environment: the wait may end unsuccessful at any time.
- The concurrent cores `vcpus.rs`, `quiesce.rs`, `kvm.rs`, `supervisor.rs` and `stop.rs`, and the loop of `run_writer`, are transition systems on values and not classes: a class cannot be interleaved. The sections of `events.rs` that hold the lock are methods of a class.
- Overflow reports and what is printed to standard error.
- Serialization of records: a record is its line, and its marker a function of the drop count.
- Opening and locking of the ledger's file, and the guard that closes the ledger when a run fails early.
- The slot and the claim of a run.
- Widths of counters: batch, drop and vCPU counters are unbounded.
- Memory orders weaker than sequential consistency.
- Real time: the clock is a number that grows, and a sleep lasts at least its interval.
- A view of guest RAM whose regions come from several files: the model has one object.
- What CAN and SUB show inside a sequence: the filter drops them there with the sequence.
- Races of the guest with reads, writes and scans of its RAM, and the single-load accessors.
- Building the initramfs tree: directories, links and devices are entries like others.
- Resolving export paths on the host: the model's roots are what resolution gave, or the path as given where it failed.
- Seccomp and Seatbelt profiles, loaders and device trees, interrupt lines, command-line parsing and terminal modes.

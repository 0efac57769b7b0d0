# A verified model of the differential kernel tester

The tester runs small programs on a reference kernel and on a candidate kernel, records what every system call did, and
reports where the two differ. This Dafny project models the parts of it on which a verdict depends, and proves what they
are for. Each file models one component; the code of the component is a method or class in the shape of the original,
proved against functions that say what it computes, and lemmas say what that means.

| component | files |
|---|---|
| canonical traces and their comparison (`analyzer/normalize.py`, `analyzer/compare.py`) | `Canonical.dfy`, `AlphaEquivalence.dfy`, `RawRenaming.dfy`, `FirstUse.dfy`, `Compare.dfy`, `NoisyComparison.dfy` |
| stable hashes, triage reruns and the report (`orchestrator/stability.py`, `orchestrator/scheduler.py`, `analyzer/classify.py`) | `Stability.dfy`, `GuestState.dfy`, `Triage.dfy` |
| the FAT reader (`targets/tgoskits_arceos/api.py`) | `FatTable.dfy`, `FatDirectory.dfy`, `FatSampler.dfy`, `FatLayout.dfy`, `FatReadable.dfy`, `FatRoundTrip.dfy`, `FatExample.dfy` |
| the tracer's SHA-256 (`agent/linux/trace.c`) | `Sha256Spec.dfy`, `BitStrings.dfy`, `Sha256Constants.dfy`, `Sha256Congruence.dfy`, `Sha256Stream.dfy` |
| the tracer's JSON lines, their frames, and the host that reads them (`agent/linux/trace.c`, `orchestrator/vm_runner.py`) | `Json.dfy`, `LoadedJson.dfy`, `TraceLine.dfy`, `ProbeBytes.dfy`, `TraceEvent.dfy`, `TraceFrames.dfy`, `TraceFile.dfy`, `TraceCalls.dfy`, `TraceCut.dfy`, `HostEvents.dfy` |
| the tracer's descriptor (`agent/arceos/trace.c`) | `TraceFd.dfy` |
| the batch console (`tools/run_asterinas_shared.py`) | `Text.dfy`, `Console.dfy`, `ConsoleMarks.dfy`, `ConsoleRecovery.dfy`, `ConsoleSections.dfy`, `ConsoleResults.dfy` |
| the packaged-bundle cache (`targets/asterinas/cache_support.py`) | `BundleCache.dfy` |
| batches, threads and the VM limit (`orchestrator/scheduler.py`, `core/concurrency.py`, `orchestrator/vm_runner.py`) | `BatchScheduler.dfy`, `VmPool.dfy` |
| the greedy reducer (`tools/reduce_case.py`) | `Reducer.dfy` |
| the source instrumenter (`tools/prog2c_wrap.py`) | `SplitArguments.dfy`, `Instrumenter.dfy` |

`Prelude.dfy` and `PyValues.dfy` hold the vocabulary they share. `dafny verify dfyconfig.toml` checks the whole project.

## What the model takes as given

* Runs of kernels, builds, docker, clocks and the file system are inputs: functions of the attempt, values, or steps of
  a state machine. A thread pool is any order in which its futures complete.
* A digest taken in Python is an injective function where that is needed, and then says so; the tracer's own SHA-256 is
  modelled bit by bit from FIPS 180-4.
* Words of SHA-256 are strings of 32 bits. The operations on them are a parameter of the standard's text, so that the
  standard's operations and the tracer's expressions are two instances that are proved equal.
* Text is a sequence of characters. What Python's `json` reads is modelled for the grammar that the tracer prints.
* The recursion of the directory walk is bounded by Python's recursion limit, which is a parameter; beyond it the
  original reports a read error, and so does the model.

## Where the code and its promise part

* Two runs with equal hashes are taken to be the same run, but keys named `duration_ns`, `start_ns` or `end_ns` are
  removed before hashing at every depth, also inside the final state and the exit record. Two traces with equal hashes
  compare equivalent if and only if states and exit records are equal (`Stability.SameViewVerdictIff`); that follows
  from the hash exactly for traces that hold no such key (`Stability.HashDecidesIffTimeFree`), and fails for a key at
  any depth (`Stability.TimedStateEscapesTheHash`). The guest prints file names unescaped, so a name can plant such a
  key (`GuestState.PlantedNamesEscapeTheHash`).
* Triage takes reference runs with equal hashes for one, and compares the candidate with the latest. The report is about
  the first reference trace exactly under the condition of `Triage.ComparesWithFirstIff`, and for every candidate exactly
  if all reference traces have the same state and exit record (`Triage.ReportsAreAboutFirstIff`); a timing key in one
  of them turns the class around (`Triage.TimedRerunMisleads`). Timing keys in candidate traces do no harm here.
* The FAT sampler drops the bytes of a short name that are not ASCII, and takes each 16-bit unit of a long name for a
  character, without reporting an error. A tree comes back if and only if every name on the way to a file is in ASCII, or
  long and without surrogate pairs (`FatRoundTrip.TreeComesBackIff`), and can be written to its file if and only if no
  long name has a surrogate at all (`FatRoundTrip.TreeIsWrittenIff`). A file named by one byte of 128 or more is missing
  (`FatRoundTrip.OemNameIsPassedOver`, `FatExample.FoundUnderAscii`), one with a character beyond 16 bits has another
  name (`FatReadable.PairIsSplit`), and one after orphaned long-name entries is reported under theirs
  (`FatRoundTrip.OrphanRenames`).
* Results of noise calls are not compared, but they are numbered: a noise call that fails on one side only makes later
  addresses differ (`NoisyComparison.FailingNoiseShiftsNumbers`).
* A console that ends inside a frame gives no events, not those of the complete frames
  (`TraceCut.CutConsoleGivesCompleteEvents`); for batch blocks the complete ones are found
  (`ConsoleRecovery.CutConsoleGivesCompleteCases`).
* A reduced program need not be 1-minimal: the trial `drop-j.syz` can be the file that the current program is read
  from. It is certain to be 1-minimal exactly if that file is overwritten by the last trial of a round or not at all
  (`Reducer.MinimalityCondition`).
* The instrumenter writes the beginning of a call's line twice, whatever stands there
  (`Instrumenter.InstrumentSource`, `Instrumenter.ReplacementFor`); a source with two calls on one line is refused for it
  (`Instrumenter.OneCallPerLine`).
* The comparator's field `noise_only` is false in every result (`Compare.EquivalentIffErasedEqual`).
* A reference and a candidate trace never have the same hash under an injective digest, because the side is part of the
  trace, so the scheduler's last comparison is never made (`Triage.NeverComparedOnceMore`); the model keeps it.
* A batch writes its package and slot into each report, which the loop over single cases does not, so the two lists
  agree only in the rest (`BatchScheduler.BatchingRefinesTheLoop`).

## Model

| member | source | states |
|---|---|---|
| Canonical.CanonicalContext.Token | analyzer/normalize.py:57-67 | a known value keeps its token; a new one gets the next number of its kind; the other kinds' tables do not change |
| Canonical.NormalizeScalar | analyzer/normalize.py:70-75 | 0, -1 and -100 and values without a kind stay; all others become the token that the numbering gives them |
| Canonical.NormalizeArgs | analyzer/normalize.py:104-116 | argument positions are named by system call and sign, in order, threading one numbering |
| Canonical.NormalizeResources | analyzer/normalize.py:97 | descriptors handed out by a call are always named, also 0 |
| Canonical.NormalizeOutputs | analyzer/normalize.py:78-99 | outputs keep label, digest and preview, with the stat prefix masked |
| Canonical.NormalizeEvent | analyzer/normalize.py:102-139 | an event's key is the numbering of its view, and the context afterwards is the one that follows it |
| Canonical.ValidateRawTrace | analyzer/schemas.py:28-31 | accepts exactly the strictly increasing, non-negative event indexes |
| Canonical.Canonicalize | analyzer/normalize.py:142-155 | raises exactly on invalid indexes; otherwise the events' keys are the numbering of the whole trace from an empty context |
| AlphaEquivalence.SameKeysAreRenamed | analyzer/normalize.py:51-140 | soundness: equal canonical events mean that a one-to-one renaming of descriptors, addresses and pids takes one trace to the other |
| AlphaEquivalence.EventsInStep | analyzer/normalize.py:51-140 | completeness: along a renaming both numberings stay in step and produce the same symbols |
| AlphaEquivalence.SameKeysIffRenamed | analyzer/normalize.py:51-140 | canonical form: equal symbols if and only if alpha-equivalent |
| AlphaEquivalence.AlphaEquivalenceIsAnEquivalence | analyzer/normalize.py:51-140 | being a renaming of each other is reflexive, symmetric and transitive |
| RawRenaming.AlphaIsRaw | analyzer/normalize.py:10-48 | that relation said of the raw traces: by a table of signatures, a positive value at a position for a descriptor, address or process stands for its renaming, every other value for itself, and a stat preview for all but its first 32 digits |
| RawRenaming.LiteralsStay | analyzer/normalize.py:70-75 | alpha-equivalent raw traces have 0, -1 and -100, the values at all other positions, the errno values and the calls in common |
| FirstUse.SymbolsAreFirstUse | analyzer/normalize.py:57-140 | the symbols of every raw trace: a name becomes its kind with the number of others of the kind mentioned before it, where an event mentions its arguments, then its result, then the descriptors in its outputs; all else stays, and the first 32 digits of a stat preview become zeros |
| FirstUse.EventsAreCounted | analyzer/normalize.py:51-67 | after every trace the dictionaries hold exactly the mentioned resources, each under that number |
| Compare.IsNoiseEvent | analyzer/compare.py:6-16 | true exactly for equal noise calls whose arguments and outputs agree |
| Compare.CompareCanonical | analyzer/compare.py:19-65 | the loop returns the verdict defined from the least position where the erased events differ, with the reason, the shorter length for differing counts, and whether states and exits are equal |
| Compare.EquivalentIffErasedEqual | analyzer/compare.py:19-65 | equivalent if and only if the traces are equal after erasing results of noise calls; `noise_only` is always false |
| Compare.EquivalenceOfTraces | analyzer/compare.py:19-65 | the verdict is an equivalence relation |
| Compare.DivergenceIndexIsLeast | analyzer/compare.py:28-53 | with equal counts an event index in the result is the least differing position, and the count stands for a differing exit |
| Compare.EquivalentIffAlphaEquivalent | analyzer/compare.py:19-65 | without noise calls two traces compare equivalent if and only if the raw traces are alpha-equivalent, with equal states and exits |
| Compare.CompareRaw | analyzer/normalize.py:142-155 | canonicalizing and comparing two raw traces decides their alpha-equivalence |
| NoisyComparison.SameErasedKeysIff | analyzer/compare.py:6-46 | the symbols agree but for the results of noise calls if and only if a one-to-one renaming makes the traces equal but for these, and gives each resource the same number in the order of first use among all |
| NoisyComparison.SameUpToNoiseIsRaw | analyzer/compare.py:6-46 | the same said of the raw traces: results of noise calls do not matter, and renamed resources have as many others mentioned before them on either side |
| NoisyComparison.EquivalentIffSameUpToNoise | analyzer/compare.py:19-65 | for every set of noise calls two raw traces compare equivalent if and only if they are the same up to noise in that sense, with equal states and exits |
| NoisyComparison.CompareRawUpToNoise | analyzer/normalize.py:142-155 | canonicalizing and comparing two raw traces with noise calls decides that |
| NoisyComparison.FailingNoiseShiftsNumbers | analyzer/compare.py:37-46 | the failing input: a noise call that fails on one side only shifts the numbers after it, and traces that are renamings of each other but for its result compare different |
| Stability.StableViewIsFree | orchestrator/stability.py:8-17 | a stable view has no timing key at any depth, and is its own view |
| Stability.StableViewIsSame | orchestrator/stability.py:8-17 | a value without timing keys is its own view |
| Stability.TimesAreNotHashed | orchestrator/stability.py:8-21 | what the hash is for: traces that differ only in the durations of their events have the same hash, for every digest |
| Stability.SameHashIff | orchestrator/stability.py:8-21 | without timing keys in state and exit record and with an injective digest only such traces have the same hash |
| Stability.TraceIsKept | orchestrator/stability.py:20-21 | equal views of traces mean equal event keys, states, exits and sides |
| Stability.SameViewSameVerdict | orchestrator/stability.py:20-21 | traces with equal views and without timing keys get the same comparison with every third trace, on either side |
| Stability.SameViewVerdictIff | orchestrator/stability.py:8-21 | two traces with equal views, whatever keys they hold, compare equivalent if and only if their states and exit records are equal |
| Stability.HashDecidesIffTimeFree | orchestrator/stability.py:8-21 | the exact condition: every trace without timing keys that hashes like this one compares equivalent to it, if and only if this one holds no timing key in state and exit record |
| Stability.VerdictsAgreeIff | orchestrator/stability.py:8-21 | two traces with equal hashes get the same comparison with a third if and only if its event count is another, or it has the state of both or neither and the exit record of both or neither |
| Stability.InterchangeableIff | orchestrator/stability.py:8-21 | they get the same comparison with every third trace if and only if their states and exit records are equal |
| Stability.TimedStateEscapesTheHash | orchestrator/stability.py:8-21 | the failing inputs: a timing key at any depth of the state or of the exit record leaves the hash as it was and makes the traces differ |
| GuestState.StateIsLoaded | tools/run_asterinas_shared.py:37-52 | the state text that the guest prints loads as the records of its files, with an entry more for a file name that closes its string |
| GuestState.PlantedNamesEscapeTheHash | tools/run_asterinas_shared.py:44-47 | two runs that differ only in what their file names plant have equal hashes, and compare equivalent if and only if nothing differs |
| GuestState.TimeFreeIffNothingPlanted | tools/run_asterinas_shared.py:44-47 | such a state is free of timing keys if and only if no file name plants one |
| Stability.CheckAllEqual | orchestrator/stability.py:24-25 | counting distinct values decides that there is a value and no two differ |
| Triage.BuildReferenceRuns | orchestrator/scheduler.py:123-143 | one reference run, reruns only after a failure, and the hashes of those that loaded, in order |
| Triage.RunTriageLoop | orchestrator/scheduler.py:209-249 | after any number of reruns with any traces or none: all runs and hashes in order, the latest traces, and a comparison of the latest candidate trace with the reference trace of that moment |
| Triage.ComparesWithFirstIff | orchestrator/scheduler.py:230-248 | the exact condition for one report: with equal reference hashes its comparison is the one with the first reference trace if and only if no candidate trace loaded, or that trace and the one compared with stand alike to the candidate trace |
| Triage.ReportsAreAboutFirstIff | orchestrator/scheduler.py:230-318 | the exact condition for all reports: equal reference hashes make every report one about the first reference trace, whatever the candidate does, if and only if all reference traces have the same state and exit record |
| Triage.TimeFreeReferences | orchestrator/scheduler.py:297 | reference traces with equal hashes and no timing keys are such, whatever the candidate traces hold |
| Triage.TimedRerunMisleads | orchestrator/scheduler.py:230-248 | the failing input: a reference rerun that differs by a timing key alone turns no difference into a likely bug, and the other way round |
| Triage.FinalizePreparedCase | orchestrator/scheduler.py:252-352 | reruns on both sides exactly if the first candidate run did not end well or its trace differs up to noise, and the report of all runs: unstable exactly if the reference hashes differ, else class, comparison and hashes |
| Triage.NoDifferenceMeans | analyzer/classify.py:7-34 | "no difference" is reported exactly for equal reference hashes, a last reference run that ended well, a last candidate run without a failure of its own, and a latest candidate trace equal up to noise to the reference trace compared with |
| Triage.ClassMeans | analyzer/classify.py:7-34 | when each of the other classes is reported, by the statuses of the last runs and whether the traces compared differ |
| Triage.FailuresAreLikelyBugs | analyzer/classify.py:17-20 | with stable, good reference runs a candidate that crashes, hangs or panics is reported as a likely bug, whatever was traced |
| Triage.ReportedIffReferencesAgree | orchestrator/scheduler.py:297 | for reference traces without timing keys a class is reported if and only if they are equal but for durations |
| Triage.NeverComparedOnceMore | orchestrator/scheduler.py:317-318 | with an injective digest no hash of a reference run is that of a candidate run, so the guard of the last comparison is false |
| FatTable.Chain | targets/tgoskits_arceos/api.py:417-432 | on any image, cyclic or cut short, the loop ends and returns the walk from the start |
| FatTable.ChainIffWalk | targets/tgoskits_arceos/api.py:417-432 | a list is that result if and only if it is duplicate-free in range, each the FAT successor of the one before, and stops only at an end mark or a repetition |
| FatTable.WalkIsUnique | targets/tgoskits_arceos/api.py:428-431 | there is only one such list |
| FatTable.Fat12EntryRead | targets/tgoskits_arceos/api.py:386-388 | reading any cluster of a packed 12-bit table gives the value that was packed |
| FatTable.Fat12StoreIsLocal | targets/tgoskits_arceos/api.py:386-388 | storing one 12-bit entry changes no other entry's reading, and its own to the value |
| FatTable.FatEntryRead | targets/tgoskits_arceos/api.py:409-414 | reading any entry of an encoded table of any of the three types gives its successor value |
| FatDirectory.DecodeLfnFragment | targets/tgoskits_arceos/api.py:472-480 | the loop decodes the thirteen units of an entry, dropping 0x0000 and 0xFFFF |
| FatDirectory.FragmentRoundTrip | targets/tgoskits_arceos/api.py:472-480 | a fragment of up to thirteen units, terminated and padded, is decoded to its units |
| FatDirectory.FragmentsJoin | targets/tgoskits_arceos/api.py:547-552 | the fragments of a long name, put in front of one another, join to its units |
| FatDirectory.Utf16RoundTrip | targets/tgoskits_arceos/api.py:472-480 | a name of Unicode characters is what its UTF-16 units stand for, and equals its units, which are what is read, exactly if no character is beyond 16 bits |
| FatDirectory.SeenShortIff | targets/tgoskits_arceos/api.py:483-486 | a short name is read as it stands if and only if it is in ASCII; otherwise characters are missing, and no other ones come in |
| FatDirectory.ShortNameRoundTrip | targets/tgoskits_arceos/api.py:483-486 | a padded 8.3 name of any bytes is read back with its dot and without padding if and only if all its bytes are below 128 |
| FatSampler.ReadChain | targets/tgoskits_arceos/api.py:448-469 | the bytes of a chain are its clusters' bytes in order |
| FatSampler.Walk | targets/tgoskits_arceos/api.py:519-581 | the loop over 32-byte entries, with its long-name state and recursion, computes the walk of the directory |
| FatSampler.SortSorts | targets/tgoskits_arceos/api.py:587 | sorting orders by path and is a permutation |
| FatSampler.SampleFatExternalState | targets/tgoskits_arceos/api.py:489-590 | the sorted files of the walk from the root, or no files and a read error, exactly when and with which text; `FatRoundTrip.SampleVolume` says what that is on volumes laid out by the standard |
| FatSampler.PathOrderIs | targets/tgoskits_arceos/api.py:587 | the order is the lexicographic one by code point |
| FatSampler.BootErrors | targets/tgoskits_arceos/api.py:489-500 | the read errors for an image without room for a boot sector, and for zero bytes per sector |
| FatLayout.ExtentIsComputed | targets/tgoskits_arceos/api.py:391-407 | on every boot sector, if the sectors are the reserved ones, the tables, the root directory, n whole clusters and less than one more, the sampler finds n clusters, the sizes of tables and root directory, and the type of the standard: FAT12 up to 4084 clusters, FAT16 up to 65524, else FAT32 |
| FatLayout.EveryBpbDescribes | targets/tgoskits_arceos/api.py:391-407 | every boot sector with room for its tables and its root directory has such a division |
| FatReadable.SeenIffReadable | targets/tgoskits_arceos/api.py:472-486 | what is lost in names goes unnoticed exactly in trees in which every name on the way to a file is in ASCII, or long without surrogate pairs: in all others the files seen differ from the files there are, in any order |
| FatReadable.SeenAndWrittenIff | core/persistence.py:15-19 | the files are seen as they are, in any order, and their list can be written as UTF-8, if and only if every such name is in ASCII, or long without any surrogate |
| FatReadable.PairIsSplit | targets/tgoskits_arceos/api.py:479 | the failing input: any long name with a character beyond 16 bits is seen as another text, with two surrogates that cannot be written |
| FatRoundTrip.WalkFindsTheTree | targets/tgoskits_arceos/api.py:489-588 | on every well-formed FAT12, FAT16 or FAT32 volume, whatever bytes its names hold and whatever deleted, label and dot entries lie between, the walk finds the files under the names that are seen, and fails exactly beyond the recursion limit |
| FatRoundTrip.TreeComesBackIff | targets/tgoskits_arceos/api.py:489-588 | round trip: the walk finds exactly the tree's files with path, size and content if and only if the tree is readable and its directories are within the recursion limit |
| FatRoundTrip.TreeIsWrittenIff | targets/tgoskits_arceos/api.py:489-588 | it finds exactly the tree's files, and they can be written, if and only if the tree is clean and within the recursion limit |
| FatRoundTrip.OrphanRenames | targets/tgoskits_arceos/api.py:547-553 | another failing input: long-name entries left without their short entry give their name to the next short-named file, for the checksum is not read |
| FatRoundTrip.OemNameIsPassedOver | targets/tgoskits_arceos/api.py:555-556 | the failing input: a file whose short name is one byte of 128 or more is passed over without an error |
| FatRoundTrip.SampleVolume | targets/tgoskits_arceos/api.py:489-588 | on such a volume the sampler reports an error exactly beyond the recursion limit, and else a path-sorted list that is a permutation of the tree's files if and only if the tree is readable, and can be written besides if and only if it is clean |
| FatExample.EveryFileHasAVolume | targets/tgoskits_arceos/api.py:489-588 | every file of up to a sector can be laid out, under any name of one byte, on a volume that meets the round trip's conditions |
| FatExample.FoundUnderAscii | targets/tgoskits_arceos/api.py:483-486 | sampling that volume gives the file under an ASCII name, the file under another name for 0xE5, and no file for other bytes |
| FatExample.FloppyIsFat12 | targets/tgoskits_arceos/api.py:401-403 | the boot sector of an ordinary 1.44 MB floppy is taken for FAT12 with 2847 clusters |
| BitStrings.TracerIsStandard | agent/linux/trace.c:41-101 | the tracer's rotations, loads and byte extractions compute the operations of the standard on all words |
| BitStrings.AddReverses | agent/linux/trace.c:80-91 | sums modulo 2^32 do not depend on the order of their four terms |
| Sha256Constants.RoundConstants | agent/linux/trace.c:48-65 | each constant of the rounds is the first 32 bits of the fractional part of the cube root of its prime |
| Sha256Constants.InitialHash | agent/linux/trace.c:107-114 | each word of the initial hash is that of the square root of its prime |
| Sha256Congruence.SameSha256 | agent/linux/trace.c:46-101 | equal word operations give equal hashes of every message |
| Sha256Stream.BitsHashedIs | agent/linux/trace.c:125 | the bit counter is 512 times the blocks consumed, modulo 2^64, for every number of blocks |
| Sha256Stream.Context.Transform | agent/linux/trace.c:46-101 | one transform is one compression of the standard |
| Sha256Stream.Context.Update | agent/linux/trace.c:117-129 | appends to the message, keeping less than a block buffered and the state the hash of the whole blocks |
| Sha256Stream.ShortPad | agent/linux/trace.c:135-138 | below 56 buffered bytes the last block is the standard's padding |
| Sha256Stream.LongPad | agent/linux/trace.c:139-145 | from 56 to 63 the two last blocks are |
| Sha256Stream.Context.Final | agent/linux/trace.c:131-167 | the hash is that of the whole message |
| Sha256Stream.HashPieces | agent/linux/trace.c:103-168 | for every split of a message into updates the result is its FIPS 180-4 hash |
| TraceLine.Line.AppendRaw | agent/linux/trace.c:303-321 | the buffer holds the prefix that fits of everything appended so far, and a terminator after it |
| TraceLine.Line.AppendU64 | agent/linux/trace.c:333-344 | appends the decimal digits, found from the last to the first |
| TraceLine.Line.AppendI64 | agent/linux/trace.c:346-357 | appends the signed decimal, also for the least long |
| TraceLine.Line.AppendJsonString | agent/linux/trace.c:359-394 | appends the quoted and escaped string, and an empty one for the null pointer |
| TraceLine.U64Length | agent/linux/trace.c:335 | twenty digits are enough, so the digit buffer is |
| Json.DecimalIsRead | agent/linux/trace.c:333-344 | the digits denote the number and have no leading zero |
| Json.CharsAreRead | agent/linux/trace.c:359-394 | reading an escaped string gives it back, with control characters other than newline, return and tab as question marks |
| Json.RenderingIsRead | agent/linux/trace.c:333-394 | reading any rendered value gives the value, up to those characters |
| ProbeBytes.HexPreview | agent/linux/trace.c:207-225 | as many bytes as fit are shown in lower-case hex, terminated; nothing of the null pointer, and nothing into a buffer of size zero |
| ProbeBytes.HexIsRead | agent/linux/trace.c:207-225 | reading a preview's hexadecimal digits gives the bytes it was made of |
| ProbeBytes.HexIsInjective | agent/linux/trace.c:207-225 | so a preview determines its bytes |
| ProbeBytes.DigestHex | agent/linux/trace.c:227-244 | the digest text is the hex of the FIPS 180-4 hash, as far as it fits |
| ProbeBytes.SanitizeStat | agent/linux/trace.c:251-269 | the given members of a stat buffer are zeroed and all other bytes kept |
| ProbeBytes.StableByte | agent/linux/trace.c:251-289 | a byte of an output counts as zero exactly if the output is a whole stat buffer and the byte belongs to one of the given members |
| ProbeBytes.ProbePreviewAndDigest | agent/linux/trace.c:276-289 | preview and digest of an output's bytes, sanitized exactly if it is a stat buffer of full size |
| TraceEvent.WriteOutput | agent/linux/trace.c:552-578 | appends the JSON object of an output with every field, preview and digest computed from its bytes |
| TraceEvent.EmitEvent | agent/linux/trace.c:521-582 | the line is the rendered JSON object of the call and of the bytes of its outputs, cut only at the buffer's end |
| TraceEvent.LineFits | agent/linux/trace.c:525 | with names of at most 1000 characters and up to three outputs the line never reaches the 32768 cap |
| TraceFrames.WriteAll | agent/linux/trace.c:415-420 | what gets out is a prefix, and everything unless a write fails |
| TraceFrames.EmitTraceLine | agent/linux/trace.c:396-421 | nothing without an open trace file; a line for the console is framed, and dropped exactly if the frame would reach 33024 characters; what gets out is a prefix, and everything unless a write fails |
| TraceFrames.NoFrameIsDropped | agent/linux/trace.c:409 | no line from the line buffer is dropped |
| TraceFrames.ExtractFramedEvents | orchestrator/vm_runner.py:107-122 | the loop reads the payloads of the framed lines in order, or raises |
| TraceFrames.FramesAreExtracted | orchestrator/vm_runner.py:107-122 | from a console of frames, escape sequences and other lines all events come back in order |
| TraceFrames.EventComesBack | agent/linux/trace.c:521-582 | printer and parser undo each other for printable events: neither cut, nor dropped, nor changed |
| TraceFrames.EventJsonIsInjective | agent/linux/trace.c:529-581 | the text determines every field of the event |
| HostEvents.CallIsRead | analyzer/normalize.py:102-139 | the dictionary that a call's text is loaded as has the call's own data under every name that the analyzer looks up, for each output too, with the first bytes and the hash in hexadecimal digits |
| TraceCalls.EventTells | agent/linux/trace.c:521-582 | two calls are printed alike if and only if they are alike and their outputs agree in label, length, descriptors, shown bytes and hash |
| TraceCalls.CallComesBack | agent/linux/trace.c:521-582 | the whole way for usual names and any bytes: the line is neither cut nor dropped, and the host reads the event with preview and digest of the memory |
| TraceCut.PartIsNotLoaded | orchestrator/vm_runner.py:120 | no proper beginning of an object's text can be loaded |
| TraceCut.CutConsoleGivesCompleteEvents | orchestrator/vm_runner.py:107-122 | for every cut of a console of frames: the events of the complete lines exactly if the cut line shows no payload, one event more if it lacks only its newline, and an error that loses all events in every other case |
| TraceFrames.PersistedTraceEvents | orchestrator/vm_runner.py:125-159 | usable file events come first, without the stdout transport there are no others, and else the streams are merged, or an error is raised; merged events are saved exactly if there are some and there was no event file |
| TraceFrames.PersistedMeans | orchestrator/vm_runner.py:133-153 | it raises exactly if there are no file events, the transport is stdout and some stream has a frame that cannot be parsed |
| TraceFile.FileComesBack | orchestrator/vm_runner.py:133-140 | all printable events that the tracer appended to the event file come back from it in order, and no stream is looked at |
| TraceFile.BrokenFileIsIgnored | orchestrator/vm_runner.py:133-140 | one line that does not load makes the whole file count as empty |
| TraceFile.BadFrameStops | orchestrator/vm_runner.py:107-122 | a stream is refused exactly if a frame in it does not load |
| LoadedJson.OrderIsLost | orchestrator/vm_runner.py:147-149 | events whose entries stand in another order are loaded as the same value, and so are one event for the merge |
| TraceFrames.MergeMeans | orchestrator/vm_runner.py:147-153 | merging loses, invents and repeats nothing, and keeps what was found in front |
| TraceFrames.MergeKeepsOrder | orchestrator/vm_runner.py:147-153 | new events stand in the order in which the stream first shows them |
| TraceFrames.RepeatedStreamAddsNothing | orchestrator/vm_runner.py:142-153 | a console that repeats stdout changes nothing |
| TraceFd.Process.Dup | agent/arceos/trace.c:192 | the lowest free descriptor, as POSIX.1-2017 has it, or a failure that changes nothing |
| TraceFd.Process.EnsureTraceFd | agent/arceos/trace.c:184-212 | with stdout open and no failure: the lowest free descriptor from 256 on; in any case the table is as before but for the one descriptor kept |
| TraceFd.Pigeonhole | agent/arceos/trace.c:191-199 | 256 slots are enough: the last of them holds a descriptor of at least 256 |
| TraceFd.WriteAll | agent/arceos/trace.c:214-227 | what gets out is the prefix that the answers of write() accept |
| TraceFd.InterruptsAreInvisible | agent/arceos/trace.c:223-224 | interrupted writes make no difference |
| TraceFd.AcceptedIs | agent/arceos/trace.c:214-227 | what gets out is what the answers take up to the first failure, but no more than there is |
| Console.ExtractBlocks | tools/run_asterinas_shared.py:337-363 | the scanning loop collects all complete blocks from the start, or raises on the first bad header |
| ConsoleMarks.NextBlockCut | tools/run_asterinas_shared.py:343-352 | in any text cut anywhere the next block is that of the whole text if it ends before the cut, else none |
| ConsoleRecovery.SectionMarks | tools/run_asterinas_shared.py:26-35 | a printed section contains the marker at its two ends and nowhere else |
| ConsoleRecovery.SectionLines | tools/run_asterinas_shared.py:26-35 | the lines around a section's payload, letter by letter |
| ConsoleRecovery.CaseLines | tools/run_asterinas_shared.py:63-104 | the lines around a case, letter by letter |
| ConsoleRecovery.CaseIsFound | tools/run_asterinas_shared.py:337-363 | on the whole console the next block found is the next case printed |
| ConsoleRecovery.CutConsoleGivesCompleteCases | tools/run_asterinas_shared.py:56-106 | crash-prefix recovery: for every cut the blocks are exactly the cases whose end marker was printed, in order |
| ConsoleSections.SectionIsExtracted | tools/run_asterinas_shared.py:300-310 | every section of a body is cut out as its own payload, less edge newlines |
| ConsoleResults.ParseBatchCaseResults | tools/run_asterinas_shared.py:366-422 | one result for each request, field by field: without a block of its program the fallback status and detail, no exit code, output or events, and the whole console as log; else what the decoder makes of the sections of the last block; and an error only where a decoder raises |
| ConsoleResults.OneResultForEachCase | tools/run_asterinas_shared.py:366-422 | for every cut and distinct programs, field by field: the real payloads of the complete cases, unsupported exactly if a process that ended well had a call fail with ENOSYS or EOPNOTSUPP, and the fallback for the others |
| Text.FindIsFirst | tools/run_asterinas_shared.py:343-350 | find returns the least position, and -1 exactly if there is none |
| Text.StripCutsEdges | tools/run_asterinas_shared.py:310 | strip removes exactly the given characters at the edges |
| Text.BlanksByCodePoint | tools/prog2c_wrap.py:42 | the characters that strip without an argument removes, and those at which splitlines breaks a line, by code point |
| BundleCache.StepKeepsInv | targets/asterinas/cache_support.py:535-574 | every step of every process, container, crash and exception keeps the invariant of lock, stamp, metadata and bundle |
| BundleCache.CacheIsSafe | targets/asterinas/cache_support.py:535-574 | in every state of every run a ready stamp means complete metadata and the bundle of the finished build it describes, and one process at most is in the locked section |
| BundleCache.ReturnsMatchingBundle | targets/asterinas/cache_support.py:537-574 | a process about to return, after reuse or rebuild, has a bundle of the metadata it expects |
| BundleCache.ReuseOnlyMatching | targets/asterinas/cache_support.py:538-539 | past stamp and bundle file, the reuse branch is taken if and only if the bundle matches, and changes no file |
| BundleCache.TestsDecide | targets/asterinas/cache_support.py:538-540 | however many tests they take, they end in reuse exactly with the stamp, bundle.toml and a bundle of the expected metadata, and in a rebuild otherwise, and change nothing |
| BundleCache.ReusedIffReady | targets/asterinas/cache_support.py:538-540 | so reuse is reached if and only if all three are there, and a rebuild if and only if one is missing |
| BundleCache.NothingIsRebuilt | targets/asterinas/cache_support.py:535-574 | over whole runs, with callers that come, wait, raise and die: once a bundle is ready, and as long as all callers look for it, nobody deletes or rebuilds it |
| BundleCache.NormalReturnWarms | targets/asterinas/cache_support.py:573-574 | after the first normal return it is ready, exactly if the build wrote bundle.toml |
| BundleCache.RebuildSucceeds | targets/asterinas/cache_support.py:540-574 | without crash or failing command a rebuild comes to a normal return over the new bundle |
| BundleCache.WaitersAreNotStuck | targets/asterinas/cache_support.py:536 | a process waiting for the lock can get it, or its holder can go on |
| BatchScheduler.RunAll | orchestrator/scheduler.py:816-826 | for every completion order each item's slot holds its own result |
| BatchScheduler.ScheduleEntries | orchestrator/scheduler.py:907-922 | without batching the list is that of the sequential loop: settled results, failures of the run, and reports with reruns outside any package |
| BatchScheduler.CollectPending | orchestrator/scheduler.py:828-836 | settled cases have their result, the others are pending, in order |
| BatchScheduler.RunChunk | orchestrator/scheduler.py:840-903 | one chunk fills the slots of its own cases and touches no other: with a failing batch each case fails itself, and otherwise it is reported from the batch's directory and its own slot |
| BatchScheduler.ScheduleEntriesWithCandidateBatch | orchestrator/scheduler.py:810-904 | for every batch size, job count and completion order: one result for each entry, in order, depending on none of the orders |
| BatchScheduler.ChunksPartition | orchestrator/scheduler.py:839-840 | the chunks, one after the other, are the pending cases; none is empty, and all but the last have the batch size |
| BatchScheduler.ChunkOfCase | orchestrator/scheduler.py:839-840 | the case at place k of chunk c is number c times the batch size plus k |
| BatchScheduler.ReportedInItsChunk | orchestrator/scheduler.py:839-840 | each case is reported from its place in its chunk |
| BatchScheduler.EveryEntryIsReported | orchestrator/scheduler.py:810-904 | every entry has the result that settled it, or is reported as one case of one chunk, from its own result, directory and slot |
| BatchScheduler.FailingChunkIsIsolated | orchestrator/scheduler.py:855-863 | a batch that fails changes the results of its own cases only |
| BatchScheduler.BatchingRefinesTheLoop | orchestrator/scheduler.py:714-732 | if a batch gives each case what a run of its own would, and reruns in its package what reruns alone would, the list is that of the loop over single cases but for the package and slot that are written into the reports |
| VmPool.ConcurrencyLimiter.constructor | core/concurrency.py:14-18 | a limit of at least one |
| VmPool.ConcurrencyLimiter.Acquire | core/concurrency.py:20-21 | takes a permit if there is one; without one it fails, where it does not block for ever |
| VmPool.RunCase | orchestrator/vm_runner.py:27-33 | the permit comes back whether the case returns or raises; without a limiter the case just runs |
| VmPool.StepKeepsInv | orchestrator/vm_runner.py:885-903 | every action of every case, and every exception, keeps permits plus permits held equal to the limit |
| VmPool.PermitsAreConserved | core/concurrency.py:14-31 | so it is in every reachable state, however with-statements are nested and however many cases raise, and all permits are back at the end |
| VmPool.NotStuck | orchestrator/vm_runner.py:885-903 | with at most `most` nested with-statements no unfinished batch is stuck while workers times (most - 1) is below the limit |
| VmPool.SingleBracketsNeverStick | orchestrator/vm_runner.py:887-894 | with one with-statement for each case no run gets stuck, for any limit and any number of workers |
| VmPool.BatchesNeverStick | orchestrator/vm_runner.py:27-33 | every run of a batch of cases as the runner makes them, each with one run under the limiter between other work, can go on until all are finished, ends, and gives all permits back |
| VmPool.AcquiringTwiceSticks | orchestrator/vm_runner.py:887-889 | with two nested ones and at least as many workers as permits a batch can reach a state from which there is no step |
| VmPool.RunsEnd | orchestrator/vm_runner.py:896-903 | a run has at most as many steps as the cases have actions, and two for each case |
| Reducer.MapEventIndexToProgramCall | tools/reduce_case.py:49-62 | the number of program calls before the event, and none for the runtime's own calls or a missing index |
| Reducer.FirstEventDecides | tools/reduce_case.py:54-61 | the first event with the index decides: none for a runtime call, else the number of places before it with program calls |
| Reducer.NoEventNoCall | tools/reduce_case.py:54-62 | without an event of that index there is no call |
| Reducer.ConfirmDivergence | tools/reduce_case.py:511-542 | true exactly if three runs end with differing traces, with a record of the runs made |
| Reducer.RunTrial | tools/reduce_case.py:610-636 | a trial is kept exactly if four runs in a row end with differing traces and, with the overlay, the preflight passed and the first difference is at a call of the program |
| Reducer.GreedyReduce | tools/reduce_case.py:545-648 | ends; refuses exactly an unfit seed without recorded evidence; the history is of ever shorter parts of the seed, each shown to diverge in four runs, every confirmation that is returned is of differing traces, and for deterministic kernels the result is that of the rounds below |
| Reducer.RemoveIsSubsequence | cmd/syzabi_mutate/main.go:39-44 | a drop leaves a subsequence |
| Reducer.TriedFromAlias | tools/reduce_case.py:606-645 | every single drop of the result from the alias index on was tried and rejected |
| Reducer.MinimalWhenFileStays | tools/reduce_case.py:604-645 | if the last round did not overwrite the result's file early, the result is 1-minimal |
| Reducer.NoShorterProgramIsShown | tools/reduce_case.py:604-645 | for deterministic kernels and such a result no program with one call less can be shown to diverge |
| Reducer.OverwrittenFileMissesADrop | tools/reduce_case.py:608-609 | for every alias index strictly inside the program a seed whose result is not |
| Reducer.MinimalityCondition | tools/reduce_case.py:604-645 | so 1-minimality is certain if and only if the alias index is 0 or past the end |
| SplitArguments.SplitArgs | tools/prog2c_wrap.py:36-52 | the loop returns the stripped pieces between commas outside brackets |
| SplitArguments.PieceIff | tools/prog2c_wrap.py:40-49 | what a piece is, without the scanner: every comma inside brackets, and as many brackets opened as closed |
| SplitArguments.ScanIs | tools/prog2c_wrap.py:36-52 | after any body the scanner's depth is the number of brackets open, and no piece is begun exactly after a comma outside brackets or nothing at all |
| SplitArguments.PiecesRejoin | tools/prog2c_wrap.py:36-52 | of a balanced body with a last argument: balanced pieces without separating commas that rejoin to it |
| SplitArguments.NestedIffPiecesAre | tools/prog2c_wrap.py:36-52 | the brackets of a body match properly, in kind and order, if and only if those of every piece do |
| SplitArguments.TrailingCommaIsDropped | tools/prog2c_wrap.py:50-51 | otherwise only a last comma is lost |
| SplitArguments.SplitUndoesJoin | tools/prog2c_wrap.py:36-52 | splitting undoes joining |
| SplitArguments.CommasAreSplit | tools/prog2c_wrap.py:115-119 | a list written with a comma and a blank between its items is split into its items |
| Instrumenter.InjectHeader | tools/prog2c_wrap.py:62-69 | the include goes after the last include line, at the front without one |
| Instrumenter.FindCalls | tools/prog2c_wrap.py:74-103 | the scanner ends; its spans are in bounds, increasing and disjoint, each from a call at an identifier boundary over the matching parenthesis to a semicolon; and every raw call is in one of them, or in a call that is no statement |
| Instrumenter.ReplacementFor | tools/prog2c_wrap.py:108-119 | letter by letter: line beginning, traced_syscall with the name in quotes, number expression, index and six arguments padded with zeros; refused without or with too many arguments |
| Instrumenter.ArgumentsArePassedOn | tools/prog2c_wrap.py:108-119 | of a balanced body the traced call passes name, number and index, and then the call's own arguments in order, padded with zeros to six |
| Instrumenter.InstrumentSource | tools/prog2c_wrap.py:72-126 | succeeds exactly if all replacements exist and no raw call remains; the output is the source's gaps interleaved with replacements numbered 0 to n-1 |
| Instrumenter.NoCallIsMissed | tools/prog2c_wrap.py:72-126 | on success every raw call of the source lies in a replaced statement |
| Instrumenter.OneCallPerLine | tools/prog2c_wrap.py:97-98 | on success a line break separates any two replaced statements |
| Instrumenter.HasRawSyscall | tools/prog2c_wrap.py:124-125 | finds a raw call exactly if there is one |

## Left out

- FatRoundTrip.TreeComesBackIff: volumes with long-name entries that have no short entry; `OrphanRenames` says what becomes of the file after them.
- FatRoundTrip.TreeIsWrittenIff: the difference to an earlier sample, which is what is written when that sample is not empty.
- GuestState.StateIsLoaded: file names with quotes or backslashes in other places, for which the text is another object or none.
- FatSampler.SampleFatExternalState: the digest of a file's content; the model reports the content itself.
- ProbeBytes.DigestHex: outputs of 2^61 bytes or more, whose length in bits FIPS 180-4 does not provide for.
- TraceFrames.PersistedTraceEvents: the text in which the events are saved.
- TraceFrames.ExtractFramedEvents: JSON that the tracer never prints is an error in the model.
- VmPool.RunCase: other threads between entering and leaving, which the state machine beside it has.
- Instrumenter.FindCalls: letters outside ASCII before a call do not continue an identifier, as they do in the source.
- BundleCache.CacheIsSafe: a build that writes its bundle from another container than its own; the container's name is unique to the package.
- Instrumenter.HasRawSyscall: letters outside ASCII count as no part of an identifier; generated C has none.
- Json.RenderingIsRead: JSON escapes that the tracer never prints, exponents and white space.
- ConsoleRecovery.CutConsoleGivesCompleteCases: payloads that contain the marker themselves.
- Subprocesses, docker, qemu, git, terminals and sockets: effects on programs that cannot be seen from here.
- `ensure_packaged_initramfs`: its unlocked test can see a file that is still being written.
- Configuration, adapters, contracts between workflows and path resolution: field lookups.
- Summaries and rendered reports: formatting and counting.
- How the guest finds, sorts and hashes its files: inputs of the state text that it prints.
- The decoding of events and exit records on the batch console: functions of the section text, which may raise.
- syzkaller's own programs: a program is a sequence of calls, and a drop removes exactly one.
- `cleanup` of scratch files and the replay of recorded evidence in the reducer: a flag says whether evidence exists.

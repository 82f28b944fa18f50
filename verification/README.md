# Verified model of the printing agent

A Dafny model of the parts of the agent and of its build tools where a mistake would be hardest to
see: the Windows resource compiler and the tools that read its output, the session with the
backend, the thermal raster pipeline, the preparation of GDI bitmaps, the DLL closure, the choice
of a print pipeline, and log rotation. `dafny verify dfyconfig.toml` checks all of it.

Code that works by changing things is a method proved against a specification. What the repository
promises is then proved about the specification, over every input, every run or every reachable
state. Two kinds of specification recur: a *reader* written from the format and not from the writer
(a walker of resource trees, a parser of VS_VERSIONINFO, a COFF reader, an ESC/POS interpreter, a
DIB reader, a linker; for `.ico` files, read by the code, a writer), and a *definition* that knows nothing of the algorithm (between-class variance from
full sums, least closed set, mean of a box, log of observations).

## How it is organised

| file | what it holds |
|---|---|
| `Bytes`, `Numbers`, `Sorting` | little-endian fields and patches; places in a grid; sorting as some ordered permutation |
| `Rsrc`, `RsrcReader`, `Coff` | `buildRsrc` on an array against a plan of disjoint parts; the tree walk and binary search; the object, its relocations and symbol, and the linker |
| `Manifest` | `findManifest`, `setUTF8Manifest`, address translation; linked executables |
| `Icon`, `Version` | `.ico` files end to end; the recursive version block and its parser |
| `Agent`, `Store`, `Session`, `Lifecycle` | the state table, the job store, the session as a relation on worlds, and the class whose methods do what the relation allows |
| `SessionSafety`, `SessionReprint`, `SessionAnswers`, `SessionLedger`, `SessionStates`, `SessionWitness` | what every run keeps of job ids, when exactly a job is printed again, what each job is answered with, what every run keeps of result frames and of states, and runs that show what the session does not promise |
| `Mono`, `Atkinson`, `Otsu`, `EscPos` | bit packing and thresholds, error diffusion, Otsu's pass, the banded encoder and its interpreter |
| `Downscale`, `Dib` | box averages; 24-bit and 1-bit bitmaps and their reader |
| `Closure`, `Normalize`, `Resolver`, `Rotate` | the import worklist; profiles and pipelines; log rotation |

## Findings

* The reconnect delay is never set back to one second. `docs/protocol/websocket.md` (line 101) says
  it is on reaching CONNECTED, and speaks of jitter that does not exist; the model follows the code.
  A run that reaches CONNECTED and then waits two seconds is `SessionWitness.DelayKept`; the wait
  after a session is one second exactly if the process had not waited before
  (`SessionStates.DelayAfterSession`).
* Results are conserved within a process whatever fails (`SessionLedger.ProcessConserves`), and over
  a whole run at every moment exactly when each new process finds on disk the frames that were
  pending (`SessionLedger.ResultsConserved`). A write that fails before the process ends can lose a
  frame (`SessionWitness.FrameLost`) or send one twice (`SessionWitness.FrameRepeated`).
* Such a write can also print a job twice (`SessionWitness.PrintedTwice`). Over every run a job frame
  leads to a dispatch exactly if its id is not stored (`SessionReprint.DispatchedIff`), so an id is
  printed twice exactly when a frame for it arrives and prints after it was printed and while it is
  not stored (`SessionReprint.PrintedAgainIff`). Stored it is exactly if something stored it and
  nothing has lost it since, by pruning or by a restart without it in the file
  (`SessionReprint.StoredIff`); a restart keeps the printed ids exactly if the file holds them
  (`SessionReprint.RestartKeepsPrinted`).
* After a rejected authentication the deferred move from ERROR to DISCONNECTED is refused by the
  state table. It is the only refusal that can ever happen (`SessionStates.RunDisciplined`).
* OFFLINE is declared and never entered.
* `section` adds address and size in 32 bits, so a section that reaches the end of the address space
  contains nothing (`Manifest.ContainsIff`).
* `downscaleGray` reads the right pixels exactly for images whose corner lies at offset 0
  (`Downscale.UsedOffsetRight`, with two failing images in `Downscale.UsedOffsetWrong`), and its
  32-bit sum is right exactly for boxes whose sum fits 32 bits, which up to 16,843,009 pixels always
  do (`Downscale.MeanExact`); one white pixel more comes out black (`Downscale.WhiteBoxBlack`).
* A `GS v 0` band reads back exactly when its rows are shorter than 65536 bytes
  (`EscPos.BandReadBack`, `EscPos.WideRowLost`), and so does the whole output, for the rows left of
  every page (`EscPos.Encode`, with a page that fails in `EscPos.WidePageLost`).
* The version block reads back exactly when its size, 220 bytes and what the lengths of the texts
  add, is below 65536 and no text has a NUL in it (`Version.VersionResource`); a company name too
  long and one with a NUL in it are `Version.LongCompanyLost` and `Version.NulCompanyLost`.
* `docs/CORTE.md` (line 59) limits `cut_feed_dots` to 255; the code feeds up to 2000 dots in steps.
* Started without backups, the rotating log keeps everything, or at least half of what its backups
  can hold, however long the records are (`Rotate.HalfIsKept`): two neighbouring files it has filled
  never fit into one.

## Model

| member | source | states |
|---|---|---|
| Rsrc.BuildRsrc | tools/winres/coff.go:116-210 | Fails only on an empty list; otherwise every part of a plan for the sorted resources is in the buffer, every other byte is zero, and there is one relocation per data entry |
| Rsrc.GroupByType | tools/winres/coff.go:130-141 | Splits a list sorted by type and id into maximal runs of one type, in order |
| Rsrc.Measure | tools/winres/coff.go:143-156 | The sizes summed in advance are the positions the plan gives: data entries, data, end of section |
| Rsrc.WriteTypes | tools/winres/coff.go:162-176 | Fills in the root directory and the heads of the name directories and leaves everything else zero |
| Rsrc.WriteNames | tools/winres/coff.go:177-189 | Fills in the name entries; the moving cursor puts language directory j where the plan has it |
| Rsrc.WriteLeaves | tools/winres/coff.go:191-208 | Completes the layout with language directories, data entries and blobs, and lists the offset of every data entry |
| Rsrc.Plan.Disjoint | tools/winres/coff.go:143-208 | No two parts of the section overlap: heads, entries, language directories, data entries, blobs |
| Rsrc.Plan.InBounds | tools/winres/coff.go:150-156 | Every part ends inside the size computed beforehand |
| Rsrc.AlignFirst | tools/winres/coff.go:212-217 | The aligned position is a multiple, and the first one from n on |
| Rsrc.BlobAligned | tools/winres/coff.go:150-156 | The bytes of every resource start at a multiple of eight, the first one behind those of the resource before |
| RsrcReader.WalkGivesInput | tools/winres/coff.go:116-210 | Walking type, id, language, data entry in the bytes returns exactly the input sorted by type and id |
| RsrcReader.LookupFinds | tools/winres/coff.go:116-129 | Binary search through the directories finds a resource for a key exactly when the input has one, with its data |
| RsrcReader.LookupGives | tools/winres/coff.go:116-129 | Every resource of an input with distinct keys is found under its key with its own bytes |
| RsrcReader.SearchFinds | tools/winres/coff.go:124-129 | Binary search in a directory of strictly ascending ids finds an id if and only if it is there |
| RsrcReader.SortedStrict | tools/winres/coff.go:122-129 | Sorting distinct keys leaves them strictly ascending, whatever the sort does with ties |
| Coff.WriteCOFF | tools/winres/coff.go:46-112 | Succeeds exactly for a known architecture and 1 to 65535 resources; the bytes are headers, section, relocations, symbol; and reading the object, linking it at any address and walking the section there gives the resources sorted, as long as object and section stay below 4 GiB |
| Coff.ObjectRead | tools/winres/coff.go:62-111 | A reader of the object finds the machine, no time stamp, one readable section of initialised data named .rsrc, one relocation of the right kind per data entry, and through the pointer and count of the header the one symbol, static, at the start of section 1 |
| Coff.LinkIsRelocate | tools/winres/coff.go:88-109 | A linker that looks up the symbol each relocation names, its section and the kind of the relocation for that machine, and fails on anything else, resolves them all, to the address of the section |
| Coff.LinkedLaidOut | tools/winres/coff.go:88-95 | Adding the section's address at every relocated offset turns the layout for address 0 into the layout for that address, and nothing else changes |
| Coff.GuardFits | tools/winres/coff.go:55-60 | The guard on the number of resources keeps every count and directory offset within its field; only the size of the section remains as a condition |
| Coff.ObjectGivesInput | tools/winres/coff.go:46-112 | Compile, read the object, link it at any address through its symbol, walk: the resources come back whole and sorted |
| Manifest.SectionOf | tools/popplerbundle/pe.go:92-103 | The section returned contains the address, and none is returned only if none does |
| Manifest.ContainsIff | tools/popplerbundle/pe.go:94-98 | A section contains what its size in the file or in memory covers, and nothing if that reaches beyond 32 bits |
| Manifest.FindChild | tools/popplerbundle/manifest.go:104-124 | The scanning loop stops at the first entry with the wanted id |
| Manifest.FindManifest | tools/popplerbundle/manifest.go:75-156 | Success and result as the chain type 24, first name, first language, data entry gives them, with every bounds check |
| Manifest.PathLocated | tools/popplerbundle/manifest.go:75-156 | In a well-formed file the entry position, data position and size are those of the path through the three directories |
| Manifest.SetUtf8Manifest | tools/popplerbundle/manifest.go:41-70 | Already done exactly if the manifest contains the code page tag and the UTF-8 tag; replaced exactly if it declares no code page, is a manifest and has room; otherwise an error with every byte unchanged. On success the manifest found in the file afterwards declares UTF-8, for a replaced one under the condition of `Manifest.PatchedFound` |
| Manifest.ContainsBytes | tools/popplerbundle/manifest.go:50-57 | True exactly when the bytes occur |
| Manifest.OccursIff | tools/popplerbundle/manifest.go:50-57 | Bytes occur exactly when the rest can be split before and behind them |
| Manifest.ReplacedBytes | tools/popplerbundle/manifest.go:63-68 | Wherever entry and data lie: same length, new size field, every byte outside the manifest and its size field kept, zeros behind the new manifest, and the manifest at its place unless the size field, written last, lies in it |
| Manifest.PatchedPath | tools/popplerbundle/manifest.go:63-69 | In a file with whole directories whose directories, data entry and data do not overlap, the patched file is such a file again, with the new manifest |
| Manifest.PatchedFound | tools/popplerbundle/manifest.go:63-69 | In any file whose manifest does not lie in what is read on the way to it or in its size field, the patched file has the manifest found at the same place, whole and with its new size |
| Manifest.PatchableReplaceable | tools/popplerbundle/manifest.go:75-156 | Files whose parts do not overlap meet that condition |
| Manifest.PatchedIsUtf8 | tools/popplerbundle/manifest.go:51-54 | In such a file the patched manifest declares UTF-8, so the tool is idempotent: run again on its own output it finds it and changes nothing |
| Manifest.LinkedOnPath | tools/popplerbundle/manifest.go:75-156 | In an executable linked from the compiler's section, at any address and file offset, the reader finds the first manifest, its data entry and its original bytes |
| Manifest.LinkedWithoutManifest | tools/popplerbundle/manifest.go:131-140 | An executable linked without a manifest has none to find |
| Icon.ParseICO | tools/winres/icon.go:52-85 | Accepts exactly the files whose header, directory and images are in bounds, and returns image i as entry i |
| Icon.AcceptedIff | tools/winres/icon.go:52-80 | Accepted are exactly the files of type 1 whose directory is whole and not empty and whose images are not empty and inside the file |
| Icon.IcoRead | tools/winres/icon.go:52-85 | A file written as the format says, with 1 to 65535 images none of them empty, is accepted and its entries are the images written |
| Icon.IconResources | tools/winres/icon.go:22-48 | One icon resource per image with ids from 1, and a group that describes each image and names its id |
| Icon.GroupListsAll | tools/winres/icon.go:33-46 | The group read field by field: count, sizes, lengths and ids of all images |
| Icon.IconsEndToEnd | tools/winres/icon.go:22-85 | Reading the group from the built section and following entry i by binary search yields the bytes of image i of the file, with the declared length |
| Icon.RunDistinct | tools/winres/icon.go:22-48 | The keys of the icon resources never collide with one another or with resources of other types |
| Version.SerializeNode | tools/winres/version.go:92-116 | The recursive buffer with back-patched length is the node's bytes as laid out |
| Version.NodeAligned | tools/winres/version.go:92-122 | Every node is a multiple of four bytes long |
| Version.NodeParsed | tools/winres/version.go:92-116 | At any aligned position of any buffer the parser recovers the whole tree and stops where its bytes end |
| Version.SizeIs | tools/winres/version.go:92-116 | The length of the bytes follows from the lengths of key, value and children, with their padding |
| Version.RoundTrip | tools/winres/version.go:92-133 | Parsing undoes serialising if and only if keys are NUL-free, text values even and the size, computed from lengths, below 65536 |
| Version.NulKeyLost | tools/winres/version.go:126-133 | A node whose key is one NUL does not parse back |
| Version.LongValueLost | tools/winres/version.go:114-114 | A node with a value of 65536 bytes does not parse back |
| Version.ParsedWellFormed | tools/winres/version.go:92-116 | Whatever the parser returns has NUL-free keys and even text |
| Version.FixedRead | tools/winres/version.go:31-46 | A reader of VS_FIXEDFILEINFO finds signature and structure version, the four numbers in their order as file and as product version, VOS_NT_WINDOWS32, VFT_APP, no flags and no date |
| Version.TableRead | tools/winres/version.go:51-65 | A reader of the string table finds every non-empty text under its name, in order, exactly when no text has a NUL in it |
| Version.TextsShow | tools/winres/version.go:51-65 | Under each of the seven names stands the text meant for it, or nothing if that text is empty |
| Version.VersionSizeIs | tools/winres/version.go:47-81 | The block is 220 bytes long and as much longer as the lengths of the non-empty texts and their names make it |
| Version.VersionResource | tools/winres/version.go:25-81 | A reader of the whole block, which goes by the keys and takes the string table that the translation names, finds the numbers, language 0409, code page 04B0 and each text under its name if and only if that size is below 65536 and no text has a NUL in it; the tree parses back if and only if the size is below 65536 |
| Version.LongCompanyLost | tools/winres/version.go:114-114 | A company name of 32768 units does not come back |
| Version.NulCompanyLost | tools/winres/version.go:126-133 | A company name with a NUL in it does not come back |
| Agent.Machine.Subscribe | internal/domain/agent/state.go:97-101 | Appends the observer |
| Agent.Machine.Transition | internal/domain/agent/state.go:105-121 | Moves along a declared edge and tells every observer once, in order, with both states; or stays, tells nobody and reports the refusal |
| Agent.TableShape | internal/domain/agent/state.go:28-46 | The table read by targets: which states lead to CONNECTED, CONNECTING, RECONNECTING, ERROR and so on; SHUTTING_DOWN is reached from everywhere and left by nothing; ERROR does not lead to DISCONNECTED |
| Store.JobStore.constructor | internal/adapters/store/filestore.go:34-41 | A new store is what the file holds |
| Store.JobStore.Seen | internal/adapters/store/filestore.go:43-48 | Whether the id is stored |
| Store.JobStore.MarkDone | internal/adapters/store/filestore.go:50-56 | The new map is the old one with the id marked, less victims that may be dropped; pending kept; the disk follows if the write succeeds |
| Store.JobStore.Prune | internal/adapters/store/filestore.go:75-91 | Drops just enough ids to come down to 2000, none of them newer than one that stays, and changes no entry |
| Store.JobStore.AddPending | internal/adapters/store/filestore.go:58-63 | Appends the frame |
| Store.JobStore.TakePending | internal/adapters/store/filestore.go:65-73 | Returns all pending frames in order and empties the buffer |
| Store.DroppedSize | internal/adapters/store/filestore.go:75-91 | After a prune exactly 2000 ids remain if there were more, and all of them otherwise, with their times, and none that went is newer than one that stays |
| Store.MarkedSurvives | internal/adapters/store/filestore.go:50-56 | The id just marked survives whenever at least as many strictly older ids are stored as have to go |
| Store.OldestMayGo | internal/adapters/store/filestore.go:79-90 | The first ids of the list sorted by time are ones that may be dropped, however ties are ordered |
| Lifecycle.Lifecycle.SetState | internal/app/lifecycle/lifecycle.go:353-357 | A refused transition is recorded and otherwise ignored |
| Lifecycle.Lifecycle.EmitResult | internal/app/lifecycle/lifecycle.go:315-323 | The frame is delivered, or appended to the pending ones |
| Lifecycle.Lifecycle.HandleJob | internal/app/lifecycle/lifecycle.go:282-311 | The receipt goes out first, whether it arrives or not; a known id is confirmed without dispatch; otherwise one dispatch, marked done only on success, and one result, the failure after a failed dispatch and the completion after a successful one |
| Lifecycle.Lifecycle.FlushPending | internal/app/lifecycle/lifecycle.go:123-137 | Sends in order; from the first failure on the rest is pending again, in order |
| Lifecycle.Lifecycle.Serve | internal/app/lifecycle/lifecycle.go:221-280 | Frames are handled one by one, in order |
| Lifecycle.Lifecycle.Authenticate | internal/app/lifecycle/lifecycle.go:139-187 | Succeeds exactly on acceptance; a rejection leaves the machine in ERROR |
| Lifecycle.Lifecycle.RunOnce | internal/app/lifecycle/lifecycle.go:99-120 | One attempt of the session relation, with the deferred move to DISCONNECTED |
| Lifecycle.Lifecycle.Run | internal/app/lifecycle/lifecycle.go:76-97 | The loop takes the process through a run of the session relation, attempt by attempt, until it is cancelled or killed |
| Session.RunKeeps | internal/app/lifecycle/lifecycle.go:76-137 | Whatever every move, job, flush and restart keeps holds after every run |
| SessionSafety.AtMostOnceUntilForgotten | internal/app/lifecycle/lifecycle.go:282-311 | Over any run of failures, duplicates, reconnects and restarts in which writes to disk may fail: between a successful dispatch of an id and any other dispatch of it the store has lost the id |
| SessionSafety.AtMostOnce | internal/app/lifecycle/lifecycle.go:282-311 | If at most 2000 distinct ids are ever printed or stored and every restart finds on disk the ids of the process before, every id is dispatched successfully at most once in the whole run, whatever else fails; the exact condition for one id is `SessionReprint.PrintedAgainIff` |
| SessionSafety.SavedMarksSurvive | internal/adapters/store/filestore.go:50-56 | For the ids to survive it is enough that the write after marking each printed job succeeds |
| SessionReprint.DispatchedIff | internal/app/lifecycle/lifecycle.go:282-311 | Over any run, whatever fails: a job frame leads to a dispatch of its id if and only if the id is not stored, where what is stored is told from the log and is what the memory holds |
| SessionReprint.StoredIff | internal/adapters/store/filestore.go:43-109 | An id is stored exactly if it was printed or was in a file loaded, and since then neither pruned nor missing from a file loaded later |
| SessionReprint.PrintedAgainIff | internal/app/lifecycle/lifecycle.go:282-311 | Over any run, whatever fails: an id is printed twice if and only if a frame for it arrives and prints after it was printed and while it is not stored |
| SessionReprint.RestartKeepsPrinted | internal/adapters/store/filestore.go:93-109 | After any run a restart keeps each printed and stored id stored if and only if the file holds it |
| SessionSafety.JobKeepsDedupe | internal/app/lifecycle/lifecycle.go:282-311 | One job frame keeps the invariant that every printed id is stored or was lost since |
| SessionLedger.ProcessConserves | internal/app/lifecycle/lifecycle.go:315-323 | Over any run, disk writes failing or not: within the running process the frames loaded and buffered are the flushed ones followed by the pending ones, in order, and every result of the run was delivered or buffered once |
| SessionLedger.ResultsConserved | internal/app/lifecycle/lifecycle.go:123-137 | Over any run: frames once buffered are the flushed ones followed by the pending ones, in order and at every moment, if and only if every new process finds on disk the frames that were pending |
| SessionLedger.RestartBalances | internal/adapters/store/filestore.go:93-109 | A restart keeps that ledger balanced exactly when the file holds what is pending |
| SessionLedger.FramesAddUp | internal/app/lifecycle/lifecycle.go:315-323 | Over any run, as multisets: frames of the file, results and frames loaded at restarts are the delivered, flushed, pending and dropped ones; results and deliveries add up exactly when loaded and dropped agree |
| SessionLedger.SavedFramesSurvive | internal/adapters/store/filestore.go:58-72 | For the frames to survive it is enough that the writes of a flush and the one after each buffered result succeed |
| SessionLedger.FlushConserves | internal/app/lifecycle/lifecycle.go:123-137 | A flush, wherever it stops and whatever writes fail, loses, doubles and reorders nothing |
| SessionLedger.EveryJobAnswered | internal/app/lifecycle/lifecycle.go:282-311 | Over any run, whatever fails, the results are one per job frame served, in order |
| SessionAnswers.EveryJobTold | internal/app/lifecycle/lifecycle.go:282-323 | Over any run, whatever fails, the log tells of exactly the jobs served, in order: the receipt with its outcome, the dispatch with its outcome if there is one, the result, completed or failed, and whether it went out or into the buffer |
| SessionAnswers.ResultTells | internal/app/lifecycle/lifecycle.go:282-311 | Over any run, whatever fails: after a job frame the next result is the failure of that job if and only if a failed dispatch of it follows the frame, and its completion if and only if it was printed or not dispatched |
| SessionAnswers.JobStores | internal/app/lifecycle/lifecycle.go:282-323 | What one frame leaves: a newly printed id stored with its time, less what the store drops, and otherwise the same ids; a result that was not sent pending behind the others; on disk what the last successful write wrote |
| SessionAnswers.FlushStores | internal/app/lifecycle/lifecycle.go:123-137 | What a flush leaves on disk: the frames put back up to the last write that succeeded, or what was there if none did |
| SessionWitness.FrameLost | internal/adapters/store/filestore.go:110-124 | A run in which a write fails, the process ends, and the only result is neither delivered nor flushed nor pending |
| SessionWitness.FrameRepeated | internal/adapters/store/filestore.go:65-72 | A run in which emptying the buffer is not written and the next process sends the frame again |
| SessionWitness.PrintedTwice | internal/adapters/store/filestore.go:50-56 | A run in which marking a job is not written and the next process prints it again |
| SessionStates.RunDisciplined | internal/app/lifecycle/lifecycle.go:76-187 | Over any run: only declared edges, never OFFLINE, CONNECTED only straight through AUTHENTICATING and REGISTERING, the one refusal after a rejected authentication, dispatch and flush only in CONNECTED, nothing after SHUTTING_DOWN, and the n-th wait is min(60, 2^n) seconds |
| SessionStates.AttemptTracks | internal/app/lifecycle/lifecycle.go:99-120 | One attempt from rest keeps that discipline and ends in one of the states reconnecting can leave |
| SessionStates.AttemptSays | internal/app/lifecycle/lifecycle.go:99-187 | An attempt that fails makes exactly the moves as far as it got and touches neither ids nor frames; one that comes up makes all four moves to CONNECTED first |
| SessionStates.StepSays | internal/app/lifecycle/lifecycle.go:76-97 | After an attempt: RECONNECTING and the wait, or SHUTTING_DOWN if cancelled before or during it, or nothing if killed |
| SessionStates.BackoffNotReset | internal/app/lifecycle/lifecycle.go:76-97 | The next delay depends on the number of waits of the process alone |
| SessionStates.DelayAfterSession | internal/app/lifecycle/lifecycle.go:76-97 | After an attempt that came through to CONNECTED the process waits as long as it would have without, and one second if and only if it had not waited before |
| SessionWitness.DelayKept | docs/protocol/websocket.md:101-101 | A run that reaches CONNECTED and waits two seconds next |
| SessionStates.NextWait | internal/app/lifecycle/lifecycle.go:93-95 | Doubling with the cap takes the n-th wait to the next |
| Mono.Pack | internal/adapters/printing/binarizer/binarizer.go:30-43 | Dot x, y is black exactly when the pixel is; padding bits are white |
| Mono.Threshold | internal/adapters/printing/binarizer/threshold.go:18-21 | Black exactly below the level |
| Mono.PaintsOne | internal/domain/printing/artifact.go:40-50 | A bitmap is determined by its dots |
| Mono.SetBitSets | internal/adapters/printing/binarizer/binarizer.go:36-40 | Setting the bit of column k sets column k and no other, most significant bit leftmost |
| Mono.BitWorth | internal/adapters/printing/binarizer/binarizer.go:28-38 | Column k of a byte counts 0x80 shifted right by k; setting it adds that if it is not there |
| Atkinson.Binarize | internal/adapters/printing/binarizer/atkinson.go:24-60 | A dot is black exactly if the value that the buffer holds for its pixel when its turn comes is below 128, the buffer being the one that scattering leads to; that value is also the one gathered from the pixels before |
| Atkinson.SpreadError | internal/adapters/printing/binarizer/atkinson.go:43-56 | The buffer after the loop is the one before with the share added at the six neighbours inside; it holds, for every pixel, its gray value and the shares received so far |
| Atkinson.BufferStep | internal/adapters/printing/binarizer/atkinson.go:38-56 | From the turn of a pixel to the next, exactly the places (x+1,y), (x+2,y), (x-1,y+1), (x,y+1), (x+1,y+1), (x,y+2) inside gain an eighth of the difference between its value and the level printed |
| Atkinson.BufferStart | internal/adapters/printing/binarizer/atkinson.go:29-38 | The buffer starts with the gray values, and a row with what the row above leaves |
| Atkinson.ErrorConserved | internal/adapters/printing/binarizer/atkinson.go:47-54 | The sum of the buffer changes by an eighth of the error for each neighbour inside, so by six eighths away from the edges |
| Atkinson.BufferHolds | internal/adapters/printing/binarizer/atkinson.go:36-56 | Scattering forward and gathering backward give the same values at every moment |
| Atkinson.WorthBounded | internal/adapters/printing/binarizer/atkinson.go:24-60 | For every image, every quantised value lies between -96 and 351 |
| Atkinson.ShareBounded | internal/adapters/printing/binarizer/atkinson.go:43-50 | Every contribution to a neighbour is at most 16 in size |
| Atkinson.QuantisationError | internal/adapters/printing/binarizer/atkinson.go:36-44 | The quantisation error is at most 128 |
| Atkinson.BufferBounded | internal/adapters/printing/binarizer/atkinson.go:24-60 | At every moment every entry of the buffer lies between -96 and 351 |
| Atkinson.ProcessedStays | internal/adapters/printing/binarizer/atkinson.go:46-56 | No later step touches a pixel that had its turn |
| Atkinson.BilevelIsThreshold | internal/adapters/printing/binarizer/atkinson.go:24-60 | An image of 0 and 255 only comes out equal to the fixed threshold 128 |
| Otsu.Scan | internal/adapters/printing/binarizer/otsu.go:56-86 | The running weights and sums find the least and greatest level of maximal variance |
| Otsu.OtsuThreshold | internal/adapters/printing/binarizer/otsu.go:38-86 | The midpoint of the least and greatest level that maximise between-class variance as defined on the pixels, or 128 if no level splits them |
| Otsu.OneLevel | internal/adapters/printing/binarizer/otsu.go:38-86 | The pixels determine the level |
| Otsu.Binarize | internal/adapters/printing/binarizer/otsu.go:25-36 | Black exactly at or below the biased, clamped level |
| Otsu.LevelIsBest | internal/adapters/printing/binarizer/otsu.go:81-86 | When the best levels are contiguous the level is one of them |
| Otsu.TwoValuedSeparated | internal/adapters/printing/binarizer/otsu.go:25-86 | On an image of two values the level is half way between them, and the unbiased result prints the darker black and the lighter white |
| Otsu.VarianceDecomposes | internal/adapters/printing/binarizer/otsu.go:74-76 | The variance of a split is the number of pixels times the squared deviations from the overall mean, less that number times those from the two class means |
| Otsu.BestIsTightest | internal/adapters/printing/binarizer/otsu.go:74-84 | So a level has a greater variance between the classes exactly if it leaves less spread within them |
| Otsu.UniformLevel | internal/adapters/printing/binarizer/otsu.go:65-86 | No level splits the pixels exactly if they are all alike, and then the level is 128 |
| EscPos.Encode | internal/adapters/printing/encoder/escpos/raster.go:85-115 | For all pages: an interpreter consumes the whole output (reset, the remaining rows of every page in bands, drawer, clamped feed in steps of 1 to 255, cut) if every page with rows left has them shorter than 65536 bytes, and otherwise does not even read the pages; what it prints starts with the blank rows of the first page or, if they are more, with the margin, 16 unless the option is positive; anything but a raster is an error |
| EscPos.TrimTrailingBlank | internal/adapters/printing/encoder/escpos/raster.go:147-167 | Removes exactly the blank rows at the bottom |
| EscPos.TrimLeadingBlankTo | internal/adapters/printing/encoder/escpos/raster.go:120-144 | Of the blank rows at the top exactly the smaller of their number and keep stay; the result is the rest of the bitmap and only blank rows are removed |
| EscPos.TopMargin | internal/adapters/printing/encoder/escpos/raster.go:97-99 | The rows printed start with exactly the smaller of the blank rows of the first page and the margin, and then ink |
| EscPos.PageKept | internal/adapters/printing/encoder/escpos/raster.go:91-102 | Nothing of a blank page is printed; the rows of any other page end with ink and start with its own blank rows, on the first page no more of them than the margin |
| EscPos.WriteRaster | internal/adapters/printing/encoder/escpos/raster.go:170-184 | Appends bands that print the rows of the bitmap if there are none or they are shorter than 65536 bytes, and are misread otherwise |
| EscPos.Bands | internal/adapters/printing/encoder/escpos/raster.go:170-184 | Each band has 128 rows but the last, which has 1 to 128, and together they print all the rows |
| EscPos.EscJFeed | internal/adapters/printing/encoder/escpos/raster.go:49-66 | The feeds have operands from 1 to 255 and add up to the distance: 232 if it is not positive, at most 2000 |
| EscPos.BandsPrintAll | internal/adapters/printing/encoder/escpos/raster.go:85-115 | The printed rows of the output are the trimmed pages one after the other |
| EscPos.InkKept | internal/adapters/printing/encoder/escpos/raster.go:85-167 | Every black dot keeps its column and moves up by the rows removed above it; what is removed had no ink |
| EscPos.BandReadBack | internal/adapters/printing/encoder/escpos/raster.go:170-184 | A band is read back if and only if its row length fits the two bytes it has |
| EscPos.WideRowLost | internal/adapters/printing/encoder/escpos/raster.go:178-178 | A band of one row of 65536 bytes with one black dot is not read back |
| EscPos.OneRowPage | internal/adapters/printing/encoder/escpos/raster.go:85-115 | A page of one row that is not blank keeps it when trimmed, and is printable exactly if the row is shorter than 65536 bytes |
| EscPos.WidePageLost | internal/adapters/printing/encoder/escpos/raster.go:85-115 | The page of that wide row is valid, has ink and is not printable |
| Downscale.UsedOffsetRight | internal/adapters/printing/driver/gdi/raster_prep.go:111-131 | The offset used for a pixel is its own if and only if the corner of the image has offset 0 |
| Downscale.UsedOffsetWrong | internal/adapters/printing/driver/gdi/raster_prep.go:121-123 | An image of which the code reads the wrong pixel, and one on which it fails |
| Downscale.SeenAsIs | internal/adapters/printing/driver/gdi/raster_prep.go:111-131 | An image whose corner has offset 0 is read without failing and as it is |
| Downscale.SpanInside | internal/adapters/printing/driver/gdi/raster_prep.go:159-166 | Every span is non-empty and inside the source, whether the axis shrinks or grows |
| Downscale.SpanStretched | internal/adapters/printing/driver/gdi/raster_prep.go:159-166 | When the axis does not shrink, a span is the one source pixel at the same relative place |
| Downscale.SpanTiles | internal/adapters/printing/driver/gdi/raster_prep.go:159-166 | When the axis shrinks, spans start at 0, follow one another and end at the end |
| Downscale.OneSpan | internal/adapters/printing/driver/gdi/raster_prep.go:159-166 | Every source pixel falls into exactly one span |
| Downscale.DownscaleGray | internal/adapters/printing/driver/gdi/raster_prep.go:111-131 | Fails exactly when the image, moved by the offset of its corner, does not lie in the buffer; otherwise every target pixel holds the average of its box in the image so moved, the boxes being in bounds |
| Downscale.MeanExact | internal/adapters/printing/driver/gdi/raster_prep.go:118-128 | The value of a box is the floor of its mean if and only if its sum fits 32 bits, which small boxes do |
| Downscale.WhiteBoxBlack | internal/adapters/printing/driver/gdi/raster_prep.go:118-128 | A white row of 16,843,010 pixels has mean 255 and value 0 |
| Downscale.SmallBoxesFit | internal/adapters/printing/driver/gdi/raster_prep.go:118-128 | If no box has more than 16,843,009 pixels every sum fits 32 bits |
| Downscale.InkConserved | internal/adapters/printing/driver/gdi/raster_prep.go:111-131 | The area-weighted sum of the target misses the sum of the source by less than one level per source pixel, never exceeding it |
| Dib.BandFromGray | internal/adapters/printing/driver/gdi/dib.go:56-73 | The fast path builds the bottom-up band of the gray pixels, padding zero; a reader finds each byte of the image three times at its place, and the header says how many bytes there are |
| Dib.BandFromAny | internal/adapters/printing/driver/gdi/dib.go:75-91 | The generic path builds the bottom-up band; a reader finds the high byte of every channel of every pixel at its place |
| Dib.BandShows | internal/adapters/printing/driver/gdi/dib.go:93-105 | A reader that honours the sign of the height finds every pixel of the band at its place |
| Dib.BandOne | internal/adapters/printing/driver/gdi/dib.go:56-91 | A band is determined by its pixels, padding included |
| Dib.FastPathAgrees | internal/adapters/printing/driver/gdi/dib.go:45-91 | On every gray image the fast path and the generic path build the same bytes |
| Dib.StridesAgree | internal/adapters/printing/driver/gdi/raster_prep.go:44-45 | Both strides are the row length GDI prescribes for their number of bits per pixel |
| Dib.PackMono1bpp | internal/adapters/printing/driver/gdi/raster_prep.go:269-289 | The dots of every row are copied and the padding is white; a reader that looks the bits up in the colour table sees black dots on white |
| Dib.MonoShows | internal/adapters/printing/driver/gdi/raster_prep.go:269-289 | A reader of the top-down 1-bit bitmap and its colour table sees the dots of the bitmap it was made from, black on white |
| Closure.ComputeClosure | tools/popplerbundle/closure.go:26-50 | Returns exactly the files of the keys in every set that contains the roots and is closed under imports, sorted, one for each key, so without duplicates if no file stands under two keys; fails exactly when a reachable file cannot be read; terminates on cycles |
| Closure.Take | tools/popplerbundle/closure.go:37-42 | Taking a file and queueing its imports keeps the invariant of the worklist |
| Closure.Finished | tools/popplerbundle/closure.go:26-43 | When the queue is empty the files taken are closed under imports, and they are the least such set |
| Closure.Bundled | tools/popplerbundle/closure.go:29-43 | The least closed set has only files of the bundle that Windows does not provide, all such files among the roots, and all such files that a readable file of the set imports |
| Closure.ProvidedByKey | tools/popplerbundle/closure.go:13-16 | Whether a DLL belongs to Windows does not depend on the case of its name |
| Closure.ProvidedIff | tools/popplerbundle/closure.go:13-16 | Windows provides exactly ucrtbase.dll and the names that start with api-ms-win- or ext-ms-, in any case |
| Closure.LowerOnly | tools/popplerbundle/closure.go:32-32 | The key of a name is the one name without capitals that agrees with it letter by letter |
| Closure.SameKeyIff | tools/popplerbundle/closure.go:32-32 | Two names have the same key exactly when they agree letter by letter up to case |
| Closure.NameLeIff | tools/popplerbundle/closure.go:48-48 | The order of the result: a name comes before another if it starts it or is smaller where they first differ |
| Closure.LowerKeysOneEach | tools/popplerbundle/main.go:50-55 | When every file stands under its own name in lower case, as the caller puts it, no file stands under two keys |
| Normalize.NormalizeForGDIRaster | internal/adapters/printing/platform/normalize.go:100-130 | The loop with its seen map computes the image profile |
| Normalize.NormalizeForWindows | internal/adapters/printing/platform/normalize.go:41-58 | The profile for a mode: pdf right before every gdi-raster unless the mode is image |
| Normalize.PriorityKept | internal/adapters/printing/platform/normalize.go:87-98 | Exactly the formats named remain, a pdf counting as gdi-raster, each once, in the order in which they are first named |
| Normalize.PdfBeforeRaster | internal/adapters/printing/platform/normalize.go:46-56 | pdf stands only right before gdi-raster, always does, and without it the formats are those of the image mode |
| Normalize.Absorbs | internal/adapters/printing/platform/normalize.go:41-58 | Normalising a normalised profile for any mode is normalising the original for that mode |
| Normalize.OnlyRaised | internal/adapters/printing/platform/normalize.go:121-128 | Resolution is never lowered, changes only for page printers and only to the minimum, and nothing but formats and resolution changes |
| Normalize.OtherPrintersKept | internal/adapters/printing/platform/normalize.go:39-40 | A profile without page formats or duplicates is untouched |
| Resolver.DriverFor | internal/app/print/resolver.go:88-95 | The first driver that accepts the format, or none if none does |
| Resolver.FindChain | internal/app/print/resolver.go:58-69 | The first encoder for the target with its first renderer for the source, if there is such a pair |
| Resolver.Resolve | internal/app/print/resolver.go:32-86 | The pipeline of the first format that can be served; otherwise a reason for every format, and each reason is true |
| Resolver.OnePipeline | internal/app/print/resolver.go:41-80 | Registries, source and formats determine the pipeline |
| Resolver.VectorIsImage | internal/adapters/printing/platform/normalize.go:32-36 | Without a driver for pdf, both modes resolve every source on every profile to the same pipeline, or fail together |
| Resolver.VectorPrintsPdf | internal/app/print/resolver.go:50-56 | With a driver for pdf, a pdf for a pdf printer goes untouched to the first such driver |
| Resolver.PassesThroughIff | internal/app/print/resolver.go:50-68 | The driver of a pipeline takes the format chosen; the source passes through exactly if it is that format (pdf, png, escpos, zpl), and otherwise renderer and encoder lead from the source to it |
| Resolver.LaterEncoder | internal/app/print/resolver.go:58-69 | One more encoder at the end of the registry never changes a chain that was found |
| Rotate.RotatingWriter.constructor | internal/adapters/logger/rotate.go:22-41 | Defaults for size and backups; opened on what the directory holds |
| Rotate.OpenedKeeps | internal/adapters/logger/rotate.go:43-54 | Opening creates the current file if there is none and loses nothing of any file |
| Rotate.RotatingWriter.Write | internal/adapters/logger/rotate.go:56-65 | The directory after the write, and a tracked size equal to the length of the current file |
| Rotate.RotatingWriter.RotateFiles | internal/adapters/logger/rotate.go:81-93 | Renaming from the last backup down moves every file one place up, gaps kept, and leaves an empty current file |
| Rotate.IsShift | internal/adapters/logger/rotate.go:87-92 | A directory with every file one place up, and the others untouched, is the rotated one |
| Rotate.WriteDrops | internal/adapters/logger/rotate.go:56-65 | A write drops nothing, or exactly the oldest backup |
| Rotate.LogIsSuffix | internal/adapters/logger/rotate.go:56-93 | After any writes, backups from oldest to newest and the current file are a suffix of what was there and what was written |
| Rotate.HalfIsKept | internal/adapters/logger/rotate.go:56-93 | Started without backups, nothing is lost or at least half of what the backups can hold is kept |
| Rotate.FilesStayWithin | internal/adapters/logger/rotate.go:56-65 | No file exceeds the largest of maxSize, the records and the files that were there |
| Rotate.OthersStay | internal/adapters/logger/rotate.go:87-92 | Files with numbers above the last backup are never touched |

## Left out

- Rsrc.BuildRsrc: `sort.Slice` is any permutation in order, so the order of resources with equal keys is left open, as it is in the code.
- RsrcReader.LookupFinds: asks for distinct keys, which the callers give, and for counts below 65536 and directory offsets below 2^31, which the guard of `writeCOFF` gives (`Coff.GuardFits`).
- Coff.ObjectGivesInput: asks that section and object stay below 4 GiB; beyond that the code truncates the sizes.
- Coff.LinkIsRelocate: the linker is modelled as resolving relocations against the symbols of one object with one section; merging sections of several objects is not part of this model.
- Manifest.PatchedFound: asks that the manifest lie neither in what is read on the way to it nor in its own size field; where it does, the patch may change the way, and what a second run finds depends on the bytes.
- Manifest.LinkedOnPath: asks that the manifest starts inside the section, which any manifest with at least one byte does.
- Manifest.FindManifest: the section table is a parameter; parsing of PE headers and of import tables is not part of this model, nor is reading and writing the file.
- Version.SerializeNode: strings are UTF-16 code units; the conversion from UTF-8 and `parseVersion` are not part of this model.
- Arithmetic on flags: single-bit `|` and `&^` are written as addition and subtraction under the guard that makes them equal.
- Store.JobStore.MarkDone: JSON and the file system are parameters: a write succeeds or changes nothing, and time is an argument.
- Lifecycle.Lifecycle.Run: transports, clocks and cancellation are a script of outcomes; the endless loop stops when the script ends. Heartbeats, registration, profile updates and configuration frames change neither machine nor store and are `OtherFrame`.
- Lifecycle.Lifecycle.HandleJob: a crash between dispatch and marking is not modelled; the code gives no guarantee there, so restarts happen between frames.
- Mutexes and goroutines of the machine and the store: the session loop is the only caller that changes them.
- Atkinson.Binarize: over reals where the code has float64; the bounds leave ample room for rounding.
- Otsu.OtsuThreshold: over reals where the code has float64; two levels whose variances differ by less than rounding may be ranked differently there.
- Mono.Pack: decoded gray images are grids of bytes; `toGray` and the image codecs are not part of this model.
- EscPos.Encode: binarising the page images is done before it.
- Downscale.DownscaleGray: asks for a source and a target of at least one pixel and a source of fewer than 2^32.
- `downscaleRGBA`, `isGrayscale`, `fitRect`, `initialScale`, `targetRect`: the first repeats the box average per channel, the others rest on float rounding.
- Dib.PackMono1bpp: the pointers to the headers become values, and the reserved byte of the colours is left out.
- Closure.ComputeClosure: names are ASCII, parsing imports is a parameter that may fail, and no file has an empty name, as none has; with one the loop would not end on a cycle.
- Resolver.Resolve: an error is a list of reasons instead of a sentence; whether a component accepts a format does not change during one resolution.
- `EffectivePageMode`: a two-line choice of the mode that the normalisation takes as an argument.
- Rotate.RotatingWriter.Write: file operations fail on a missing source only, and writes are whole.
- GDI and spooler calls, WebSocket and HTTP servers, Poppler processes, YAML, the installer and the tray: foreign calls without semantics to state.

# Video trim-and-concatenate pipeline, modelled in Dafny

This project models the request handlers of a small video-trimming service.

- `POST /api/trim` takes an uploaded video and a list of `{ start, end }` timecode segments.
- It cuts each segment out with ffmpeg, concatenates the parts through a concat-demuxer list file, and returns the result.
- It also manages the per-job scratch directory around that work.

The repository contains three variants of the handler, and all three are modelled:

- **src/server.ts** (module `ServerTs`):
  - lenient timecodes; `part_<i>.mp4` parts with stream copy;
  - an escaped concat list;
  - the job directory is created under the temp directory and removed on every path that gets that far;
  - the upload is deleted when the request is rejected.
- **src/server.js** (module `ServerJs`, cleanup proofs in `CleanupProof`):
  - strict timecodes; `part<i>.mp4` parts, re-encoded;
  - an unescaped concat list;
  - after a successful stream, the files are deleted one by one, and the first deletion that throws ends the sequence;
  - a thrown error answers 500 and deletes nothing.
- **server.js** (module `RootServer`):
  - one range per request, `duration = endTime - startTime`;
  - the output is `output/<jobId>.webm`;
  - the answer is a URL that the static `/output` route serves.

Shared parts:

- `TimeCode`: both grammars of `parseTimeToSeconds`.
- `Utils`: `ensureDir` and `safeRmDir`.
- `Manifest`: the concat list, and the reading of it that ffmpeg's concat demuxer performs.
- `Segments`: the per-segment validate/extract loop, stopping at the first failure.
- `Cleanup`: a sequence of `unlinkSync`/`rmdirSync` calls inside one `try`.
- `Jobs`: claiming and releasing a fresh job directory.

Supporting modules:

- `Js` models the JavaScript semantics the handlers rely on: a number is NaN or an integer; also `Number(...)` on a string, `split`/`join` and `${n}`.
- `Fs` holds a filesystem as a set of file paths and a set of directory paths:
  - the class `Fs.FileSystem` holds them as mutable fields;
  - each of its methods is proved against a pure function on `FsState`.
- `Engine` treats ffmpeg as an oracle `Invocation -> EngineResult`:
  - every `.run()` is one invocation;
  - `Done` means the output file now exists;
  - `Failed(message)` is the `error` event.

Each handler has two descriptions:

- A `HandleTrim` method changes a `FileSystem` step by step. It returns the response and the log of engine invocations.
- A pure `Expected` function gives the response, the invocations and the final filesystem.
- Each method's postcondition says that it produces exactly `Expected`.
- The properties are proved as lemmas about `Expected`, or about the generic loop model `Segments.Loop`. Bridging lemmas (`ExpectedIsLoopReply`) tie each handler to that loop.

Behaviours of the code worth knowing:

- Segments are validated one at a time inside the loop, so segments before a bad one have already been extracted (`ServerTs.FailFast`, `ServerJs.FirstFailureReply`).
- src/server.js does not release its output directory on a thrown error (`ServerJs.ErrorKeepsFiles`). Its success cleanup is best effort and stops at the first failing deletion (`Cleanup.RunSteps`, `Cleanup.FirstFailureStops`).
- src/server.js writes the concat list without escaping quotes. A quote in a path is then lost when the list is read back (`Manifest.RawManifestLosesQuote`).
- In src/server.ts, a failing `ensureDir` of the job directory happens outside the `try`. The model reads this as the request never being answered (`Unanswered`). What actually happens depends on the Express version, which the source does not pin: Express 5 answers a rejected handler with a 500, and under Express 4 the unhandled rejection ends the process on current Node.
- The top-level server.js does not reject a NaN duration (`RootServer.NaNDurationAccepted`). It never deletes the upload.
- Its start-up only asks whether something exists at `output`, so a file there goes unnoticed (`RootServer.StartupOverlooksFile`); every accepted request then fails in the engine with a 500 (`RootServer.OverlookedFileFails`).

## Model

| member | source | states |
|---|---|---|
| `Js.ToNumber` | src/utils/utils.ts:4 | `Number(component)` is a number exactly when the component is a digit string (the empty string is 0), and that number is the string's decimal value |
| `Js.NatToStringRoundTrip` | src/server.ts:89 | reading back the decimal rendering of `${i}` gives `i` |
| `Js.SplitJoin` | src/server.ts:109-111 | splitting on `"\n"` the join of separator-free pieces gives back exactly those pieces |
| `Js.JoinSplit` | src/server.ts:27 | joining the pieces of `split(":")` gives back the string |
| `TimeCode.ParseLenient` | src/utils/utils.ts:3-7 | the lenient `parseTimeToSeconds` yields no negative number; this follows from components being digit strings, and is not a guarantee of the source |
| `TimeCode.LenientThreeComponents` | src/utils/utils.ts:3-7 | `"hh:mm:ss"` with digit components is `hh*3600 + mm*60 + ss` |
| `TimeCode.LenientMissingComponents` | src/server.ts:27-28 | missing trailing components default to 0: `"h"` is `h*3600`, `"h:m"` is `h*3600 + m*60` |
| `TimeCode.LenientIgnoresExtra` | src/utils/utils.ts:5 | components after the third do not change the result |
| `TimeCode.LenientNaNIff` | src/utils/utils.ts:4 | the result is NaN exactly when one of the first three components is not a digit string |
| `TimeCode.LenientLoneHours` | src/server.ts:27-28 | a lone component is hours: `"5"` is 18000 |
| `TimeCode.LenientHoursMinutes` | src/server.ts:27-29 | `"1:2"` is 3720 |
| `TimeCode.LenientEmptyString` | src/utils/utils.ts:4 | `""` converts to 0 |
| `TimeCode.LenientEmptyComponents` | src/utils/utils.ts:4-6 | empty components count as 0, so `"::"` is 0 |
| `TimeCode.LenientNaNExample` | src/utils/utils.ts:4 | a non-numeric component makes `"1:x"` NaN |
| `TimeCode.ThreeDigitComponents` | src/utils/utils.ts:5-6 | three digit components give `hh*3600 + mm*60 + ss` under both grammars |
| `TimeCode.ParseStrict` | src/server.js:25-28 | the strict `parseTimeToSeconds` yields no negative number; this follows from components being digit strings, and is not a guarantee of the source |
| `TimeCode.StrictNeedsThree` | src/server.js:26-27 | fewer than three components yield NaN |
| `TimeCode.StrictAgreesFromThree` | src/server.js:25-28 | with at least three components the strict grammar agrees with the lenient one |
| `TimeCode.StrictComponents` | src/server.js:25-28 | `"hh:mm:ss"` is `hh*3600 + mm*60 + ss`, while `"h:m"` and `"h"` are NaN |
| `TimeCode.StrictIgnoresExtra` | src/server.js:26 | components after the third do not change the result |
| `Fs.MkdirRecursive` | src/utils/utils.ts:10 | `mkdirSync(d, { recursive: true })` keeps the directory tree well formed |
| `Fs.Mkdir` | server.js:24 | a plain `mkdirSync` keeps the directory tree well formed |
| `Fs.RmRecursive` | src/utils/utils.ts:14 | `rmSync(d, { recursive, force })` keeps the directory tree well formed |
| `Fs.Unlink` | src/server.js:123 | `unlinkSync` keeps the directory tree well formed |
| `Fs.Rmdir` | src/server.js:127 | `rmdirSync` keeps the directory tree well formed |
| `Fs.Rename` | src/server.ts:78 | `renameSync` into an existing directory keeps the tree well formed |
| `Fs.WriteFile` | src/server.ts:112 | `writeFileSync` into an existing directory keeps the tree well formed |
| `Fs.FileSystem.ExistsSync` | src/utils/utils.ts:10 | answers whether a file or directory exists at the path |
| `Fs.FileSystem.MkdirSync` | src/server.js:53 | succeeds exactly when the mkdir specification does, and the new state is its result; on a throw nothing changes |
| `Fs.FileSystem.RmSync` | src/utils/utils.ts:14 | the new state is the recursive removal |
| `Fs.FileSystem.UnlinkSync` | src/server.js:123-126 | throws exactly when no file is at the path; otherwise the file is gone and nothing else changes |
| `Fs.FileSystem.RmdirSync` | src/server.js:127 | throws when the directory is absent or not empty; otherwise only it is gone |
| `Fs.FileSystem.RenameSync` | src/server.ts:78 | the upload moves to its new path |
| `Fs.FileSystem.WriteFileSync` | src/server.ts:112 | the file now exists |
| `Engine.RunEngine` | src/server.ts:94-103 | the awaited run answers as the engine does when its output can be written and fails otherwise; its output file exists afterwards exactly when it succeeded |
| `Utils.EnsureDir` | src/utils/utils.ts:9-11 | `ensureDir` leaves the state its specification gives, and reports whether `mkdirSync` threw |
| `Utils.SafeRmDir` | src/utils/utils.ts:13-15 | `safeRmDir` leaves the state its specification gives |
| `Utils.EnsureDirEffect` | src/utils/utils.ts:9-11 | afterwards `d` exists, no file changed, and only `d` and its ancestors are new; it throws exactly when `d` is absent and an ancestor is a file |
| `Utils.EnsureDirIdempotent` | src/utils/utils.ts:9-11 | a second `ensureDir(d)` changes nothing |
| `Utils.SafeRmDirEffect` | src/utils/utils.ts:13-15 | afterwards exactly the entries at or under `d` are gone and every other path is unchanged; on an absent `d` it is a no-op |
| `Utils.SafeRmDirIdempotent` | src/server.ts:36-42 | a second `safeRmDir(d)` changes nothing |
| `Manifest.Lines` | src/server.ts:109-110 | one `file '<path>'` line per segment file, in segment order |
| `Manifest.EscapeQuotes` | src/server.ts:110 | `replace(/'/g, "'\\''")` lengthens a path only, and leaves a path without quotes as it is |
| `Manifest.EscapeKeepsLineBreaks` | src/server.ts:110 | escaping quotes adds no line break |
| `Manifest.ReadManifest` | src/server.ts:115-117 | not a line of this repository: the reader of ffmpeg's concat demuxer, which `-f concat` hands the list to; it returns the `file` lines' paths in order, skipping blank lines, with at most one path per line |
| `Manifest.ReadQuotedEscaped` | src/server.ts:110 | the demuxer reads an escaped quoted path back as the original path |
| `Manifest.EntryEscapedRoundTrip` | src/server.ts:110 | every escaped line reads back as its path, quotes included |
| `Manifest.EntryRawRoundTrip` | src/server.js:82 | an unescaped line reads back as its path when the path has no quote |
| `Manifest.EntryRawLosesQuote` | src/server.js:82 | the unescaped line for `a'b` reads back as `ab` |
| `Manifest.ReadLinesOfEntries` | src/server.ts:109-111 | the lines read back as the paths, in order |
| `Manifest.ManifestLines` | src/server.ts:109-111 | splitting the list text on `"\n"` gives exactly one line per segment file |
| `Manifest.EscapedManifestRoundTrip` | src/server.ts:109-112 | the escaped list reads back as exactly the segment files, in order, for paths without line breaks |
| `Manifest.RawManifestRoundTrip` | src/server.js:82-83 | the unescaped list reads back as the segment files when no path holds a quote or a line break |
| `Manifest.RawManifestLosesQuote` | src/server.js:82 | an unescaped list over `a'b` reads back as `ab` |
| `Segments.InvalidSegmentMessage` | src/server.ts:89 | `Invalid segment at index ${i}` names `i`, and distinct indices give distinct messages |
| `Segments.CheckSegment` | src/server.ts:84-89 | an accepted segment has a positive duration; its start is non-negative because components are digit strings, which the source itself does not enforce |
| `Segments.CheckTimes` | src/server.ts:87-89 | the guard that rejects a NaN start, a NaN end or a duration `<= 0`: a rejection names its index, and an accepted timing has a positive duration and reproduces both parsed times |
| `Segments.CheckTimesIff` | src/server.js:61-65 | a segment is rejected with its index exactly when a time is NaN or `end - start <= 0`; otherwise it is cut from `start` for `end - start` |
| `Segments.PartPathFacts` | src/server.ts:91 | part files sit directly in the job directory, and distinct indices give distinct paths |
| `Segments.SegmentLoop` | src/server.ts:83-104 | the loop checks exactly one entry per segment |
| `Segments.Run` | src/server.ts:83-104 | the loop's variables after `k` iterations, or after the one that threw; a part is pushed before its engine run and recorded as written only on `end` (its properties are the `Run*` lemmas below) |
| `Segments.RunStopped` | src/server.ts:83-104 | once a segment has failed, later iterations change nothing |
| `Segments.RunCounts` | src/server.ts:80-92 | after `k` iterations without failure there are exactly `k` parts; on a failure the failing part is recorded only when its check passed |
| `Segments.RunParts` | src/server.ts:91-92 | part `j` is the path for index `j`, appended in input order, and every written file is a recorded part |
| `Segments.RunPartsAt` | src/server.ts:91-92 | position `j` of `segmentFiles` is iteration `j`'s part path |
| `Segments.RunCreatedPrefix` | src/server.ts:92-103 | the parts the engine wrote are a prefix of `segmentFiles`, since a part is pushed before its engine run |
| `Segments.RunCalls` | src/server.ts:94-103 | engine call `j` extracts segment `j` with its checked start and duration |
| `Segments.RunFirstFailure` | src/server.ts:83-104 | the loop fails exactly when some segment does not extract; the failure is that of the first such segment, and every earlier one extracted |
| `Segments.RunInvalidStep` | src/server.ts:88-89 | a rejected segment stops the loop with its error before any engine call |
| `Segments.RunExtractStep` | src/server.ts:91-103 | a valid segment records its part, makes one call, and the part exists exactly when the engine succeeded |
| `Segments.ExtractSegment` | src/server.ts:91-103 | one iteration's engine run writes only the part file, and only on success |
| `Segments.LoopPartPaths` | src/server.ts:91-92 | every recorded part is `<dir>/<prefix><j>.mp4`, directly inside the job directory |
| `Segments.Iterate` | src/server.ts:84-103 | one loop iteration advances the loop specification by one step and adds at most that step's part file |
| `Segments.ExtractParts` | src/server.ts:80-104 | the `for` loop computes exactly the loop specification's parts, calls and failure, and adds exactly the written parts to the disk |
| `Jobs.ClaimVacant` | src/server.ts:73-74 | on a fresh job path `ensureDir` is the recursive mkdir; it fails exactly when an ancestor is a file |
| `Jobs.FreshInside` | src/server.ts:73-77 | a path inside a fresh job directory is neither a file nor a directory yet |
| `Jobs.Release` | src/server.ts:132 | `safeRmDir(jobDir)` removes exactly what the job added below it, leaving only the created ancestors |
| `Jobs.ReleasedVacant` | src/server.ts:127-129 | after release nothing exists at or below the job directory |
| `Jobs.ClaimedIsEmpty` | src/server.ts:73-74 | right after creation the job directory and its ancestors exist, and no file or directory is below it |
| `Cleanup.Unlinks` | src/server.js:125 | one unlink step per file, in list order |
| `Cleanup.ApplySync` | src/server.js:123-127 | one deletion throws exactly when its specification fails, and otherwise leaves its result |
| `Cleanup.RunSteps` | src/server.js:122-130 | the `try` block leaves exactly the state of running the deletions in order up to the first that throws |
| `Cleanup.PlanSplit` | src/server.js:122-130 | deletions after one that throws never run |
| `Cleanup.UnlinksRemove` | src/server.js:123-126 | unlinking distinct existing files all succeed and remove exactly those files |
| `Cleanup.FirstFailureStops` | src/server.js:128-130 | a deletion that throws ends the sequence with the state as it stands |
| `CleanupProof.OutputNamesDiffer` | src/server.js:49-67 | a part file, the final output and the concat list never share a path |
| `CleanupProof.CleanupTargetsDistinct` | src/server.js:123-126 | the files the cleanup unlinks are pairwise distinct |
| `CleanupProof.TargetsPresent` | src/server.js:123-126 | after a successful job every file the cleanup unlinks exists |
| `CleanupProof.TargetsCover` | src/server.js:123-126 | those unlinks remove everything the job wrote, plus the upload |
| `CleanupProof.UnlinkTargets` | src/server.js:123-126 | every unlink succeeds and leaves only the pre-job files without the upload |
| `CleanupProof.SuccessCleanup` | src/server.js:121-131 | after a successful job the cleanup completes and removes the upload and the whole output directory, keeping its created ancestors |
| `CleanupProof.AllPartsWritten` | src/server.js:57-79 | a loop that ran to the end wrote every recorded part |
| `CleanupProof.LoopSuccessReleases` | src/server.js:117-131 | for any successful loop, the disk afterwards is the pre-request disk without the upload, plus the output directory's ancestors |
| `CleanupProof.SuccessReleases` | src/server.js:46-131 | a request answered with the video leaves the disk as it was, minus the upload, plus the created ancestors |
| `ServerTs.JobLoop` | src/server.ts:80-104 | the loop checks one entry per requested segment |
| `ServerTs.Startup` | src/server.ts:44-45 | `ensureDir(uploadsBase)` at load succeeds exactly when its specification does and leaves its state; afterwards something exists at the uploads path |
| `ServerTs.Accepted` | src/server.ts:57-71 | the segment list is accepted exactly when it parses to a non-empty array, and is then that array; otherwise the 400 message is `Missing segments` for an absent field and `Invalid segments format` otherwise |
| `ServerTs.ConcatParts` | src/server.ts:106-123 | writes the escaped list and runs one concat call on it; the disk gains the list, and the final output only on success |
| `ServerTs.ExtractAll` | src/server.ts:80-104 | the loop's parts, calls and failure are those of the loop specification; all new files lie inside the job directory |
| `ServerTs.Deliver` | src/server.ts:106-129 | after a complete loop the answer is the concat call's: the video on success, 500 with the engine message otherwise |
| `ServerTs.Process` | src/server.ts:82-135 | the `try` block answers as `Processed`, adding files only inside the job directory |
| `ServerTs.HandleTrim` | src/server.ts:55-137 | the handler's response, engine calls and final disk are exactly `Expected` |
| `ServerTs.Expected` | src/server.ts:55-137 | the request-level reading of the handler: 400 without the upload, otherwise the job directory claimed, the loop and concat run, and the directory removed on every path; its properties are the `ServerTs` lemmas below |
| `ServerTs.BadRequestIff` | src/server.ts:56-71 | 400 exactly when the file is missing or the segments are missing, unparseable, not an array or empty; then no engine call, no directory change, and only the upload is deleted |
| `ServerTs.WorkspaceReleased` | src/server.ts:73-135 | on every path the job directory is gone afterwards, no file appears, only the upload can disappear, and the only new directories are the job directory's ancestors |
| `ServerTs.VideoOnlyIfAllExtract` | src/server.ts:83-129 | the video is streamed only if every segment was extracted |
| `ServerTs.FirstFailureReply` | src/server.ts:83-135 | the first failing segment answers 500 with its message; calls stop there, each extracting its own segment |
| `ServerTs.AllExtractReply` | src/server.ts:106-129 | after all segments extract there is one more call, a concat of the list, whose manifest reads back as exactly the parts in order; the video is streamed exactly when it succeeds |
| `ServerTs.ExpectedIsLoopReply` | src/server.ts:73-104 | an accepted request answers as the segment loop over its job directory |
| `ServerTs.FailFast` | src/server.ts:83-135 | at request level, a video means every segment extracted, and the first failing segment decides the 500 and the calls |
| `ServerTs.InvalidSegmentBody` | src/server.ts:130-135 | the 500 body for a rejected segment is `Invalid segment at index <i>` |
| `ServerTs.PartPathNoLineBreak` | src/server.ts:91 | a part path has no line break when the job directory has none |
| `ServerTs.JoinReadsBack` | src/server.ts:109-112 | the concat list over the parts reads back as exactly those parts, in order |
| `ServerJs.JsLoop` | src/server.js:57-79 | the loop checks one entry per element walked |
| `ServerJs.LoopEntries` | src/server.js:57-58 | what `for (i < parsedSegments.length)` walks: an array's elements; for a string one element per character, whose destructured times are not strings; for `null` one element that throws; for any other value nothing |
| `ServerJs.OutputFiles` | src/server.js:48-50 | the concat list and `<jobId>-final.mp4` sit directly in the fresh output directory and did not exist before |
| `ServerJs.Deliver` | src/server.js:81-131 | after a complete loop the answer is the concat call's; on success the cleanup plan runs on the disk, on failure the list stays |
| `ServerJs.CleanupPlan` | src/server.js:122-127 | the `close` cleanup: unlink the upload, the final output, every part in order and the list, then `rmdirSync(outputDir)` |
| `ServerJs.Process` | src/server.js:52-135 | the `try` block answers as the loop specification, and the disk is its `Leftover` |
| `ServerJs.HandleTrim` | src/server.js:31-136 | the handler's response, engine calls and final disk are exactly `Expected` |
| `ServerJs.Expected` | src/server.js:31-136 | the request-level reading of the handler: 400 on missing or unparseable input, 500 when the output directory cannot be made, otherwise the loop and concat with the cleanup plan run on success; its properties are the `ServerJs` lemmas below |
| `ServerJs.BadRequestIff` | src/server.js:35-44 | 400 exactly when the file or segments are missing or the JSON does not parse; then no engine call and the disk, upload included, is unchanged |
| `ServerJs.ExpectedIsLoopReply` | src/server.js:46-79 | a parsed request answers as the segment loop over `output/<jobId>`, and leaves that loop's `Leftover` |
| `ServerJs.VideoOnlyIfAllExtract` | src/server.js:57-118 | the video is streamed only if every segment was extracted |
| `ServerJs.FirstFailureReply` | src/server.js:57-135 | the first failing segment answers 500 with `err.message`; calls stop there, each extracting its own segment |
| `ServerJs.NothingToExtract` | src/server.js:57-95 | an empty array, or a value without `length`, skips the loop and concatenates an empty list; the video is streamed exactly when that succeeds |
| `ServerJs.NotAnArrayThrows` | src/server.js:57-58 | a parsed `null` or a non-empty string throws a TypeError before any engine call, answered 500 |
| `ServerJs.ErrorKeepsFiles` | src/server.js:132-135 | an error answer deletes nothing: the output directory and every written part stay |
| `ServerJs.PartPathPlain` | src/server.js:67 | a part path has no quote or line break when the output directory has none |
| `ServerJs.JoinReadsBack` | src/server.js:82-83 | the unescaped list reads back as exactly the parts, in order, when the output directory has no quote or line break |
| `RootServer.FieldNumber` | server.js:31-32 | a body field is a number exactly when it is present and a digit string |
| `RootServer.Startup` | server.js:23-24 | `OUTPUT_DIR` is created, without recursion, only when nothing exists at that path; a throwing mkdir leaves the disk unchanged |
| `RootServer.HandleTrim` | server.js:30-57 | on any disk, including one where a file sits at `OUTPUT_DIR`, the handler's response, engine call and final disk are exactly `Expected` |
| `RootServer.Expected` | server.js:30-57 | the request-level reading of the route: 400 when rejected, otherwise one engine call whose answer decides between the URL with the clip written and a 500 with the disk unchanged |
| `RootServer.StaticFile` | server.js:60 | a path the `/output` static route serves lies inside `OUTPUT_DIR` |
| `RootServer.StartupReady` | server.js:23-24 | after a start-up that did not throw, `OUTPUT_DIR` is a directory with its ancestors, unless a file sits there |
| `RootServer.StartupOverlooksFile` | server.js:24 | a file at `OUTPUT_DIR` passes the existence test, and no clip can then be written |
| `RootServer.OverlookedFileFails` | server.js:24-56 | with a file at `OUTPUT_DIR`, every accepted request makes its one engine call, is answered 500 `FFmpeg failed`, and leaves the disk unchanged |
| `RootServer.DurationValue` | server.js:31-32 | the duration is `endTime - startTime` when both are digit strings, and NaN otherwise |
| `RootServer.BadRequestIff` | server.js:34-36 | 400 `Invalid trim request` exactly when there is no file or the duration is a number `<= 0`; then no engine call and no disk change |
| `RootServer.AcceptedRunsOnce` | server.js:38-56 | an accepted request runs the engine once on the upload into `OUTPUT_DIR/<jobId>.webm` with a positive or NaN duration; the URL is answered exactly when the clip can be written and the engine succeeds, otherwise 500 `FFmpeg failed`; only the clip is added |
| `RootServer.NaNDurationAccepted` | server.js:32-34 | a non-numeric or absent start time gives a NaN duration that the guard lets through to the engine |
| `RootServer.UrlServesClip` | server.js:38-60 | the returned URL, served by the static route, names the file the engine wrote for the same `jobId` |

## Left out

- The HTTP stack is out of scope: Express routing, CORS, multer and dotenv. A request is a record holding multer's file (temporary path and extension) and the body fields. `JSON.parse` is reduced to the shapes the handlers tell apart.
- The stream delivery is not modelled. The `createReadStream(...).pipe(res)` stream and its `finish`/`close` events are taken to complete, so the cleanup they trigger is modelled as having run. A client that disconnects is not modelled.
- ffmpeg is an oracle on the invocation. Its internals, the exact command-line options and the media content of every file are not modelled. A failed engine run is taken to leave no output file.
- `Number(...)` is reduced to digit strings (their value), the empty string (0) and everything else (NaN). Decimals, signs, exponents, whitespace and floating-point rounding are not modelled.
- TimeCode.ParseLenient: a signed component such as `"-1"` is NaN in the model, while the source gives a negative number (`"-1"` is -3600 seconds). The non-negative result follows from the digit-string reduction; the source promises no such bound.
- TimeCode.ParseStrict: the same holds for `"-1:0:0"`, which the source parses to -3600 and the model to NaN.
- Segments.CheckSegment: the source does not enforce a non-negative start. The segment `{start: "-1:0:0", end: "0:0:1"}` passes its guard and reaches ffmpeg with a negative start, while the model rejects it with `Invalid segment at index 0`.
- A failed engine run is answered with the stand-in message `Engine.UnwritableOutput` when its output cannot be opened.
- `uuidv4()` is a parameter. Its freshness is a precondition: nothing exists at or below the job directory.
- `path.join`, `path.extname` and `os.tmpdir()` are `/`-joined strings without normalisation. `..` segments are not resolved, and `express.static`'s own path checks are not modelled.
- The manifest reader splits lines on `"\n"` only.
- The runtime's own error texts for a TypeError or a failing `mkdirSync` are stand-in constants (`TypeErrorText`, `MkdirErrorText`).
- A parsed JSON value other than an array, a string or `null` (a number, a boolean or an object) is taken to have no `length`. An object with its own `length` property is not modelled.
- An exception thrown outside a handler's `try`, and the unhandled promise rejection that follows, are modelled as the request never being answered (`Unanswered`). In src/server.ts only the job directory's `ensureDir` can throw there. multer has stored the upload as a file, so `renameSync` and the `unlinkSync` of a 400 path cannot throw.
- Filesystem permission errors, disk space, file contents and sizes are not modelled. `safeRmDir`'s swallowed exception therefore never arises, and the src/server.ts and src/utils/utils.ts versions coincide.
- Concurrency between requests is out of scope, as is the interleaving of the stream's `close` event with later requests.
- src/cloudinary.js and the commented-out Cloudinary upload are not part of this model. `app.listen`, the ports and the logging are left out too.

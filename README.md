# Build pipeline of the game-converter server, in Dafny

This project models the server half of the game converter. A user uploads a
ZIP archive of a web game. The server stores a build record, runs either the
Android pipeline (Capacitor project, Gradle, APK) or the PC pipeline (repack
into a new ZIP), and serves status, record, list and download endpoints over
the in-memory record map.

The model is split into these modules:

- `Jobs`: the build record, its statuses, the error text of a failed build,
  the artifact extension, and `name.replace('.zip', '')`.
- `Profiles`: the two build functions written as data. A phase is a milestone
  (progress and step text) followed by the external actions that may throw.
  `TryBlock` runs the try block of a build function and records every value it writes to `progress` and `step`. `Build` is the try block
  followed by the catch block. The reference properties are lemmas about
  `Build`: the outcome, the download URL, the progress trace and the settled
  state.
- `Repack`: the PC repack loop over the extraction directory, and what ends
  up in the new archive.
- `Endpoints`: the status, record, list and download handlers, as functions
  of the server state.
- `Server`: the class `BuildServer`. It holds the record map `builds`, the
  insertion order of the map (read by `builds.values()`), and the artifact
  directory. It has the upload handler and the two build functions as
  imperative methods. `AndroidTry` and `PcTry` are proved equal to `TryBlock`
  of their profile. The upload keeps the invariant `Valid()`.

Modelling choices:

- **External actions are a parameter.** Every call inside the build
  functions that touches the outside world is a constructor of `Op`:
  `fs.mkdirSync`, AdmZip's `extractAllTo`, `fs.writeFileSync`, `fs.cpSync`,
  `execSync`, `fs.copyFileSync`, `fs.readdirSync`, `fs.statSync` with
  `addLocalFile`/`addLocalFolder`, `writeZip` and `fs.rmSync`. Its outcome
  comes from an oracle `o: Op -> Outcome`: it returns, or it throws with a
  message.
- **Other inputs are parameters too.** `uuidv4()`, the clock, the outcome of
  `gameFile.mv` (the `saved` parameter of `Upload`) and the listing `readdirSync` returns are all parameters.
- **The build finishes before the reply.** The build functions are `async`
  but never `await`. So when `processAndroidBuild` or `processPCBuild` is
  called from the upload handler, it runs to its end before the handler
  sends 201. The model runs the build inside `Upload` for this reason, and
  every record the endpoints can see is settled: completed or failed.
- **Writes to the record are collected, then stored once.** The build
  functions change the shared record object field by field. Nothing can
  observe the intermediate states, because the code is synchronous. The
  model therefore runs the try block on a local `Job` value and stores the
  result in the map once.
- **Cleanup can fail a completed build.** The cleanup (`fs.rmSync` of the
  extraction directory and of the upload) sits inside the same try block as
  the build. When it throws after the completion, the record becomes
  `failed`, with the thrown message. It keeps `downloadUrl` and progress
  100. A design that treats cleanup as best-effort and never reverts a
  completed build would behave differently. The model follows the code
  (`CleanupFailureAfterCompletion`).
- **Error text.** `error.message || default` means an empty message gives
  the default text. A thrown value without a message is modelled as an
  empty message.

## Model

| member | source | states |
|---|---|---|
| Server.BuildServer.Upload | server/index.js:60-108 | 400 "No files were uploaded." when nothing is uploaded; 500 "Failed to upload file." when the `file` field is missing or holds several files, or the move fails; 400 "Only ZIP files are allowed." for a name not ending in `.zip`; 201 with the id exactly when a single `.zip` file was moved. Only a 201 changes the state: the record is appended in insertion order and built with its platform's profile. The artifact appears exactly when the build's phases all returned. The server invariant is kept. |
| Server.BuildServer.Accept | server/index.js:75-103 | The new record is stored under the new id and appended at the end of the insertion order. The platform's build is then run on it. The artifact directory gains the platform's artifact exactly when all phases returned. The server stays valid. |
| Server.BuildServer.StartBuild | server/index.js:97-101 | Exactly `"android"` runs the Android build and any other platform runs the PC build. A fresh record ends settled, keeps its id and platform, and has its artifact when completed. No artifact is removed. |
| Server.BuildServer.ProcessAndroidBuild | server/index.js:175-245 | Nothing changes for an unknown id. Otherwise the record becomes `Build` of the Android profile, and `{id}.apk` is stored exactly when every action up to the APK copy returned. |
| Server.BuildServer.AndroidTry | server/index.js:176-235 | The straight-line try block of processAndroidBuild leaves the record and throws exactly as `TryBlock` of the Android profile says. The ghost logs `progressLog` and `stepLog`, extended at every write to `progress` and `step`, equal the writes `TryBlock` records. The APK is stored exactly when the record reached completed. |
| Server.BuildServer.ProcessPcBuild | server/index.js:248-307 | Nothing changes for an unknown id. Otherwise the record becomes `Build` of the PC profile, and `{id}.zip` holding the repacked listing is stored exactly when every action up to the archive write returned. |
| Server.BuildServer.PcTry | server/index.js:249-296 | The straight-line try block of processPCBuild, including the repack loop, equals `TryBlock` of the PC profile, and so do its logs of the `progress` and `step` writes. The archive with the repacked paths is stored exactly when the record reached completed. |
| Server.BuildServer.constructor | server/index.js:22-57 | The server starts with an empty record map and an empty order, and is valid. The artifact directory keeps whatever an earlier run left there, since it is only created when missing. |
| Server.Accepted | server/index.js:62-72 | Defines an upload that gets past the handler's checks: a single file under the field `file`, whose name ends in `.zip`. |
| Server.ArtifactOf | server/index.js:223-287 | Defines what a successful build leaves in `server/builds/`: the APK copied at line 225 for `"android"`, otherwise the repacked archive of the listing written at line 287. |
| Server.PlatformOf | server/index.js:67 | A missing or empty platform field selects `"android"`. Any other string is kept as given. |
| Server.NewRecord | server/index.js:83-92 | The stored record is queued, with no progress, step, error or download URL. |
| Server.RegistryInsert | server/index.js:94 | Storing a settled record under a new id at the end of the order keeps the registry valid: every key listed once, every record under its own id and settled, every completed record's artifact present. |
| Server.RegistryValid | server/index.js:57 | Defines the invariant of the record map: every key listed once in insertion order, every record under its own id and settled, every completed record's artifact present. |
| Server.StoredStatus | server/index.js:110-125 | For a stored record, the status view is found and terminal. Its progress lies in 1..100, so the fallback to 0 never shows. It has a step, and an error exactly when the build failed. |
| Server.DownloadOfStored | server/index.js:143-158 | In a valid server, a download succeeds exactly for stored, completed records. "Build file not found." never occurs. |
| Server.ListStored | server/index.js:138-141 | The list has one entry per stored record, every stored record appears, and no id appears twice. |
| Server.ListAfterUpload | server/index.js:138-141 | A newly inserted record is listed last, after the earlier records, which are unchanged and in their old order. |
| Endpoints.StatusOf | server/index.js:110-125 | 404 "Build not found." exactly for an unknown id. Otherwise status, step, error and platform come from the record, and progress is the record's progress or 0 when unset. |
| Endpoints.GetBuild | server/index.js:127-136 | Found exactly for a stored id, with the stored record as body. Otherwise 404 "Build not found.". |
| Endpoints.ListBuilds | server/index.js:138-141 | The list has one record per inserted id, in insertion order. |
| Endpoints.ArtifactFile | server/index.js:151 | Defines the artifact file of a record: its id plus the platform's extension. |
| Endpoints.Download | server/index.js:143-158 | "Build not found or not completed." for an unknown or non-completed record; "Build file not found." when the artifact is missing. Found exactly when the record is completed and `{id}.apk` (Android) or `{id}.zip` (other platforms) exists. The download name is the record's name plus that extension. |
| Jobs.ErrorText | server/index.js:242 | The stored error is the thrown message, or the default text when the message is empty. It is never empty. |
| Jobs.DownloadUrl | server/index.js:230 | Defines the download URL a completed build stores: `/api/builds/{id}/download`, as at lines 230 and 292. |
| Jobs.EndsWithZip | server/index.js:70 | Defines `name.endsWith('.zip')`: the name has at least four characters and its last four are `.zip`. |
| Jobs.Extension | server/index.js:151 | `.apk` exactly for `"android"`, `.zip` for every other platform. |
| Jobs.StripFirstZip | server/index.js:85 | The display name is the uploaded name or exactly four characters shorter, and a name that keeps its length is unchanged. |
| Jobs.StripFirstZipCuts | server/index.js:85 | `replace('.zip', '')` removes the first occurrence of ".zip" and keeps everything before and after it. |
| Jobs.StripFirstZipKeeps | server/index.js:85 | A name without ".zip" in it is unchanged. |
| Jobs.StripPlainArchiveName | server/index.js:85 | For `base + ".zip"` whose only ".zip" is the suffix, the display name is `base`. |
| Profiles.AndroidProfile | server/index.js:181-230 | processAndroidBuild as data: four phases with milestones 10, 30, 50, 70 and their step texts, each followed by its actions in source order, then the two `rmSync` cleanups. |
| Profiles.PcProfile | server/index.js:254-292 | processPCBuild as data: three phases with milestones 20, 50, 80 and their step texts, each followed by its actions in source order, then the two `rmSync` cleanups. |
| Profiles.ProfileFor | server/index.js:97-101 | Exactly `"android"` selects the Android profile; every other platform the PC profile. |
| Profiles.RunPhases | server/index.js:180-226 | Defines the phases: each writes its milestone and step, then runs its actions; the first throw stops the run. It returns the record, what was thrown, and every value written. |
| Profiles.TryBlock | server/index.js:176-235 | Defines the try block: status processing, the phases, then the completion and the cleanup when no phase threw. |
| Profiles.Build | server/index.js:175-245 | Defines a build: the try block, then the catch block when it threw. |
| Profiles.Complete | server/index.js:227-230 | Defines the completion: status completed, progress 100, the record's download URL. |
| Profiles.Fail | server/index.js:236-243 | Defines the catch block: status failed, error from the thrown message. |
| Profiles.FirstFailure | server/index.js:176-235 | Running actions in order gives `Ok` exactly when every action returned. |
| Profiles.FirstFailureIsFirst | server/index.js:176-235 | A thrown outcome is the outcome of an action all of whose predecessors returned. |
| Profiles.FirstFailureAt | server/index.js:176-235 | An action that throws after all its predecessors returned decides what the try block throws. |
| Profiles.FirstFailureAppend | server/index.js:176-235 | Running two action lists in sequence throws what the first list throws, or else what the second throws. |
| Profiles.RunPhasesOutcome | server/index.js:180-226 | The phases write only progress and step, and throw what the first throwing action of all their actions throws. |
| Profiles.TryBlockCompletes | server/index.js:227-230 | The try block reaches the completion exactly when every action of the phases returned. |
| Profiles.BuildOutcome | server/index.js:175-307 | A build ends completed exactly when every action, cleanup included, returned. Otherwise it ends failed with the first thrown message (or the default text) as error. The identity fields (id, name, creation time, size, platform) are untouched. |
| Profiles.BuildDownloadUrl | server/index.js:227-234 | The download URL `/api/builds/{id}/download` is set exactly when every action of the phases returned. When the cleanup also returned, it is set exactly when the build completed. |
| Profiles.CleanupFailureAfterCompletion | server/index.js:232-243 | A cleanup that throws after the completion turns the record failed with the cleanup's message, and it keeps the download URL and progress 100. |
| Profiles.RunPhasesLastWrite | server/index.js:180-226 | After the phases, progress and step hold the last values written, whichever action threw. |
| Profiles.RunPhasesWrites | server/index.js:180-226 | The progress and step values the phases write are, in order, the milestones and texts of the phases the run enters: each phase is entered, and the next only when all its actions returned. |
| Profiles.TryBlockWrites | server/index.js:176-235 | The try block writes exactly the progress trace (the milestones of the phases entered, then 100 at the completion) and the step trace of its profile. |
| Profiles.Entered | server/index.js:180-226 | A run enters at least one phase and at most all of them, and all of them when no phase action throws. |
| Profiles.ProgressTrace | server/index.js:180-230 | Defines the progress values a run should write, independently of `RunPhases`: the milestone of every phase entered, then 100 when every phase's actions returned. |
| Profiles.StepTrace | server/index.js:180-226 | Defines the step texts a run should write: the text of every phase entered. |
| Profiles.WrittenIsPrefix | server/index.js:180-226 | The phases a run enters are the first `Entered` phases of the profile, in order. |
| Profiles.CompletesIff | server/index.js:180-230 | The run reaches the completion exactly when no action of any phase throws. |
| Profiles.WrittenFrom | server/index.js:180-226 | A run that reaches phase k and throws there has entered exactly phases 0..k and does not complete. One that gets through the last phase has entered all phases and completes. |
| Profiles.PhaseTrace | server/index.js:180-230 | A run that throws in phase k has written the first k+1 milestones and step texts and not 100. One that gets through the last phase has written all of them. |
| Profiles.ProgressTraceIsPrefix | server/index.js:180-230 | The progress trace (equal to the try block's writes by TryBlockWrites) is a non-empty in-order prefix of the profile's milestones. The prefix is all of them when no phase action throws. |
| Profiles.StepTraceIsPrefix | server/index.js:180-226 | The step trace is a non-empty in-order prefix of the profile's step texts, and all of them when no phase action throws. |
| Profiles.BuildProgress | server/index.js:175-307 | The record ends with the last progress value and the last step text the run wrote. |
| Profiles.ProgressNeverDecreases | server/index.js:175-307 | With increasing milestones, the progress values the try block writes strictly increase. |
| Profiles.PlatformProgressRises | server/index.js:175-307 | Both build functions write strictly rising progress values, each between 1 and 100, whichever action throws. |
| Profiles.ProfileMilestones | server/index.js:175-307 | Android writes progress 10, 30, 50, 70, 100 and PC writes 20, 50, 80, 100, each with its own step texts. Both sequences increase and lie in 1..100. |
| Profiles.BuildSettles | server/index.js:83-101 | A fresh record run through its platform's build ends settled: terminal; progress in 1..100 and a step; an error, never empty, exactly when failed; a download URL (its own, with progress 100) whenever completed. Completion implies that every phase action returned. |
| Repack.FolderFiles | server/index.js:278 | Defines what `addLocalFolder(filePath, file)` adds: every file below the folder, under `file` as prefix. |
| Repack.EntryPaths | server/index.js:274-278 | Defines what one listed entry adds: a file under its own name, a directory through `FolderFiles`. |
| Repack.RepackSpec | server/index.js:272-280 | Defines the repacked archive: the paths of every listed entry, in listing order. |
| Repack.RepackEntries | server/index.js:272-280 | The `forEach` loop builds exactly the archive `RepackSpec` describes: entries in listing order, a file at the root under its name, a directory's files under its name as folder prefix. |
| Repack.RepackSpecMembers | server/index.js:272-280 | A path is in the archive exactly when some listed entry contributed it. |
| Repack.FolderFilesUnder | server/index.js:278 | Everything `addLocalFolder(filePath, file)` adds lies inside the folder `file`. |
| Repack.RepackTopLevel | server/index.js:272-280 | Every archive path is a top-level file's name or lies inside a top-level directory's folder. Every top-level file is at the root under its own name. Every top-level directory holding a file gets a folder named after it. |
| Repack.RepackTopNames | server/index.js:272-280 | The first path segments of the archive are exactly the names of the listed entries that contribute a file. |

## Left out

- Express wiring is not modelled: routing, JSON and urlencoded body parsing, the 50 MB upload limit with `abortOnLimit`, production static serving of the front end, and `app.listen`. These are framework configuration, not logic of the core.
- Creating the uploads, builds and temp directories at start-up is not modelled. The directories are assumed to exist; the constructor takes the files already in `server/builds/` as a parameter.
- The effects of the external actions are not modelled. `fs`, AdmZip, `execSync` and npm/Capacitor/Gradle appear only through the outcome each one returns or throws. What files they write is not represented, apart from the artifact directory.
- The contents of the generated `capacitor.config.json` are not modelled; only the outcome of writing it is.
- Extraction is not contained to the extraction directory, and path traversal through archive entry names is not modelled. The code makes no such check.
- Repack.RepackEntries: `addLocalFolder` is modelled by the archive paths of the files below the folder, in listing order. Its own walk order, directory-only entries and file contents are not represented.
- Profiles: the per-entry `statSync`, `addLocalFile` and `addLocalFolder` calls of the repack loop are collapsed into one action, `AddEntries`, that may throw. Which entry threw is not recorded.
- Profiles: the oracle `o` gives one outcome per kind of action. Every action kind runs at most once per build, so this loses nothing within one build.
- Concurrency between requests is not modelled. The build functions never await, so each upload request runs to its reply with its build.
- Server.BuildServer.Upload: requires a build id that is not yet stored, because a `uuidv4()` collision is not modelled. The code would overwrite the old record.
- Server.BuildServer.Upload: the platform field is a string or absent. A non-string value (for example an array from a repeated form field) is not modelled.
- `console.error` logging in the catch blocks is not modelled. It has no effect on the state or the replies.
- Server.StoredStatus: bounds a stored record's progress to 1..100 rather than to the exact milestone list of its platform. The exact milestones are stated about `Build` by BuildProgress and ProfileMilestones.
- Removing artifacts from `server/builds/` by other means (by hand, by another process) is not modelled. The artifact directory changes only through the build functions. Server.DownloadOfStored's "Build file not found." never occurs relies on this; the download handler itself re-checks `fs.existsSync`, and Endpoints.Download models that check.
- The front end (`src/`) is not part of this model.

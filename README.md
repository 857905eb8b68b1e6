# Polar dashboard upgrade tool, modelled in Dafny

The upgrade tool turns an existing Polar icon-pack project into one based on
the latest Polar template. This project models the core of that tool:

- **`GradleMigrator`** (`gradle_migrator.dfy`) rewrites the `name value`
  property lines of a Gradle build file. It then deletes the file and writes it
  again.
- **`XmlElementExtractor`** (`xml_element_extractor.dfy`) finds one-line
  `<tag name="X">…</tag>` elements in an XML file and maps each name attribute
  to its element value.
- **`Main`** (`main.dfy`) holds:
  - the copy blacklist `isBlacklisted`;
  - the per-line package substitution of the copy interceptors;
  - the backup file name;
  - the two compatibility renames;
  - `upgrade` itself: a fixed sequence of seventeen stages that returns early
    when one of them fails.
- **`MainBase`** (`main_base.dfy`) holds:
  - `cleanupPath`;
  - the bar of `PROGRESS`;
  - the decisions of `downloadArchive`: the single retry governed by `TRIES`,
    and the final `EXTRACTED_ZIP_ROOT`.

The supporting modules are small:

- `text.dfy`: the `String` operations used (`indexOf`, `replace`,
  `startsWith`, `endsWith`, the blank test).
- `lines.dfy`: how `BufferedReader.readLine` splits text and how the writers
  join lines.
- `files.dfy`: a file store mapping absolute paths to contents, as a class
  whose methods change it.
- `ui_callback.dfy`: the events the user interface receives.
- `wrappers.dfy`: `Option` and `Result`.

## How the model is built

`GradleMigrator`, `XmlElementExtractor` and the `upgrade` sequence change
state step by step, so they are imperative code. They are classes with loops
and `modifies` clauses. Each method is proved against a specification
function:

| method | specification function |
|---|---|
| `GradleMigrator.ReadPatched` | `PatchLines` |
| `XmlElementExtractor.Find` | `Extracted` |
| `Tool.DownloadArchive` | `Download` |
| each stage method of `Tool` | `Step` of its stage |
| `Tool.Upgrade` | `Run` over the whole `Plan` |

The lemmas state the source's promises about those functions.

The Java static fields `CURRENT_DIR`, `EXTRACTED_ZIP_ROOT`, `TRIES` and
`USER_*` are the fields of class `Upgrade.Tool`. The tool also keeps the
events sent to `UICallback` and the calls made to classes outside the model.

Work done by classes outside the model becomes a recorded `Call`. The
environment `Env` supplies what `upgrade` learns from each such call:

- `AttributeExtractor` on build.gradle: the attribute map, or null;
- `ZipUtil`: whether the backup is written;
- `FileUtil.copyFolder`: whether it hands at least one line to the
  interceptor (`copyHandsOverLine`); with a null `USER_PACKAGE` that line
  makes the package-substituting interceptor throw;
- `XmlMigrator`: whether each merge succeeds;
- `Util.skipPackage`: the folder it returns;
- `GradleMigrator` as `upgrade` calls it: whether the migration succeeds.

`FileUtil.checkDiff` is only recorded: `upgrade` uses no result from it.

Other effects are parameters of the model rather than behaviour it computes:

- whether a file can be read or written (`readable`, `writable`);
- whether the platform lets a rename through;
- the responses of the network (`Network.pending`);
- the line separator that `BufferedWriter.newLine` writes.

`upgrade` calls `GradleMigrator` and `XmlElementExtractor` with constructors
other than the ones in their own source files: `(source, dest, uiCallback)`,
and four arguments. So inside `upgrade` the Gradle migration is a stage whose
outcome is supplied (`Env.gradleMigrated`). The strings.xml extraction does
use the modelled `XmlElementExtractor`, with one pattern `<string
name="app_name">`.

### Behaviour of the code the model keeps

- **Identity.** Only a null attribute map, or strings.xml that cannot be
  read, ends the run at identification. A missing `app_name`,
  `applicationId`, `versionName` or `versionCode` is stored as null.
  - A null app name makes `USER_APPNAME.replace` throw a
    NullPointerException at Main.java line 55. The model calls this flow
    `Crash`.
  - A null package makes the package substitution of Main.java lines 82, 136
    and 204 throw. This is `None` from `OnCopyLine`, and the manifest, Java
    and resource copies end in `Crash` as soon as `copyFolder` hands a line
    to their interceptor.
- **Exceptions.** `upgrade` catches nothing, so these NullPointerExceptions
  leave it. Separately, `GradleMigrator.process` lets the exception that
  `cleanupPath` throws after a successful write escape to its caller, when
  the path is not under `CURRENT_DIR` and `EXTRACTED_ZIP_ROOT` is null
  (GradleMigrator.java line 72, MainBase.java lines 24-26). That exit is not
  one of `upgrade`: `upgrade` builds its migrator with another revision's
  three-argument constructor (Main.java line 99), so its Gradle stage is
  abstract in the model, and the file it migrates lies under `CURRENT_DIR`
  (Main.java line 97) in any case.
- **Backup location.** The backup is written inside the project directory:
  `new File(CURRENT_DIR, name)`.
- **Empty extractor arrays.** The extractor's constructor rejects only null
  arrays and arrays of different lengths. Empty arrays give an extractor that
  finds nothing.
- **Read failure in `process()`.** A read failure leaves the file untouched.
  A property name with no value at its index also ends the read phase (an
  IndexOutOfBoundsException caught by the same handler). The model includes
  this as a failure.

## Model

| member | source | states |
|---|---|---|
| Text.IndexOfFrom | src/com/afollestad/polarupgradetool/GradleMigrator.java:38-39 | `indexOf` returns the first occurrence at or after the start index; -1 (None) means the text occurs nowhere from there on |
| Text.ContainsIff | src/com/afollestad/polarupgradetool/GradleMigrator.java:38-39 | `indexOf(key) != -1` exactly when the key occurs somewhere in the line |
| Text.ReplaceAll | src/main/java/com/afollestad/polarupgradetool/Main.java:82 | `String.replace`: left to right, each non-overlapping occurrence of the target replaced (a definition; its properties are the lemmas below) |
| Text.ReplaceAllLength | src/main/java/com/afollestad/polarupgradetool/Main.java:82 | `replace` changes the length by (replacement length − target length) once per replaced occurrence |
| Text.CountZeroIff | src/main/java/com/afollestad/polarupgradetool/Main.java:82 | `replace` replaces nothing exactly when the target does not occur |
| Text.ReplaceAllAbsent | src/main/java/com/afollestad/polarupgradetool/Main.java:82 | a line without the target comes back unchanged |
| Text.ReplaceAllSelf | src/main/java/com/afollestad/polarupgradetool/Main.java:82 | replacing the template package by itself changes nothing |
| Text.ReplaceCharAt | src/main/java/com/afollestad/polarupgradetool/Main.java:55 | replacing one character by another keeps the length and maps each character independently |
| Lines.ReadLines | src/com/afollestad/polarupgradetool/GradleMigrator.java:35 | no line returned by `readLine` contains a line terminator |
| Lines.JoinLinesHead | src/com/afollestad/polarupgradetool/GradleMigrator.java:60-63 | the written text is the first line, one separator, then the rest written the same way |
| Lines.ReadSeparated | src/com/afollestad/polarupgradetool/GradleMigrator.java:35 | a line followed by `\n` or `\r\n` is read as that line, then the lines of what follows |
| Lines.ReadJoinRoundTrip | src/com/afollestad/polarupgradetool/GradleMigrator.java:35-43 | reading back the written lines gives the same lines, when none holds a terminator and the last is not empty |
| Files.FileStore.Delete | src/main/java/com/afollestad/polarupgradetool/Main.java:56-57 | `delete()` reports whether the file existed and removes that file only |
| Files.FileStore.Write | src/com/afollestad/polarupgradetool/GradleMigrator.java:57-63 | writing a file creates or replaces only that file's content |
| Files.FileStore.RenameTo | src/main/java/com/afollestad/polarupgradetool/Main.java:160 | `renameTo` succeeds only for an existing source the platform permits; the content moves, and a failed rename changes nothing |
| GradleMigration.PatchLineUpTo | src/com/afollestad/polarupgradetool/GradleMigrator.java:36-41 | the line after the first `i` passes of the property loop: each pass whose `name + " "` occurs in the current line rewrites it, a missing value fails (a definition; see the PatchLine lemmas) |
| GradleMigration.PatchLine | src/com/afollestad/polarupgradetool/GradleMigrator.java:36-41 | the line after the whole property loop (a definition; see the PatchLine lemmas) |
| GradleMigration.PatchLines | src/com/afollestad/polarupgradetool/GradleMigrator.java:35-43 | the read phase succeeds iff every line patches; then exactly one output line per input line, in order, each the patched input line |
| GradleMigration.PatchLineUntouched | src/com/afollestad/polarupgradetool/GradleMigrator.java:36-39 | a line containing no `name + " "` for any property is kept unchanged |
| GradleMigration.PatchLineSingleKey | src/com/afollestad/polarupgradetool/GradleMigrator.java:38-40 | a line matching exactly one property becomes exactly `name + " " + value`, dropping the old value and any indentation |
| GradleMigration.PatchLineRewrittenFrom | src/com/afollestad/polarupgradetool/GradleMigrator.java:36-41 | after the first match, the line stays some property's whole `name value` line whatever later properties do |
| GradleMigration.PatchLineRewritten | src/com/afollestad/polarupgradetool/GradleMigrator.java:36-41 | a matching line ends as the `name value` line of the last property whose test hit the already rewritten line, at or after the first match; no later name occurs in it |
| GradleMigration.PatchLineKeeps | src/com/afollestad/polarupgradetool/GradleMigrator.java:36-41 | a rewritten line in which no later name occurs is kept to the end |
| GradleMigration.PatchLineStaysFailed | src/com/afollestad/polarupgradetool/GradleMigrator.java:40-46 | once the read phase failed on a line, it stays failed |
| GradleMigration.PatchLineTotal | src/com/afollestad/polarupgradetool/GradleMigrator.java:36-41 | with a value for every property name, patching a line never fails |
| GradleMigration.MissingValueFails | src/com/afollestad/polarupgradetool/GradleMigrator.java:40-46 | a line matched by a property that has no value makes the read phase fail |
| GradleMigration.ApplicationIdScenario | src/com/afollestad/polarupgradetool/GradleMigrator.java:35-43 | an indented `applicationId "com.old.app"` line becomes `applicationId com.new.app`; the other lines stay |
| GradleMigration.GradleMigrator.constructor | src/com/afollestad/polarupgradetool/GradleMigrator.java:16-22 | the migrator keeps the file and both property lists as given |
| GradleMigration.GradleMigrator.ReadPatched | src/com/afollestad/polarupgradetool/GradleMigrator.java:30-50 | the nested read loops compute exactly `PatchLines` of the file's lines, None on a missing value |
| GradleMigration.GradleMigrator.Written | src/com/afollestad/polarupgradetool/GradleMigrator.java:56-70 | the writer's output is the lines with one separator between consecutive lines, none before the first or after the last |
| GradleMigration.GradleMigrator.Process | src/com/afollestad/polarupgradetool/GradleMigrator.java:25-74 | false iff the file is missing, the read phase fails or it is not writable; otherwise true, or an exception (None) exactly when `cleanupPath` of the file throws; a read failure leaves the files untouched; a write failure leaves the file deleted; after a write the file holds exactly the patched lines joined |
| XmlExtraction.Finds | src/com/afollestad/polarupgradetool/XmlElementExtractor.java:47-48 | `matcher.find()` of one pattern on one line (a definition; `FindsIff` states its meaning) |
| XmlExtraction.Extracted | src/com/afollestad/polarupgradetool/XmlElementExtractor.java:45-55 | the map the read loop builds from the lines (a definition; `ExtractedKeys`, `ExtractedLastWins`, `ExtractedSize` state its properties) |
| XmlExtraction.FindsIff | src/com/afollestad/polarupgradetool/XmlElementExtractor.java:13-25 | testing only the first opening tag finds a hit exactly when the line holds the opening tag with a closing tag at or after its end |
| XmlExtraction.FindsMatches | src/com/afollestad/polarupgradetool/XmlElementExtractor.java:47-48 | a hit of `matcher.find()` is an opening tag followed by a closing tag on the same line |
| XmlExtraction.MatchFound | src/com/afollestad/polarupgradetool/XmlElementExtractor.java:47-48 | any opening tag followed by a closing tag on the line makes `matcher.find()` hit |
| XmlExtraction.AppNameLineFound | src/com/afollestad/polarupgradetool/XmlElementExtractor.java:13-55 | `<string name="app_name">OldName</string>` on one line is found by the app_name pattern, and a file of that line yields the map app_name -> OldName |
| XmlExtraction.ExtractedKeys | src/com/afollestad/polarupgradetool/XmlElementExtractor.java:45-55 | a name is in the result iff some hit line carries that name |
| XmlExtraction.ExtractedLastWins | src/com/afollestad/polarupgradetool/XmlElementExtractor.java:49-51 | the value recorded for a name is that of the last hit line carrying it |
| XmlExtraction.ExtractedSize | src/com/afollestad/polarupgradetool/XmlElementExtractor.java:46-53 | at most one entry per line: the map has no more keys than the file has lines |
| XmlExtraction.ExtractedNoMatch | src/com/afollestad/polarupgradetool/XmlElementExtractor.java:38-64 | a file with no matching line gives an empty map, not null |
| XmlExtraction.PatternsFor | src/com/afollestad/polarupgradetool/XmlElementExtractor.java:22-26 | one pattern per (tag, name) pair, in index order |
| XmlExtraction.XmlElementExtractor.constructor | src/com/afollestad/polarupgradetool/XmlElementExtractor.java:21-26 | the pattern array is freshly built, holding one pattern per pair in order |
| XmlExtraction.XmlElementExtractor.Create | src/com/afollestad/polarupgradetool/XmlElementExtractor.java:18-27 | construction fails exactly when either array is null or their lengths differ, and otherwise builds the patterns |
| XmlExtraction.XmlElementExtractor.Matches | src/com/afollestad/polarupgradetool/XmlElementExtractor.java:46-54 | the pattern loop, stopping at the first hit, hits iff some pattern finds the line |
| XmlExtraction.XmlElementExtractor.Find | src/com/afollestad/polarupgradetool/XmlElementExtractor.java:29-65 | null iff the file is missing or reading fails; otherwise the map `Extracted` of the file's lines |
| MainBase.CleanupPath | src/main/java/com/afollestad/polarupgradetool/MainBase.java:23-30 | the CURRENT_DIR prefix is stripped first, else the EXTRACTED_ZIP_ROOT prefix, else nothing; the result is a suffix of the input and never longer; a null root throws when CURRENT_DIR does not match |
| MainBase.Progress | src/main/java/com/afollestad/polarupgradetool/MainBase.java:38-52 | the bar has percent/10 '=' then 10 − percent/10 spaces, with Java's truncating division; exactly ten characters for 0 ≤ percent ≤ 100 |
| MainBase.Receive | src/main/java/com/afollestad/polarupgradetool/MainBase.java:100-148 | what receiving and extracting the archive reports and sets EXTRACTED_ZIP_ROOT to, by how the transfer ends (a definition; `DownloadSucceeds` states its use) |
| MainBase.Download | src/main/java/com/afollestad/polarupgradetool/MainBase.java:66-154 | the recursive `downloadArchive` as a function of TRIES and the pending responses (a definition; the Download lemmas below state its properties) |
| MainBase.DownloadRetriesOnce | src/main/java/com/afollestad/polarupgradetool/MainBase.java:83-92 | at most two connections; the second only when TRIES was 0 and the first length was missing or blank; TRIES becomes 1 exactly then |
| MainBase.NoSecondRetry | src/main/java/com/afollestad/polarupgradetool/MainBase.java:84-88 | with TRIES above 0 a missing length fails at once with the error event and no retry |
| MainBase.ContactingOnlyFirst | src/main/java/com/afollestad/polarupgradetool/MainBase.java:70-73 | "Contacting GitHub" is reported once, first, when TRIES is 0, and never when TRIES is above 0 |
| MainBase.NoContactingOnRetry | src/main/java/com/afollestad/polarupgradetool/MainBase.java:70-73 | the retry does not report "Contacting GitHub" |
| MainBase.DownloadSucceeds | src/main/java/com/afollestad/polarupgradetool/MainBase.java:83-153 | the fetch succeeds iff a response with a parsable length completes, first time or on the one retry; then EXTRACTED_ZIP_ROOT is CURRENT_DIR/PolarLatest/polar-dashboard-master |
| MainBase.DownloadNeverSignalsSuccess | src/main/java/com/afollestad/polarupgradetool/MainBase.java:66-154 | fetching never reports the whole update as successful |
| MainBase.Network.Connect | src/main/java/com/afollestad/polarupgradetool/MainBase.java:76-78 | each connection consumes the next pending response |
| Upgrade.IsBlacklisted | src/main/java/com/afollestad/polarupgradetool/Main.java:252-263 | every file the blanket copies skip is an XML file |
| Upgrade.OnCopyLine | src/main/java/com/afollestad/polarupgradetool/Main.java:79-94 | `onCopyLine` fails (throws) exactly for the interceptor substituting a null package, whatever the line; a line without the template package comes through unchanged |
| Upgrade.CopyFlow | src/main/java/com/afollestad/polarupgradetool/Main.java:79-94 | a copy leaves `upgrade` with an exception exactly when a line reaches an interceptor whose `onCopyLine` throws; otherwise the run goes on |
| Upgrade.CopyLineMeaning | src/main/java/com/afollestad/polarupgradetool/Main.java:79-94 | the package copy fails iff the user package is null; a line without the template package is kept; the length changes per replacement; the template's own package changes nothing |
| Upgrade.LicensingCopiesVerbatim | src/main/java/com/afollestad/polarupgradetool/Main.java:107-122 | the licensing copy keeps every line and skips nothing |
| Upgrade.BackupName | src/main/java/com/afollestad/polarupgradetool/Main.java:54-55 | the app name with every space turned into '_', no space left, followed by "-BACKUP.zip" |
| Upgrade.BackupReplacesOld | src/main/java/com/afollestad/polarupgradetool/Main.java:54-61 | an old backup of the same name is deleted before `WriteZip` is called, every other file keeps its content, and the zip is written from the project directory |
| Upgrade.CompatRenamed | src/main/java/com/afollestad/polarupgradetool/Main.java:150-194 | the files after one compatibility rename (a definition; `CompatRenameOutcome` states its properties) |
| Upgrade.CompatRenameOutcome | src/main/java/com/afollestad/polarupgradetool/Main.java:150-194 | legacy absent: nothing changes; both present: legacy deleted; otherwise renamed when permitted; a failed rename is reported, changes nothing, and does not stop the run |
| Upgrade.MergedFilesBlacklisted | src/main/java/com/afollestad/polarupgradetool/Main.java:252-263 | every values file merged separately and every renamed-to name is blacklisted, so the blanket resource copy leaves it alone |
| Upgrade.Step | src/main/java/com/afollestad/polarupgradetool/Main.java:35-249 | one stage of `upgrade` from a given state (a definition; `StageStops`, `StepQuiet` and the stage methods of `Tool` state its properties) |
| Upgrade.Run | src/main/java/com/afollestad/polarupgradetool/Main.java:27-250 | the first `n` stages run in order, stopping at the first that does not proceed (a definition; `RunStops`, `RunProceedsIff`, `RunQuiet` state its properties) |
| Upgrade.PlanStages | src/main/java/com/afollestad/polarupgradetool/Main.java:27-250 | the seventeen stages of `upgrade`, in the order the method runs them |
| Upgrade.NullAppNameCrashes | src/main/java/com/afollestad/polarupgradetool/Main.java:44-55 | a project identified without an app name ends `upgrade` with the exception of the backup's `replace`, not with a return |
| Upgrade.StageStops | src/main/java/com/afollestad/polarupgradetool/Main.java:42-244 | a stage ends the run exactly when: a null attribute map; a null app name or a failed backup; a failed download; a null package in the manifest, Java or resource copy once a line reaches the interceptor; a failed Gradle step; or a failed merge; exactly the null app name and the null package throw |
| Upgrade.RunStops | src/main/java/com/afollestad/polarupgradetool/Main.java:42-244 | once a stage returns or throws, no later stage runs and nothing more changes |
| Upgrade.RunProceedsIff | src/main/java/com/afollestad/polarupgradetool/Main.java:27-250 | a run goes through iff every stage, run from the state the earlier ones left, proceeds |
| Upgrade.StepQuiet | src/main/java/com/afollestad/polarupgradetool/Main.java:249 | no stage but the last reports the update as successful |
| Upgrade.RunQuiet | src/main/java/com/afollestad/polarupgradetool/Main.java:27-245 | a run of stages without the final one never reports success |
| Upgrade.SuccessSignalledIffComplete | src/main/java/com/afollestad/polarupgradetool/Main.java:246-249 | `onUpdateSuccessful` is sent iff every stage went through |
| Upgrade.CompletedRunMergedAll | src/main/java/com/afollestad/polarupgradetool/Main.java:221-244 | a completed run merged each of the five values files successfully |
| Upgrade.RunKeepsCurrentDir | src/main/java/com/afollestad/polarupgradetool/Main.java:29 | no stage changes the project directory |
| Upgrade.ChangelogCopiedBeforeMerge | src/main/java/com/afollestad/polarupgradetool/Main.java:150-235 | the changelog rename comes before the resource copy; the upstream dev_changelog.xml is copied only when the project lacks one, just before its merge |
| Upgrade.DetectedAppName | src/main/java/com/afollestad/polarupgradetool/Main.java:38-46 | after identification the app name is set iff a strings.xml line holds an app_name element, and is the last such line's value |
| Upgrade.Tool.constructor | src/main/java/com/afollestad/polarupgradetool/MainBase.java:19-20 | before any run the static fields are unset and TRIES is 0 |
| Upgrade.Tool.Identify | src/main/java/com/afollestad/polarupgradetool/Main.java:35-52 | reading the identity does what the identification stage describes |
| Upgrade.Tool.BackUp | src/main/java/com/afollestad/polarupgradetool/Main.java:54-68 | the backup does what the backup stage describes |
| Upgrade.Tool.Fetch | src/main/java/com/afollestad/polarupgradetool/Main.java:71 | the download does what the fetch stage describes |
| Upgrade.Tool.DownloadArchive | src/main/java/com/afollestad/polarupgradetool/MainBase.java:66-154 | the recursive download changes TRIES, EXTRACTED_ZIP_ROOT, the events and the pending responses exactly as `Download` says, and nothing else |
| Upgrade.Tool.ReceiveArchive | src/main/java/com/afollestad/polarupgradetool/MainBase.java:100-148 | download and extraction set EXTRACTED_ZIP_ROOT and report as `Receive` says |
| Upgrade.Tool.MigrateManifest | src/main/java/com/afollestad/polarupgradetool/Main.java:74-94 | the manifest copy as its stage describes |
| Upgrade.Tool.MigrateGradleFile | src/main/java/com/afollestad/polarupgradetool/Main.java:97-100 | the Gradle migration as its stage describes |
| Upgrade.Tool.MigrateLicensing | src/main/java/com/afollestad/polarupgradetool/Main.java:103-122 | the licensing copy as its stage describes |
| Upgrade.Tool.MigrateJava | src/main/java/com/afollestad/polarupgradetool/Main.java:127-148 | the Java diff and copy as their stage describes |
| Upgrade.Tool.RenameLegacyFile | src/main/java/com/afollestad/polarupgradetool/Main.java:151-194 | one compatibility rename as its stage describes |
| Upgrade.Tool.MigrateResources | src/main/java/com/afollestad/polarupgradetool/Main.java:197-216 | the resource diff and copy as their stage describes |
| Upgrade.Tool.MergeValuesFile | src/main/java/com/afollestad/polarupgradetool/Main.java:219-244 | one values merge as its stage describes |
| Upgrade.Tool.EnsureChangelog | src/main/java/com/afollestad/polarupgradetool/Main.java:229-232 | the changelog copy as its stage describes |
| Upgrade.Tool.Complete | src/main/java/com/afollestad/polarupgradetool/Main.java:246-249 | the completion reports as the final stage describes |
| Upgrade.Tool.Prepare | src/main/java/com/afollestad/polarupgradetool/Main.java:28-71 | identification, backup and download leave the tool where the first three stages of the plan do |
| Upgrade.Tool.MigrateCode | src/main/java/com/afollestad/polarupgradetool/Main.java:73-148 | the code migration leaves the tool where the first seven stages do |
| Upgrade.Tool.MigrateResourceFiles | src/main/java/com/afollestad/polarupgradetool/Main.java:150-216 | the renames and the resource copy leave the tool where the first ten stages do |
| Upgrade.Tool.MergeFirstValues | src/main/java/com/afollestad/polarupgradetool/Main.java:218-232 | the first two merges and the changelog copy leave the tool where the first thirteen stages do |
| Upgrade.Tool.MergeLastValues | src/main/java/com/afollestad/polarupgradetool/Main.java:234-249 | the last three merges and the completion leave the tool where the whole plan does |
| Upgrade.Tool.Upgrade | src/main/java/com/afollestad/polarupgradetool/Main.java:27-250 | `upgrade` leaves the files, static fields, events and external calls exactly as running the plan does, with early returns, and reports how it ended: completed, returned early, or left by an exception |

## Left out

- UnzipUtil, and the byte streaming of the download and the extraction. A
  transfer is reduced to how it ends: `ZipNotCreated` (the
  `FileOutputStream` of MainBase.java line 103 fails, before the download is
  announced), `DownloadBroken`, `ExtractionBroken` or `Completed`.
- Upgrade.BackupReplacesOld: the file store does not receive what classes
  outside the model write. The backup zip (`ZipUtil`, Main.java line 61), the
  `FileUtil.copyFolder` copies and the `XmlMigrator` merges are recorded
  `Call`s only. So after a successful backup the store does not hold the
  archive, and the `WriteZip` call stands for it.
- Upgrade.Tool.Upgrade: for the same reason, the files after a complete run
  are the project's files less the old backup and with the two compatibility
  renames applied. The copied manifest, licensing module, Java sources and
  resources, the backup and the merged values files appear only as the
  recorded calls.
- Upgrade.Tool.ReceiveArchive: does not report the `onArchiveDownloadProgress`
  events of the buffer loop (MainBase.java lines 112-117). Those need the byte
  counts and the floating-point percentage.
- MainBase.Receive: leaves out the same `onArchiveDownloadProgress` events
  (MainBase.java line 115), for the same reason.
- Upgrade.Tool.ReceiveArchive: does not model the "Removed %d files/folders"
  status or the wipe of an existing PolarLatest folder (lines 129-134). The
  count comes from `FileUtil.wipe`, which is outside the model.
- MainBase.Receive: leaves out the same "Removed %d files/folders" status
  (MainBase.java line 132), for the same reason.
- Upgrade.Tool.ReceiveArchive: does not model what the download does to the
  file store. PolarLatest.zip is written and deleted, and the archive is
  extracted, outside the store.
- MainBase.Progress: takes the percentage as an integer. The part of
  `PROGRESS` after the bar is not modelled: `Math.ceil` over doubles,
  `Util.round`, `readableFileSizeMB`, and the console output.
- `Thread.sleep(2000)` before the retry is not modelled. It is a delay only.
- `LOG` and `System.out` output are not modelled. Their text affects
  nothing; the one exception thrown while building a log line
  (`cleanupPath` in `GradleMigrator.process`) is modelled.
- UICallback messages are reduced to what they are about, not their text.
- The `catch (Throwable)` around the Content-Length is modelled only for a
  length that does not parse. `ParsesAsLong` accepts ASCII digits only. Java's
  `parseLong` also accepts other Unicode decimal digits.
- AttributeExtractor, ZipUtil, FileUtil.copyFolder and checkDiff,
  XmlMigrator, Util.skipPackage and the UICallback interface are not part of
  this model. They appear as recorded `Call`s, with results from `Env`.
- Upgrade.Tool.MigrateGradleFile: is an abstract stage. Its source calls a
  `GradleMigrator` constructor that does not match the modelled class, so it
  is not tied to `GradleMigrator.Process`.
- Upgrade.Tool.Complete: does not model `EXTRACTED_ZIP_ROOT.delete()`. Its
  result is ignored, and it cannot remove a non-empty folder.
- Files.FileStore.Delete: always succeeds on an existing file. `File.delete`
  failures (lines 57, 165 and 188 of Main.java, line 52 of GradleMigrator.java)
  are not modelled.
- Directories are not modelled. `IsBlacklisted` takes whether the entry is a
  directory as a parameter, and a missing path is not a directory.
- XmlExtraction.Finds: is a literal substring test, not a general regular
  expression. The tag and the name are assumed to hold no regular-expression
  metacharacters.
- GradleMigration.GradleMigrator.constructor: null `propertyNames` or
  `propertyValues` arrays, which make the Java constructor throw
  (GradleMigrator.java lines 18 and 20), are not modelled: the model takes
  sequences, which are never null.
- GradleMigration.GradleMigrator.Process: I/O failures other than a missing
  file are not modelled on the read side. On the write side they are the
  single `writable` flag. `CURRENT_DIR` is taken as set (a path, never
  null); only a null `EXTRACTED_ZIP_ROOT` makes `cleanupPath` throw.
- Upgrade.StageStops: `FileUtil.copyFolder` is not part of this model. The
  model assumes it lets an exception of `onCopyLine` escape, and reduces what
  it copies to whether any line reaches the interceptor
  (`Env.copyHandsOverLine`). A copy that catches the exception itself would
  make the three package-substituting copies proceed where the model says
  `Crash`.

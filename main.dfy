/**
 * Main.upgrade: the fixed sequence of stages that turns an existing Polar
 * icon-pack project into one based on the latest template, returning early when
 * a stage fails. The work of classes outside this model (the Gradle attribute
 * reader, the backup zip writer, folder copying and diffing, the XML merger and
 * the Gradle migrator of the revision `upgrade` was written against) is a
 * recorded call with its outcome supplied by an `Env`.
 */
module Upgrade {
  import opened Wrappers
  import opened Text
  import opened Lines
  import opened Files
  import opened UiEvents
  import opened MainBase
  import opened XmlExtraction

  const LICENSING_MODULE_ROOT := "/licensing"
  const GRADLE_FILE_PATH := "/app/build.gradle"
  const MAIN_FOLDER := "/app/src/main"
  const JAVA_FOLDER_PATH := MAIN_FOLDER + "/java"
  const RES_FOLDER_PATH := MAIN_FOLDER + "/res"
  const VALUES_FOLDER_PATH := MAIN_FOLDER + "/res" + "/values"
  const MANIFEST_FILE_PATH := MAIN_FOLDER + "/AndroidManifest.xml"
  /** The template's package name, replaced by the user's in copied lines. */
  const PLACEHOLDER_PACKAGE := "com.afollestad.polar"

  /**
   * `isBlacklisted(file)`: what the blanket copies leave alone. Directories:
   * launcher icon folders (mipmap*), drawable-nodpi and xml. Files: the values
   * files merged separately (strings.xml and dev_*.xml), theme_config.xml,
   * list_item_about_dev.xml and fragment_homepage.xml. A path that does not
   * exist is not a directory. Every file it skips is an XML file.
   */
  function IsBlacklisted(name: string, isDirectory: bool): (b: bool)
    ensures b && !isDirectory ==> EndsWith(name, ".xml")
  {
    if isDirectory then
      StartsWith(name, "mipmap") || name == "drawable-nodpi" || name == "xml"
    else
      || name == "list_item_about_dev.xml"
      || (StartsWith(name, "dev_") && EndsWith(name, ".xml"))
      || name == "theme_config.xml"
      || name == "strings.xml"
      || name == "fragment_homepage.xml"
  }

  /** What a copy does to each line it copies. */
  datatype LineTransform = KeepLine | ReplacePackage(userPackage: Option<string>)

  /** Which entries a copy passes over. */
  datatype SkipRule = SkipNothing | SkipBlacklisted

  /** A `FileUtil.CopyInterceptor` as `upgrade` builds them. */
  datatype Interceptor = Interceptor(transform: LineTransform, skip: SkipRule, logging: bool)

  /** The interceptor substitutes a package that is null. */
  predicate ThrowsOnLine(ic: Interceptor) {
    ic.transform == ReplacePackage(None)
  }

  /**
   * `onCopyLine(file, line)`. Replacing with a null USER_PACKAGE throws a
   * NullPointerException, modelled as None: every line fails alike, and a
   * line that does not mention the template package comes through unchanged.
   */
  function OnCopyLine(ic: Interceptor, line: string): (r: Option<string>)
    ensures r.None? <==> ThrowsOnLine(ic)
    ensures r.Some? && !Contains(line, PLACEHOLDER_PACKAGE) ==> r.value == line
  {
    match ic.transform
    case KeepLine => Some(line)
    case ReplacePackage(p) =>
      if p.None? then None
      else
        var out := ReplaceAll(line, PLACEHOLDER_PACKAGE, p.value);
        assert !Contains(line, PLACEHOLDER_PACKAGE) ==> out == line by {
          if !Contains(line, PLACEHOLDER_PACKAGE) { ReplaceAllAbsent(line, PLACEHOLDER_PACKAGE, p.value); }
        }
        Some(out)
  }

  /**
   * How `upgrade` goes on after `FileUtil.copyFolder` with `ic`: the exception
   * of `onCopyLine` escapes as soon as a line is handed to an interceptor that
   * throws on it.
   */
  function CopyFlow(ic: Interceptor, handsOverLine: bool): (flow: Flow)
    ensures flow == Crash <==> handsOverLine && (exists line :: OnCopyLine(ic, line).None?)
    ensures flow != Crash ==> flow == Proceed
  {
    assert OnCopyLine(ic, "").None? <==> ThrowsOnLine(ic);
    if handsOverLine && ThrowsOnLine(ic) then Crash else Proceed
  }

  /** `skip(file)`. */
  predicate Skip(ic: Interceptor, name: string, isDirectory: bool) {
    ic.skip == SkipBlacklisted && IsBlacklisted(name, isDirectory)
  }

  /** The interceptor of the manifest, Java and resource copies. */
  function PackageInterceptor(userPackage: Option<string>, logging: bool): Interceptor {
    Interceptor(ReplacePackage(userPackage), SkipBlacklisted, logging)
  }

  /** The licensing module is copied verbatim and whole. */
  const LicensingInterceptor := Interceptor(KeepLine, SkipNothing, false)

  /**
   * What a package-substituting copy makes of one line: a failure exactly when
   * the user's package is unknown; otherwise the line unchanged when it does not
   * mention the template package, and in any case a line whose length changes
   * by the package-length difference once per replaced occurrence.
   */
  lemma CopyLineMeaning(userPackage: Option<string>, logging: bool, line: string)
    ensures var r := OnCopyLine(PackageInterceptor(userPackage, logging), line);
      && (r.None? <==> userPackage.None?)
      && (r.Some? && !Contains(line, PLACEHOLDER_PACKAGE) ==> r.value == line)
      && (r.Some? ==> |r.value| == |line| + Count(line, PLACEHOLDER_PACKAGE) * (|userPackage.value| - |PLACEHOLDER_PACKAGE|))
      && (userPackage == Some(PLACEHOLDER_PACKAGE) ==> r == Some(line))
  {
    if userPackage.Some? {
      var p := userPackage.value;
      ReplaceAllLength(line, PLACEHOLDER_PACKAGE, p);
      if !Contains(line, PLACEHOLDER_PACKAGE) {
        ReplaceAllAbsent(line, PLACEHOLDER_PACKAGE, p);
      }
      ReplaceAllSelf(line, PLACEHOLDER_PACKAGE);
    }
  }

  /** The licensing copy changes no line and skips no entry. */
  lemma LicensingCopiesVerbatim(line: string, name: string, isDirectory: bool)
    ensures OnCopyLine(LicensingInterceptor, line) == Some(line)
    ensures !Skip(LicensingInterceptor, name, isDirectory)
  {
  }

  /**
   * The backup archive's file name: the app name with every space replaced by
   * an underscore, followed by "-BACKUP.zip".
   */
  function BackupName(appName: string): (r: string)
    ensures |r| == |appName| + |"-BACKUP.zip"|
    ensures forall i :: 0 <= i < |appName| ==> r[i] == if appName[i] == ' ' then '_' else appName[i]
    ensures EndsWith(r, "-BACKUP.zip")
    ensures forall i :: 0 <= i < |appName| ==> r[i] != ' '
  {
    ReplaceCharAt(appName, " ", "_");
    var r := ReplaceAll(appName, " ", "_") + "-BACKUP.zip";
    assert r[|r| - |"-BACKUP.zip"|..] == "-BACKUP.zip";
    r
  }

  /** `new File(new File(root, VALUES_FOLDER_PATH), name)`. */
  function ValuesFile(root: Path, name: string): Path {
    Child(Under(root, VALUES_FOLDER_PATH), name)
  }

  /**
   * The files after a compatibility rename of `legacy` to `current`: nothing to
   * do without the legacy file; the legacy file is deleted when the current one
   * already exists; otherwise it is renamed when the platform permits.
   */
  function CompatRenamed(files: map<Path, string>, legacy: Path, current: Path, permitted: bool): map<Path, string> {
    if legacy !in files then files
    else if current in files then files - {legacy}
    else if permitted then (files - {legacy})[current := files[legacy]]
    else files
  }

  /** What a compatibility rename reports: the rename and its failure, or that the legacy file is absent. */
  function CompatRenameEvents(files: map<Path, string>, legacy: Path, current: Path, legacyName: string,
                              permitted: bool): seq<Event> {
    if legacy !in files then [StatusUpdate(LegacyFileMissing(legacyName))]
    else if current in files then []
    else [StatusUpdate(Renaming(legacy, current))] + (if permitted then [] else [ErrorOccurred(RenameFailed(legacy))])
  }

  /**
   * The three-way decision of a compatibility rename: no other file changes;
   * afterwards the current name holds the content it held, or else the legacy
   * content when the rename went through; the legacy file is gone exactly when
   * it was superseded or renamed; and a failed rename leaves everything as it
   * was, reported by an error event.
   */
  lemma CompatRenameOutcome(files: map<Path, string>, legacy: Path, current: Path, legacyName: string, permitted: bool)
    requires legacy != current
    ensures var after := CompatRenamed(files, legacy, current, permitted);
      var events := CompatRenameEvents(files, legacy, current, legacyName, permitted);
      && (forall p :: p != legacy && p != current ==> (p in after <==> p in files) && (p in after ==> after[p] == files[p]))
      && (current in after <==> current in files || (legacy in files && permitted))
      && (current in after ==> after[current] == if current in files then files[current] else files[legacy])
      && (legacy in after <==> legacy in files && current !in files && !permitted)
      && (legacy in after ==> after[legacy] == files[legacy])
      && (ErrorOccurred(RenameFailed(legacy)) in events <==> after == files && legacy in files && current !in files)
  {
  }

  /** An external piece of work `upgrade` hands to a class outside this model. */
  datatype Call =
    | FindGradleAttributes(file: Path)
    | WriteZip(directory: Path, archive: Path)
    | CopyFolder(source: Path, dest: Path, interceptor: Option<Interceptor>)
    | MigrateGradle(source: Path, dest: Path)
    | CheckDiff(project: Path, latest: Path)
    | MergeXml(project: Path, latest: Path)

  /**
   * How the outside world answers: whether `FileUtil.copyFolder(source, dest, …)`
   * hands at least one line to its interceptor (and lets what the interceptor
   * throws escape), the attributes read from build.gradle (None
   * for null), whether strings.xml can be read and AttributeExtractor's
   * name/value helpers, whether the backup zip is written, whether the Gradle
   * migration and each XML merge succeed, Util.skipPackage, and whether the
   * platform permits a rename.
   */
  datatype Env = Env(
    copyHandsOverLine: (Path, Path) -> bool,
    gradleAttributes: Option<map<string, string>>,
    stringsReadable: bool,
    nameOf: string -> string,
    valueOf: string -> string,
    backupWritten: bool,
    gradleMigrated: bool,
    mergeSucceeds: (Path, Path) -> bool,
    skipPackage: Path -> Path,
    renamePermitted: (Path, Path) -> bool)

  /** `HashMap.get`. */
  function Lookup(m: map<string, string>, key: string): Option<string> {
    if key in m then Some(m[key]) else None
  }

  /** The stages of `upgrade`. */
  datatype Stage =
    | IdentifyProject
    | BackUpProject
    | FetchLatest
    | CopyManifest
    | PatchGradle
    | CopyLicensing
    | CopyJava
    | RenameLegacy(legacyName: string, currentName: string)
    | CopyResources
    | MergeValues(fileName: string)
    | CopyChangelogIfMissing
    | Finish

  /** The values files `upgrade` merges, and the legacy names it renames. */
  const STRINGS_XML := "strings.xml"
  const DEV_ABOUT_XML := "dev_about.xml"
  const DEV_CHANGELOG_XML := "dev_changelog.xml"
  const DEV_CUSTOMIZATION_XML := "dev_customization.xml"
  const DEV_THEMING_XML := "dev_theming.xml"
  const CHANGELOG_XML := "changelog.xml"
  const DEV_OPTIONS_XML := "dev_options.xml"

  /** The stages in the order `upgrade` runs them. */
  const Plan: seq<Stage> := [
    IdentifyProject, BackUpProject, FetchLatest, CopyManifest, PatchGradle, CopyLicensing, CopyJava,
    RenameLegacy(CHANGELOG_XML, DEV_CHANGELOG_XML), RenameLegacy(DEV_OPTIONS_XML, DEV_CUSTOMIZATION_XML),
    CopyResources, MergeValues(STRINGS_XML), MergeValues(DEV_ABOUT_XML), CopyChangelogIfMissing,
    MergeValues(DEV_CHANGELOG_XML), MergeValues(DEV_CUSTOMIZATION_XML), MergeValues(DEV_THEMING_XML),
    Finish]

  /** The static state of Main and MainBase, the network's remaining answers and the files. */
  datatype World = World(files: map<Path, string>, currentDir: Path, extractedRoot: Option<Path>, tries: nat,
                         user: Identity, pending: seq<Response>)

  /** Go on with the next stage, return from `upgrade`, or leave it with an exception. */
  datatype Flow = Proceed | Return | Crash

  datatype Outcome = Outcome(flow: Flow, world: World, events: seq<Event>, calls: seq<Call>)

  function StringsFile(currentDir: Path): Path {
    ValuesFile(currentDir, STRINGS_XML)
  }

  /** The extractor `upgrade` builds for strings.xml: `<string name="app_name">` elements. */
  const AppNamePatterns := [Pattern("string", "app_name")]

  /** What `stringsExtractor.find()` returns. */
  function FindStrings(files: map<Path, string>, currentDir: Path, env: Env): Option<map<string, string>> {
    var file := StringsFile(currentDir);
    if file !in files || !env.stringsReadable then None
    else Some(Extracted(ReadLines(files[file]), Hits(AppNamePatterns), env.nameOf, env.valueOf))
  }

  /** Reading the project's identity (lines 35-52 of Main.java). */
  function IdentifyStep(env: Env, w: World): Outcome {
    var findGradle := [FindGradleAttributes(Under(w.currentDir, GRADLE_FILE_PATH))];
    var strings := FindStrings(w.files, w.currentDir, env);
    if env.gradleAttributes.None? || strings.None? then Outcome(Return, w, [], findGradle)
    else
      var gradle := env.gradleAttributes.value;
      var user := Identity(Lookup(strings.value, "app_name"), Lookup(gradle, "applicationId"),
                           Lookup(gradle, "versionName"), Lookup(gradle, "versionCode"));
      Outcome(Proceed, w.(user := user), [ProjectDetected(user)], findGradle)
  }

  /** Replacing the backup archive; a null app name throws. */
  function BackUpStep(env: Env, w: World): Outcome {
    if w.user.appName.None? then Outcome(Crash, w, [], [])
    else
      var archive := Child(w.currentDir, BackupName(w.user.appName.value));
      var cleared := w.(files := w.files - {archive});
      var backingUp := [StatusUpdate(BackingUp(archive))];
      if env.backupWritten then
        Outcome(Proceed, cleared, backingUp + [StatusUpdate(BackedUp)], [WriteZip(w.currentDir, archive)])
      else Outcome(Return, cleared, backingUp + [ErrorOccurred(BackupFailed)], [WriteZip(w.currentDir, archive)])
  }

  function FetchStep(w: World): Outcome {
    var f := Download(w.tries, w.pending, w.currentDir, w.extractedRoot);
    Outcome(if f.ok then Proceed else Return,
            w.(tries := f.tries, extractedRoot := f.extractedRoot, pending := f.pending), f.events, [])
  }

  /** `new File(EXTRACTED_ZIP_ROOT, child)`; with a null root Java's File is just `child`. */
  function Latest(w: World, child: string): Path {
    Under(w.extractedRoot.GetOr(""), child)
  }

  function CopyManifestStep(env: Env, w: World): Outcome {
    var source := Latest(w, MANIFEST_FILE_PATH);
    var dest := Under(w.currentDir, MANIFEST_FILE_PATH);
    var ic := PackageInterceptor(w.user.packageName, false);
    Outcome(CopyFlow(ic, env.copyHandsOverLine(source, dest)), w, [StatusUpdate(MigratingManifest)],
            [CopyFolder(source, dest, Some(ic))])
  }

  function PatchGradleStep(env: Env, w: World): Outcome {
    Outcome(if env.gradleMigrated then Proceed else Return, w, [],
            [MigrateGradle(Under(w.currentDir, GRADLE_FILE_PATH), Latest(w, GRADLE_FILE_PATH))])
  }

  function CopyLicensingStep(w: World): Outcome {
    Outcome(Proceed, w, [StatusUpdate(MigratingLicensing)],
            [CopyFolder(Latest(w, LICENSING_MODULE_ROOT), Under(w.currentDir, LICENSING_MODULE_ROOT),
                        Some(LicensingInterceptor))])
  }

  function CopyJavaStep(env: Env, w: World): Outcome {
    var source := env.skipPackage(Latest(w, JAVA_FOLDER_PATH));
    var dest := env.skipPackage(Under(w.currentDir, JAVA_FOLDER_PATH));
    var ic := PackageInterceptor(w.user.packageName, true);
    Outcome(CopyFlow(ic, env.copyHandsOverLine(source, dest)), w, [], [CheckDiff(dest, source), CopyFolder(source, dest, Some(ic))])
  }

  function RenameLegacyStep(legacyName: string, currentName: string, env: Env, w: World): Outcome {
    var legacy := ValuesFile(w.currentDir, legacyName);
    var current := ValuesFile(w.currentDir, currentName);
    var permitted := env.renamePermitted(legacy, current);
    Outcome(Proceed, w.(files := CompatRenamed(w.files, legacy, current, permitted)),
            CompatRenameEvents(w.files, legacy, current, legacyName, permitted), [])
  }

  function CopyResourcesStep(env: Env, w: World): Outcome {
    var source := Latest(w, RES_FOLDER_PATH);
    var dest := Under(w.currentDir, RES_FOLDER_PATH);
    var ic := PackageInterceptor(w.user.packageName, true);
    Outcome(CopyFlow(ic, env.copyHandsOverLine(source, dest)), w, [], [CheckDiff(dest, source), CopyFolder(source, dest, Some(ic))])
  }

  function MergeStep(name: string, env: Env, w: World): Outcome {
    var project := ValuesFile(w.currentDir, name);
    var latest := ValuesFile(w.extractedRoot.GetOr(""), name);
    Outcome(if env.mergeSucceeds(project, latest) then Proceed else Return, w, [], [MergeXml(project, latest)])
  }

  function CopyChangelogStep(w: World): Outcome {
    var project := ValuesFile(w.currentDir, DEV_CHANGELOG_XML);
    var latest := ValuesFile(w.extractedRoot.GetOr(""), DEV_CHANGELOG_XML);
    Outcome(Proceed, w, [], if project in w.files then [] else [CopyFolder(latest, project, None)])
  }

  function FinishStep(w: World): Outcome {
    Outcome(Proceed, w, [StatusUpdate(UpgradeComplete(w.user.appName)), UpdateSuccessful], [])
  }

  /** One stage, as the corresponding lines of `upgrade` execute it. */
  function Step(stage: Stage, env: Env, w: World): Outcome {
    match stage
    case IdentifyProject => IdentifyStep(env, w)
    case BackUpProject => BackUpStep(env, w)
    case FetchLatest => FetchStep(w)
    case CopyManifest => CopyManifestStep(env, w)
    case PatchGradle => PatchGradleStep(env, w)
    case CopyLicensing => CopyLicensingStep(w)
    case CopyJava => CopyJavaStep(env, w)
    case RenameLegacy(legacyName, currentName) => RenameLegacyStep(legacyName, currentName, env, w)
    case CopyResources => CopyResourcesStep(env, w)
    case MergeValues(name) => MergeStep(name, env, w)
    case CopyChangelogIfMissing => CopyChangelogStep(w)
    case Finish => FinishStep(w)
  }

  /** The outcome of running `step` after `before`. */
  function Then(before: Outcome, step: Outcome): Outcome {
    Outcome(step.flow, step.world, before.events + step.events, before.calls + step.calls)
  }

  /** The outcome of the first `n` stages, run in order from `w` and stopping at the first that does not proceed. */
  function Run(stages: seq<Stage>, n: nat, env: Env, w: World): Outcome
    requires n <= |stages|
  {
    if n == 0 then Outcome(Proceed, w, [], [])
    else
      var before := Run(stages, n - 1, env, w);
      if before.flow != Proceed then before
      else Then(before, Step(stages[n - 1], env, before.world))
  }

  /** The stages of `Plan`, one by one. */
  lemma PlanStages()
    ensures |Plan| == 17
    ensures Plan[0] == IdentifyProject && Plan[1] == BackUpProject && Plan[2] == FetchLatest
    ensures Plan[3] == CopyManifest && Plan[4] == PatchGradle && Plan[5] == CopyLicensing && Plan[6] == CopyJava
    ensures Plan[7] == RenameLegacy(CHANGELOG_XML, DEV_CHANGELOG_XML)
    ensures Plan[8] == RenameLegacy(DEV_OPTIONS_XML, DEV_CUSTOMIZATION_XML)
    ensures Plan[9] == CopyResources && Plan[10] == MergeValues(STRINGS_XML) && Plan[11] == MergeValues(DEV_ABOUT_XML)
    ensures Plan[12] == CopyChangelogIfMissing && Plan[13] == MergeValues(DEV_CHANGELOG_XML)
    ensures Plan[14] == MergeValues(DEV_CUSTOMIZATION_XML) && Plan[15] == MergeValues(DEV_THEMING_XML)
    ensures Plan[16] == Finish
  {
    EarlyStages();
    LateStages();
  }

  /** The stages of `Plan` up to the legacy renames. */
  lemma EarlyStages()
    ensures |Plan| == 17
    ensures Plan[0] == IdentifyProject && Plan[1] == BackUpProject && Plan[2] == FetchLatest
    ensures Plan[3] == CopyManifest && Plan[4] == PatchGradle && Plan[5] == CopyLicensing && Plan[6] == CopyJava
    ensures Plan[7] == RenameLegacy(CHANGELOG_XML, DEV_CHANGELOG_XML)
    ensures Plan[8] == RenameLegacy(DEV_OPTIONS_XML, DEV_CUSTOMIZATION_XML)
  {
  }

  /** The stages of `Plan` from the resource copy on. */
  lemma LateStages()
    ensures |Plan| == 17
    ensures Plan[9] == CopyResources && Plan[10] == MergeValues(STRINGS_XML) && Plan[11] == MergeValues(DEV_ABOUT_XML)
    ensures Plan[12] == CopyChangelogIfMissing && Plan[13] == MergeValues(DEV_CHANGELOG_XML)
    ensures Plan[14] == MergeValues(DEV_CUSTOMIZATION_XML) && Plan[15] == MergeValues(DEV_THEMING_XML)
    ensures Plan[16] == Finish
  {
  }

  /**
   * The bookkeeping of `Upgrade`: after the first `k` stages proceeded with
   * outcome `o`, stage `k` with outcome `s` gives the outcome of `k + 1` stages.
   */
  ghost function Extended(k: nat, env: Env, w0: World, o: Outcome, s: Outcome, events0: seq<Event>, calls0: seq<Call>)
    : (next: Outcome)
    requires k < |Plan| && o == Run(Plan, k, env, w0) && o.flow == Proceed
    requires s == Step(Plan[k], env, o.world)
    ensures next == Run(Plan, k + 1, env, w0) && next.world == s.world && next.flow == s.flow
    ensures events0 + next.events == (events0 + o.events) + s.events
    ensures calls0 + next.calls == (calls0 + o.calls) + s.calls
  {
    Then(o, s)
  }

  /** Once a stage returns or throws, no later stage runs: the outcome stays that of the stages so far. */
  lemma {:induction false} RunStops(stages: seq<Stage>, k: nat, n: nat, env: Env, w: World)
    requires k <= n <= |stages|
    requires Run(stages, k, env, w).flow != Proceed
    ensures Run(stages, n, env, w) == Run(stages, k, env, w)
    decreases n
  {
    if k < n {
      RunStops(stages, k, n - 1, env, w);
    }
  }

  /** Stage `k`, run from the state the stages before it leave, proceeds. */
  predicate StageProceeds(stages: seq<Stage>, k: nat, env: Env, w: World)
    requires k < |stages|
  {
    Step(stages[k], env, Run(stages, k, env, w).world).flow == Proceed
  }

  /** A run proceeds to its end exactly when every stage, from the state the earlier ones left, proceeds. */
  lemma {:induction false} RunProceedsIff(stages: seq<Stage>, n: nat, env: Env, w: World)
    requires n <= |stages|
    ensures Run(stages, n, env, w).flow == Proceed <==> forall k :: 0 <= k < n ==> StageProceeds(stages, k, env, w)
    decreases n
  {
    if n > 0 {
      RunProceedsIff(stages, n - 1, env, w);
      var before := Run(stages, n - 1, env, w);
      if before.flow == Proceed {
        var s := Step(stages[n - 1], env, before.world);
        assert Run(stages, n, env, w).flow == s.flow;
        assert StageProceeds(stages, n - 1, env, w) <==> s.flow == Proceed;
      } else {
        assert Run(stages, n, env, w) == before;
      }
    }
  }

  /** No stage but the last signals that the update was successful. */
  lemma StepQuiet(stage: Stage, env: Env, w: World)
    requires stage != Finish
    ensures UpdateSuccessful !in Step(stage, env, w).events
  {
    if stage == FetchLatest {
      DownloadNeverSignalsSuccess(w.tries, w.pending, w.currentDir, w.extractedRoot);
    }
  }

  lemma {:induction false} RunQuiet(stages: seq<Stage>, n: nat, env: Env, w: World)
    requires n <= |stages|
    requires forall k :: 0 <= k < n ==> stages[k] != Finish
    ensures UpdateSuccessful !in Run(stages, n, env, w).events
    decreases n
  {
    if n > 0 {
      RunQuiet(stages, n - 1, env, w);
      StepQuiet(stages[n - 1], env, Run(stages, n - 1, env, w).world);
    }
  }

  /** `onUpdateSuccessful` is signalled exactly when every stage of `upgrade`, all five merges included, went through. */
  lemma SuccessSignalledIffComplete(env: Env, w: World)
    ensures UpdateSuccessful in Run(Plan, |Plan|, env, w).events <==> Run(Plan, |Plan|, env, w).flow == Proceed
  {
    RunQuiet(Plan, |Plan| - 1, env, w);
  }

  /**
   * A completed run went through each of the five merges: every one of them
   * succeeded on the values file it was given.
   */
  lemma CompletedRunMergedAll(env: Env, w: World, k: nat)
    requires Run(Plan, |Plan|, env, w).flow == Proceed
    requires k < |Plan| && Plan[k].MergeValues?
    ensures var before := Run(Plan, k, env, w).world;
      env.mergeSucceeds(ValuesFile(before.currentDir, Plan[k].fileName),
                        ValuesFile(before.extractedRoot.GetOr(""), Plan[k].fileName))
  {
    RunProceedsIff(Plan, |Plan|, env, w);
    assert StageProceeds(Plan, k, env, w);
  }

  /** The run never changes the project directory. */
  lemma {:induction false} RunKeepsCurrentDir(stages: seq<Stage>, n: nat, env: Env, w: World)
    requires n <= |stages|
    ensures Run(stages, n, env, w).world.currentDir == w.currentDir
    decreases n
  {
    if n > 0 {
      RunKeepsCurrentDir(stages, n - 1, env, w);
    }
  }

  /** A values file the stage merges separately, or a name it renames a legacy file to, is left alone by the blanket resource copy. */
  predicate KeptOutOfCopy(st: Stage) {
    match st
    case MergeValues(fileName) => IsBlacklisted(fileName, false)
    case RenameLegacy(_, currentName) => IsBlacklisted(currentName, false)
    case _ => true
  }

  /** Every values file merged separately, and every name a legacy file is renamed to, is kept out of the blanket resource copy. */
  lemma MergedFilesBlacklisted()
    ensures forall k :: 0 <= k < |Plan| ==> KeptOutOfCopy(Plan[k])
  {
    EarlyKeptOut();
    LateKeptOut();
  }

  /** The legacy renames' new names are kept out of the blanket copy. */
  lemma EarlyKeptOut()
    ensures forall k :: 0 <= k < 9 ==> KeptOutOfCopy(Plan[k])
  {
    EarlyStages();
    forall k | 0 <= k < 9 ensures KeptOutOfCopy(Plan[k]) {
      if k == 7 {
        DevValuesKeptOut(RenameLegacy(CHANGELOG_XML, DEV_CHANGELOG_XML));
      } else if k == 8 {
        DevValuesKeptOut(RenameLegacy(DEV_OPTIONS_XML, DEV_CUSTOMIZATION_XML));
      }
    }
  }

  /** The values files merged separately are kept out of the blanket copy. */
  lemma LateKeptOut()
    ensures forall k :: 9 <= k < 17 ==> KeptOutOfCopy(Plan[k])
  {
    LateStages();
    forall k | 9 <= k < 17 ensures KeptOutOfCopy(Plan[k]) {
      if k == 10 {
        assert KeptOutOfCopy(MergeValues(STRINGS_XML));
      } else if k == 11 {
        DevValuesKeptOut(MergeValues(DEV_ABOUT_XML));
      } else if k == 13 {
        DevValuesKeptOut(MergeValues(DEV_CHANGELOG_XML));
      } else if k == 14 {
        DevValuesKeptOut(MergeValues(DEV_CUSTOMIZATION_XML));
      } else if k == 15 {
        DevValuesKeptOut(MergeValues(DEV_THEMING_XML));
      }
    }
  }

  /** A stage whose file is a `dev_*.xml` values file keeps it out of the blanket copy. */
  lemma DevValuesKeptOut(st: Stage)
    requires st.MergeValues? || st.RenameLegacy?
    requires var name := if st.MergeValues? then st.fileName else st.currentName;
      |name| >= 8 && name[..4] == "dev_" && name[|name| - 4..] == ".xml"
    ensures KeptOutOfCopy(st)
  {
    var name := if st.MergeValues? then st.fileName else st.currentName;
    assert StartsWith(name, "dev_") && EndsWith(name, ".xml");
  }

  /**
   * The legacy renames come before the resource copy and the merges, and the
   * upstream dev_changelog.xml is copied in, only when the project lacks one,
   * before that file's merge.
   */
  lemma ChangelogCopiedBeforeMerge(env: Env, w: World)
    ensures Plan[7] == RenameLegacy(CHANGELOG_XML, DEV_CHANGELOG_XML) && Plan[9] == CopyResources
    ensures Plan[12] == CopyChangelogIfMissing && Plan[13] == MergeValues(DEV_CHANGELOG_XML)
    ensures Step(CopyChangelogIfMissing, env, w).calls != [] <==> ValuesFile(w.currentDir, DEV_CHANGELOG_XML) !in w.files
  {
  }

  /**
   * After a successful identification the app name is the value of the last
   * strings.xml line that holds a `<string name="app_name">` element whose name
   * attribute reads app_name, and is null when there is none.
   */
  lemma DetectedAppName(env: Env, w: World)
    requires Step(IdentifyProject, env, w).flow == Proceed
    ensures StringsFile(w.currentDir) in w.files
    ensures var lines := ReadLines(w.files[StringsFile(w.currentDir)]);
      var detected := Step(IdentifyProject, env, w).world.user.appName;
      && (detected.Some? <==> exists i :: 0 <= i < |lines| && AnyFinds(AppNamePatterns, lines[i]) && env.nameOf(lines[i]) == "app_name")
      && (detected.Some? ==> detected.value == Extracted(lines, Hits(AppNamePatterns), env.nameOf, env.valueOf)["app_name"])
  {
    var lines := ReadLines(w.files[StringsFile(w.currentDir)]);
    var strings := Extracted(lines, Hits(AppNamePatterns), env.nameOf, env.valueOf);
    assert FindStrings(w.files, w.currentDir, env) == Some(strings);
    assert Step(IdentifyProject, env, w).world.user.appName == Lookup(strings, "app_name");
    ExtractedKeys(lines, Hits(AppNamePatterns), env.nameOf, env.valueOf, "app_name");
    var detected := Step(IdentifyProject, env, w).world.user.appName;
    assert detected.Some? <==> "app_name" in strings;
    assert detected.Some? ==> detected.value == strings["app_name"];
  }

  /** A package-substituting copy from `source` to `dest` throws: the package is null and a line reaches the interceptor. */
  predicate PackageCopyThrows(env: Env, w: World, source: Path, dest: Path) {
    w.user.packageName.None? && env.copyHandsOverLine(source, dest)
  }

  /**
   * Which stages can end `upgrade` early, and when; the exceptions are the
   * null app name of the backup and the null package of the three
   * package-substituting copies.
   */
  lemma StageStops(stage: Stage, env: Env, w: World)
    ensures Step(stage, env, w).flow != Proceed <==>
      || (stage == IdentifyProject && (env.gradleAttributes.None? || FindStrings(w.files, w.currentDir, env).None?))
      || (stage == BackUpProject && (w.user.appName.None? || !env.backupWritten))
      || (stage == FetchLatest && !Download(w.tries, w.pending, w.currentDir, w.extractedRoot).ok)
      || (stage == CopyManifest && PackageCopyThrows(env, w, Latest(w, MANIFEST_FILE_PATH), Under(w.currentDir, MANIFEST_FILE_PATH)))
      || (stage == PatchGradle && !env.gradleMigrated)
      || (stage == CopyJava && PackageCopyThrows(env, w, env.skipPackage(Latest(w, JAVA_FOLDER_PATH)),
                                                 env.skipPackage(Under(w.currentDir, JAVA_FOLDER_PATH))))
      || (stage == CopyResources && PackageCopyThrows(env, w, Latest(w, RES_FOLDER_PATH), Under(w.currentDir, RES_FOLDER_PATH)))
      || (stage.MergeValues? && !env.mergeSucceeds(ValuesFile(w.currentDir, stage.fileName),
                                                  ValuesFile(w.extractedRoot.GetOr(""), stage.fileName)))
    ensures Step(stage, env, w).flow == Crash <==>
      || (stage == BackUpProject && w.user.appName.None?)
      || (stage == CopyManifest && PackageCopyThrows(env, w, Latest(w, MANIFEST_FILE_PATH), Under(w.currentDir, MANIFEST_FILE_PATH)))
      || (stage == CopyJava && PackageCopyThrows(env, w, env.skipPackage(Latest(w, JAVA_FOLDER_PATH)),
                                                 env.skipPackage(Under(w.currentDir, JAVA_FOLDER_PATH))))
      || (stage == CopyResources && PackageCopyThrows(env, w, Latest(w, RES_FOLDER_PATH), Under(w.currentDir, RES_FOLDER_PATH)))
  {
  }

  /** Before the backup is written, an old backup of the same name is removed and every other file keeps its content. */
  lemma BackupReplacesOld(env: Env, w: World)
    requires w.user.appName.Some?
    ensures var archive := Child(w.currentDir, BackupName(w.user.appName.value));
      var o := Step(BackUpProject, env, w);
      && archive !in o.world.files
      && o.world.files == w.files - {archive}
      && o.calls == [WriteZip(w.currentDir, archive)]
  {
  }

  /**
   * A project whose strings.xml names no app is identified, and then the
   * backup's `USER_APPNAME.replace` throws: `upgrade` ends with an exception,
   * not with a return.
   */
  lemma NullAppNameCrashes(env: Env, w: World)
    requires Step(IdentifyProject, env, w).flow == Proceed
    requires Step(IdentifyProject, env, w).world.user.appName.None?
    ensures Run(Plan, |Plan|, env, w).flow == Crash
  {
    EarlyStages();
    var start := Run(Plan, 0, env, w);
    assert start.world == w && start.flow == Proceed;
    var identified := Run(Plan, 1, env, w);
    assert identified == Then(start, Step(IdentifyProject, env, w));
    assert identified.flow == Proceed && identified.world.user.appName.None?;
    assert Step(BackUpProject, env, identified.world).flow == Crash;
    assert Run(Plan, 2, env, w) == Then(identified, Step(BackUpProject, env, identified.world));
    RunStops(Plan, 2, |Plan|, env, w);
  }

  /**
   * The state `upgrade` works on: the static fields of Main and MainBase and
   * the events and external calls made so far.
   */
  class Tool {
    var currentDir: Path
    var extractedRoot: Option<Path>
    var tries: nat
    var userAppName: Option<string>
    var userPackage: Option<string>
    var userVersionName: Option<string>
    var userVersionCode: Option<string>
    var events: seq<Event>
    var calls: seq<Call>

    /** The tool before any upgrade: nothing known, nothing extracted, no tries. */
    constructor ()
      ensures currentDir == "" && extractedRoot.None? && tries == 0
      ensures userAppName.None? && userPackage.None? && userVersionName.None? && userVersionCode.None?
      ensures events == [] && calls == []
    {
      currentDir := "";
      extractedRoot := None;
      tries := 0;
      userAppName, userPackage, userVersionName, userVersionCode := None, None, None, None;
      events := [];
      calls := [];
    }

    function User(): Identity
      reads this
    {
      Identity(userAppName, userPackage, userVersionName, userVersionCode)
    }

    function State(fs: FileStore, net: Network): World
      reads this, fs, net
    {
      World(fs.files, currentDir, extractedRoot, tries, User(), net.pending)
    }

    /** `downloadArchive`, against the specification `Download`. */
    method DownloadArchive(net: Network) returns (ok: bool)
      modifies this, net
      decreases if tries == 0 then 1 else 0
      ensures var f := Download(old(tries), old(net.pending), old(currentDir), old(extractedRoot));
        && ok == f.ok && tries == f.tries && extractedRoot == f.extractedRoot
        && net.pending == f.pending && events == old(events) + f.events
      ensures currentDir == old(currentDir) && User() == old(User()) && calls == old(calls)
    {
      if tries == 0 {
        events := events + [StatusUpdate(ContactingGitHub)];
      }
      var response := net.Connect();
      match response {
        case Unreachable =>
          events := events + [ErrorOccurred(DownloadOrExtractionFailed)];
          return false;
        case Connected(header, transfer) =>
          if header.None? || IsBlank(header.value) {
            if tries > 0 {
              events := events + [ErrorOccurred(NoContentLength)];
              return false;
            }
            tries := tries + 1;
            ok := DownloadArchive(net);
            return;
          }
          if !ParsesAsLong(header.value) {
            events := events + [ArchiveDownloadFailed];
            return false;
          }
          ok := ReceiveArchive(transfer);
      }
    }

    /** Lines 100-148 of MainBase.java: stream the archive to disk and extract it. */
    method ReceiveArchive(transfer: Transfer) returns (ok: bool)
      modifies this
      ensures var r := Receive(transfer, old(currentDir), old(extractedRoot));
        ok == r.ok && extractedRoot == r.extractedRoot && events == old(events) + r.events
      ensures currentDir == old(currentDir) && tries == old(tries) && User() == old(User()) && calls == old(calls)
    {
      var destZip := Child(currentDir, LATEST_ZIP);
      if transfer == ZipNotCreated {
        events := events + [ErrorOccurred(DownloadOrExtractionFailed)];
        return false;
      }
      events := events + [ArchiveDownloadStarted];
      if transfer == DownloadBroken {
        events := events + [ErrorOccurred(DownloadOrExtractionFailed)];
        return false;
      }
      events := events + [ArchiveDownloadSuccess];
      var root := ExtractionDir(currentDir);
      extractedRoot := Some(root);
      events := events + [StatusUpdate(Extracting(destZip, root))];
      if transfer == ExtractionBroken {
        events := events + [ErrorOccurred(DownloadOrExtractionFailed)];
        return false;
      }
      events := events + [StatusUpdate(ExtractionComplete)];
      extractedRoot := Some(Under(root, ARCHIVE_ROOT));
      return true;
    }

    /** Since the previous state, the tool did what `s` describes and ended with `flow`. */
    predicate Performed(s: Outcome, flow: Flow, eventsBefore: seq<Event>, callsBefore: seq<Call>, fs: FileStore, net: Network)
      reads this, fs, net
    {
      flow == s.flow && State(fs, net) == s.world && events == eventsBefore + s.events && calls == callsBefore + s.calls
    }

    /** Lines 35-52 of Main.java: read build.gradle and strings.xml and record the identity. */
    method Identify(env: Env, fs: FileStore, net: Network) returns (flow: Flow)
      modifies this
      ensures Performed(Step(IdentifyProject, env, old(State(fs, net))), flow, old(events), old(calls), fs, net)
    {
      var stringsExtractor := new XmlElementExtractor(StringsFile(currentDir), ["string"], ["app_name"]);
      assert stringsExtractor.patterns[..] == AppNamePatterns;
      calls := calls + [FindGradleAttributes(Under(currentDir, GRADLE_FILE_PATH))];
      var gradleAttrs := env.gradleAttributes;
      if gradleAttrs.None? {
        return Return;
      }
      var stringsAttrs := stringsExtractor.Find(fs, env.stringsReadable, env.nameOf, env.valueOf);
      if stringsAttrs.None? {
        return Return;
      }
      userAppName := Lookup(stringsAttrs.value, "app_name");
      userPackage := Lookup(gradleAttrs.value, "applicationId");
      userVersionName := Lookup(gradleAttrs.value, "versionName");
      userVersionCode := Lookup(gradleAttrs.value, "versionCode");
      events := events + [ProjectDetected(User())];
      return Proceed;
    }

    /** Lines 54-68: delete an old backup, then write the new one. */
    method BackUp(env: Env, fs: FileStore, net: Network) returns (flow: Flow)
      modifies this, fs
      ensures Performed(Step(BackUpProject, env, old(State(fs, net))), flow, old(events), old(calls), fs, net)
    {
      if userAppName.None? {
        return Crash;
      }
      var projectBackup := Child(currentDir, BackupName(userAppName.value));
      if fs.Exists(projectBackup) {
        var _ := fs.Delete(projectBackup);
      }
      events := events + [StatusUpdate(BackingUp(projectBackup))];
      calls := calls + [WriteZip(currentDir, projectBackup)];
      if !env.backupWritten {
        events := events + [ErrorOccurred(BackupFailed)];
        return Return;
      }
      events := events + [StatusUpdate(BackedUp)];
      return Proceed;
    }

    /** Line 71. */
    method Fetch(env: Env, fs: FileStore, net: Network) returns (flow: Flow)
      modifies this, net
      ensures Performed(Step(FetchLatest, env, old(State(fs, net))), flow, old(events), old(calls), fs, net)
    {
      var ok := DownloadArchive(net);
      return if ok then Proceed else Return;
    }

    /** Lines 74-94. */
    method MigrateManifest(env: Env, fs: FileStore, net: Network) returns (flow: Flow)
      modifies this
      ensures Performed(Step(CopyManifest, env, old(State(fs, net))), flow, old(events), old(calls), fs, net)
    {
      var source := Under(extractedRoot.GetOr(""), MANIFEST_FILE_PATH);
      var dest := Under(currentDir, MANIFEST_FILE_PATH);
      var interceptor := PackageInterceptor(userPackage, false);
      events := events + [StatusUpdate(MigratingManifest)];
      calls := calls + [CopyFolder(source, dest, Some(interceptor))];
      if env.copyHandsOverLine(source, dest) && ThrowsOnLine(interceptor) {
        return Crash;
      }
      return Proceed;
    }

    /** Lines 97-100. */
    method MigrateGradleFile(env: Env, fs: FileStore, net: Network) returns (flow: Flow)
      modifies this
      ensures Performed(Step(PatchGradle, env, old(State(fs, net))), flow, old(events), old(calls), fs, net)
    {
      calls := calls + [MigrateGradle(Under(currentDir, GRADLE_FILE_PATH), Under(extractedRoot.GetOr(""), GRADLE_FILE_PATH))];
      return if env.gradleMigrated then Proceed else Return;
    }

    /** Lines 103-122. */
    method MigrateLicensing(env: Env, fs: FileStore, net: Network) returns (flow: Flow)
      modifies this
      ensures Performed(Step(CopyLicensing, env, old(State(fs, net))), flow, old(events), old(calls), fs, net)
    {
      var source := Under(extractedRoot.GetOr(""), LICENSING_MODULE_ROOT);
      var dest := Under(currentDir, LICENSING_MODULE_ROOT);
      events := events + [StatusUpdate(MigratingLicensing)];
      calls := calls + [CopyFolder(source, dest, Some(LicensingInterceptor))];
      return Proceed;
    }

    /** Lines 127-148. */
    method MigrateJava(env: Env, fs: FileStore, net: Network) returns (flow: Flow)
      modifies this
      ensures Performed(Step(CopyJava, env, old(State(fs, net))), flow, old(events), old(calls), fs, net)
    {
      var source := env.skipPackage(Under(extractedRoot.GetOr(""), JAVA_FOLDER_PATH));
      var dest := env.skipPackage(Under(currentDir, JAVA_FOLDER_PATH));
      var interceptor := PackageInterceptor(userPackage, true);
      calls := calls + [CheckDiff(dest, source)];
      calls := calls + [CopyFolder(source, dest, Some(interceptor))];
      if env.copyHandsOverLine(source, dest) && ThrowsOnLine(interceptor) {
        return Crash;
      }
      return Proceed;
    }

    /** Lines 151-194: one compatibility rename. */
    method RenameLegacyFile(legacyName: string, currentName: string, env: Env, fs: FileStore, net: Network)
      returns (flow: Flow)
      modifies this, fs
      ensures Performed(Step(RenameLegacy(legacyName, currentName), env, old(State(fs, net))), flow, old(events), old(calls), fs, net)
    {
      var source := ValuesFile(currentDir, legacyName);
      if fs.Exists(source) {
        var dest := ValuesFile(currentDir, currentName);
        if !fs.Exists(dest) {
          events := events + [StatusUpdate(Renaming(source, dest))];
          var renamed := fs.RenameTo(source, dest, env.renamePermitted(source, dest));
          if !renamed {
            events := events + [ErrorOccurred(RenameFailed(source))];
          }
        } else {
          var _ := fs.Delete(source);
        }
      } else {
        events := events + [StatusUpdate(LegacyFileMissing(legacyName))];
      }
      return Proceed;
    }

    /** Lines 197-216. */
    method MigrateResources(env: Env, fs: FileStore, net: Network) returns (flow: Flow)
      modifies this
      ensures Performed(Step(CopyResources, env, old(State(fs, net))), flow, old(events), old(calls), fs, net)
    {
      var source := Under(extractedRoot.GetOr(""), RES_FOLDER_PATH);
      var dest := Under(currentDir, RES_FOLDER_PATH);
      var interceptor := PackageInterceptor(userPackage, true);
      calls := calls + [CheckDiff(dest, source)];
      calls := calls + [CopyFolder(source, dest, Some(interceptor))];
      if env.copyHandsOverLine(source, dest) && ThrowsOnLine(interceptor) {
        return Crash;
      }
      return Proceed;
    }

    /** Lines 219-244: one XmlMigrator merge of a values file. */
    method MergeValuesFile(name: string, env: Env, fs: FileStore, net: Network) returns (flow: Flow)
      modifies this
      ensures Performed(Step(MergeValues(name), env, old(State(fs, net))), flow, old(events), old(calls), fs, net)
    {
      var project := ValuesFile(currentDir, name);
      var latest := ValuesFile(extractedRoot.GetOr(""), name);
      calls := calls + [MergeXml(project, latest)];
      return if env.mergeSucceeds(project, latest) then Proceed else Return;
    }

    /** Lines 229-232. */
    method EnsureChangelog(env: Env, fs: FileStore, net: Network) returns (flow: Flow)
      modifies this
      ensures Performed(Step(CopyChangelogIfMissing, env, old(State(fs, net))), flow, old(events), old(calls), fs, net)
    {
      var projectChangelog := ValuesFile(currentDir, DEV_CHANGELOG_XML);
      var latestChangelog := ValuesFile(extractedRoot.GetOr(""), DEV_CHANGELOG_XML);
      if !fs.Exists(projectChangelog) {
        calls := calls + [CopyFolder(latestChangelog, projectChangelog, None)];
      }
      return Proceed;
    }

    /** Lines 246-249. */
    method Complete(env: Env, fs: FileStore, net: Network) returns (flow: Flow)
      modifies this
      ensures Performed(Step(Finish, env, old(State(fs, net))), flow, old(events), old(calls), fs, net)
    {
      events := events + [StatusUpdate(UpgradeComplete(userAppName)), UpdateSuccessful];
      return Proceed;
    }

    /**
     * The tool stands where the first `n` stages of `Plan`, run from `w0`, leave
     * it, their events and calls appended to `events0` and `calls0`.
     */
    predicate Reached(n: nat, env: Env, w0: World, events0: seq<Event>, calls0: seq<Call>, fs: FileStore, net: Network)
      requires n <= |Plan|
      reads this, fs, net
    {
      var o := Run(Plan, n, env, w0);
      State(fs, net) == o.world && events == events0 + o.events && calls == calls0 + o.calls
    }

    /** Lines 28-71 of Main.java: identify the project, back it up, download the latest template (stages 0-2). */
    method Prepare(env: Env, fs: FileStore, net: Network, ghost w0: World, ghost events0: seq<Event>, ghost calls0: seq<Call>)
      returns (flow: Flow)
      modifies this, fs, net
      requires Reached(0, env, w0, events0, calls0, fs, net)
      ensures Reached(3, env, w0, events0, calls0, fs, net) && flow == Run(Plan, 3, env, w0).flow
    {
      EarlyStages();
      ghost var o := Run(Plan, 0, env, w0);

      flow := Identify(env, fs, net);
      o := Extended(0, env, w0, o, Step(IdentifyProject, env, o.world), events0, calls0);
      if flow != Proceed { RunStops(Plan, 1, 3, env, w0); return; }

      flow := BackUp(env, fs, net);
      o := Extended(1, env, w0, o, Step(BackUpProject, env, o.world), events0, calls0);
      if flow != Proceed { RunStops(Plan, 2, 3, env, w0); return; }

      flow := Fetch(env, fs, net);
      o := Extended(2, env, w0, o, Step(FetchLatest, env, o.world), events0, calls0);
    }

    /** Lines 73-148: the manifest, build.gradle, the licensing module and the Java sources (stages 3-6). */
    method MigrateCode(env: Env, fs: FileStore, net: Network, ghost w0: World, ghost events0: seq<Event>, ghost calls0: seq<Call>)
      returns (flow: Flow)
      modifies this, fs, net
      requires Reached(3, env, w0, events0, calls0, fs, net) && Run(Plan, 3, env, w0).flow == Proceed
      ensures Reached(7, env, w0, events0, calls0, fs, net) && flow == Run(Plan, 7, env, w0).flow
    {
      EarlyStages();
      ghost var o := Run(Plan, 3, env, w0);

      flow := MigrateManifest(env, fs, net);
      o := Extended(3, env, w0, o, Step(CopyManifest, env, o.world), events0, calls0);
      if flow != Proceed { RunStops(Plan, 4, 7, env, w0); return; }

      flow := MigrateGradleFile(env, fs, net);
      o := Extended(4, env, w0, o, Step(PatchGradle, env, o.world), events0, calls0);
      if flow != Proceed { RunStops(Plan, 5, 7, env, w0); return; }

      flow := MigrateLicensing(env, fs, net);
      o := Extended(5, env, w0, o, Step(CopyLicensing, env, o.world), events0, calls0);

      flow := MigrateJava(env, fs, net);
      o := Extended(6, env, w0, o, Step(CopyJava, env, o.world), events0, calls0);
    }

    /** Lines 150-216: the two compatibility renames and the resource folder (stages 7-9). */
    method MigrateResourceFiles(env: Env, fs: FileStore, net: Network, ghost w0: World, ghost events0: seq<Event>,
                                ghost calls0: seq<Call>)
      returns (flow: Flow)
      modifies this, fs, net
      requires Reached(7, env, w0, events0, calls0, fs, net) && Run(Plan, 7, env, w0).flow == Proceed
      ensures Reached(10, env, w0, events0, calls0, fs, net) && flow == Run(Plan, 10, env, w0).flow
    {
      PlanStages();
      ghost var o := Run(Plan, 7, env, w0);

      flow := RenameLegacyFile(CHANGELOG_XML, DEV_CHANGELOG_XML, env, fs, net);
      o := Extended(7, env, w0, o, Step(RenameLegacy(CHANGELOG_XML, DEV_CHANGELOG_XML), env, o.world), events0, calls0);

      flow := RenameLegacyFile(DEV_OPTIONS_XML, DEV_CUSTOMIZATION_XML, env, fs, net);
      o := Extended(8, env, w0, o, Step(RenameLegacy(DEV_OPTIONS_XML, DEV_CUSTOMIZATION_XML), env, o.world), events0, calls0);

      flow := MigrateResources(env, fs, net);
      o := Extended(9, env, w0, o, Step(CopyResources, env, o.world), events0, calls0);
    }

    /** Lines 218-232: merge strings.xml and dev_about.xml, then supply a missing dev_changelog.xml (stages 10-12). */
    method MergeFirstValues(env: Env, fs: FileStore, net: Network, ghost w0: World, ghost events0: seq<Event>,
                            ghost calls0: seq<Call>)
      returns (flow: Flow)
      modifies this, fs, net
      requires Reached(10, env, w0, events0, calls0, fs, net) && Run(Plan, 10, env, w0).flow == Proceed
      ensures Reached(13, env, w0, events0, calls0, fs, net) && flow == Run(Plan, 13, env, w0).flow
    {
      LateStages();
      ghost var o := Run(Plan, 10, env, w0);

      flow := MergeValuesFile(STRINGS_XML, env, fs, net);
      o := Extended(10, env, w0, o, Step(MergeValues(STRINGS_XML), env, o.world), events0, calls0);
      if flow != Proceed { RunStops(Plan, 11, 13, env, w0); return; }

      flow := MergeValuesFile(DEV_ABOUT_XML, env, fs, net);
      o := Extended(11, env, w0, o, Step(MergeValues(DEV_ABOUT_XML), env, o.world), events0, calls0);
      if flow != Proceed { RunStops(Plan, 12, 13, env, w0); return; }

      flow := EnsureChangelog(env, fs, net);
      o := Extended(12, env, w0, o, Step(CopyChangelogIfMissing, env, o.world), events0, calls0);
    }

    /** Lines 234-249: merge dev_changelog.xml, dev_customization.xml and dev_theming.xml, then report completion (stages 13-16). */
    method MergeLastValues(env: Env, fs: FileStore, net: Network, ghost w0: World, ghost events0: seq<Event>,
                           ghost calls0: seq<Call>)
      returns (flow: Flow)
      modifies this, fs, net
      requires Reached(13, env, w0, events0, calls0, fs, net) && Run(Plan, 13, env, w0).flow == Proceed
      ensures Reached(17, env, w0, events0, calls0, fs, net) && flow == Run(Plan, 17, env, w0).flow
    {
      LateStages();
      ghost var o := Run(Plan, 13, env, w0);

      flow := MergeValuesFile(DEV_CHANGELOG_XML, env, fs, net);
      o := Extended(13, env, w0, o, Step(MergeValues(DEV_CHANGELOG_XML), env, o.world), events0, calls0);
      if flow != Proceed { RunStops(Plan, 14, 17, env, w0); return; }

      flow := MergeValuesFile(DEV_CUSTOMIZATION_XML, env, fs, net);
      o := Extended(14, env, w0, o, Step(MergeValues(DEV_CUSTOMIZATION_XML), env, o.world), events0, calls0);
      if flow != Proceed { RunStops(Plan, 15, 17, env, w0); return; }

      flow := MergeValuesFile(DEV_THEMING_XML, env, fs, net);
      o := Extended(15, env, w0, o, Step(MergeValues(DEV_THEMING_XML), env, o.world), events0, calls0);
      if flow != Proceed { RunStops(Plan, 16, 17, env, w0); return; }

      flow := Complete(env, fs, net);
      o := Extended(16, env, w0, o, Step(Finish, env, o.world), events0, calls0);
    }

    /**
     * `upgrade(projectPath)`: the stages of `Plan` in order, returning as soon
     * as one of them fails; the final state, the events and the external calls
     * are exactly those of running all of `Plan`, and `flow` tells a normal
     * end (Proceed), an early return (Return) and an escaping exception (Crash)
     * apart.
     */
    method Upgrade(projectPath: Path, env: Env, fs: FileStore, net: Network) returns (flow: Flow)
      modifies this, fs, net
      ensures var o := Run(Plan, |Plan|, env, old(State(fs, net)).(currentDir := projectPath));
        && flow == o.flow
        && State(fs, net) == o.world && events == old(events) + o.events && calls == old(calls) + o.calls
    {
      currentDir := projectPath;
      ghost var w0, events0, calls0 := State(fs, net), events, calls;
      assert |Plan| == 17;

      flow := Prepare(env, fs, net, w0, events0, calls0);
      if flow != Proceed { RunStops(Plan, 3, 17, env, w0); return; }

      flow := MigrateCode(env, fs, net, w0, events0, calls0);
      if flow != Proceed { RunStops(Plan, 7, 17, env, w0); return; }

      flow := MigrateResourceFiles(env, fs, net, w0, events0, calls0);
      if flow != Proceed { RunStops(Plan, 10, 17, env, w0); return; }

      flow := MergeFirstValues(env, fs, net, w0, events0, calls0);
      if flow != Proceed { RunStops(Plan, 13, 17, env, w0); return; }

      flow := MergeLastValues(env, fs, net, w0, events0, calls0);
    }
  }
}

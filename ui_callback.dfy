/**
 * What the upgrade reports to its user interface (the UICallback interface,
 * which is not part of this model): the values are the events, in the order
 * the callback receives them. Message texts are reduced to what they are about.
 */
module UiEvents {
  import opened Wrappers
  import opened Files

  /** The project's identity as read from build.gradle and strings.xml; None where Java holds null. */
  datatype Identity = Identity(appName: Option<string>, packageName: Option<string>,
                               versionName: Option<string>, versionCode: Option<string>)

  /** Subjects of `onStatusUpdate`. */
  datatype Notice =
    | ContactingGitHub
    | BackingUp(archive: Path)
    | BackedUp
    | Extracting(archive: Path, into: Path)
    | ExtractionComplete
    | MigratingManifest
    | MigratingLicensing
    | Renaming(source: Path, dest: Path)
    | LegacyFileMissing(name: string)
    | UpgradeComplete(appName: Option<string>)

  /** Subjects of `onErrorOccurred`. */
  datatype Problem =
    | BackupFailed
    | NoContentLength
    | DownloadOrExtractionFailed
    | RenameFailed(source: Path)

  datatype Event =
    | ProjectDetected(identity: Identity)
    | StatusUpdate(notice: Notice)
    | ErrorOccurred(problem: Problem)
    | ArchiveDownloadStarted
    | ArchiveDownloadFailed
    | ArchiveDownloadSuccess
    | UpdateSuccessful
}

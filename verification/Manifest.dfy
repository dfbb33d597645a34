/** The release manifest and the gates that decide whether it is an update (apps/updater/src/manifest.ts). */
module Manifest {
  import opened Wrappers
  import SemVer

  datatype Channel = Stable | Beta | Nightly

  /** Image references, `repository@digest`, one per managed image. */
  datatype Images = Images(api: string, admin: string, worker: string, updater: string)

  datatype Migrations = Migrations(required: bool, fromVersion: int, toVersion: int,
                                   requiresBackup: bool, reversible: bool)

  /** A release compose file, identified by its checksum (the checksum is taken to be injective). */
  datatype ComposeFile = ComposeFile(sha256: nat)

  /** A payload whose shape checks have passed; the gates below are still to be taken. */
  datatype ReleaseManifest = ReleaseManifest(version: string, channel: Channel, minUpdaterVersion: string,
                                             compose: ComposeFile, images: Images, migrations: Migrations)

  datatype Options = Options(currentVersion: string, channel: Channel, currentUpdaterVersion: string)

  /** The gates in the program's order, each with the code of the error it throws. */
  function ValidateReleaseManifest(m: ReleaseManifest, o: Options): (r: Result<ReleaseManifest, string>)
    ensures r.Success? <==>
            && SemVer.Newer(m.version, o.currentVersion)
            && m.channel == o.channel
            && SemVer.ParseSemver(m.minUpdaterVersion).Some?
            && SemVer.ParseSemver(o.currentUpdaterVersion).Some?
            && !SemVer.Newer(m.minUpdaterVersion, o.currentUpdaterVersion)
            && m.migrations.fromVersion <= m.migrations.toVersion
    ensures r.Success? ==> r.value == m
    ensures r == Failure("NO_UPDATE_AVAILABLE") <==>
            && SemVer.ParseSemver(m.version).Some? && SemVer.ParseSemver(o.currentVersion).Some?
            && !SemVer.Newer(m.version, o.currentVersion)
  {
    if SemVer.ParseSemver(m.version).None? || SemVer.ParseSemver(o.currentVersion).None? then Failure("INVALID_SEMVER")
    else if !SemVer.Newer(m.version, o.currentVersion) then Failure("NO_UPDATE_AVAILABLE")
    else if m.channel != o.channel then Failure("CHANNEL_MISMATCH")
    else if SemVer.ParseSemver(m.minUpdaterVersion).None? || SemVer.ParseSemver(o.currentUpdaterVersion).None?
    then Failure("INVALID_SEMVER")
    else if SemVer.Newer(m.minUpdaterVersion, o.currentUpdaterVersion) then Failure("UPDATER_TOO_OLD")
    else if m.migrations.fromVersion > m.migrations.toVersion then Failure("INVALID_MIGRATIONS")
    else Success(m)
  }
}

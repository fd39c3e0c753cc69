/** `isValidInstallLocation` (ClientInstaller.java lines 147-167): whether the game directory holds a launched
    vanilla version to install onto. The file system is replaced by the
    boolean facts the method asks of it. */
module InstallLocation {
  import opened Wrappers

  /** What the file system says about the paths the check looks at:
      `mcDir`, `mcDir/versions`, `mcDir/versions/<mcVer>`, and the version's
      `<mcVer>.json` and `<mcVer>.jar` inside that folder. */
  datatype LocationFacts = LocationFacts(
    mcDirName: string,
    mcDirIsDir: bool,
    versionsExists: bool,
    versionsIsDir: bool,
    versionExists: bool,
    versionIsDir: bool,
    jsonExists: bool,
    jarExists: bool)

  /** Facts a real file system can produce: a directory exists, and nothing
      exists inside a path that is not a directory. */
  predicate Consistent(f: LocationFacts) {
    && (f.versionsIsDir ==> f.versionsExists)
    && (f.versionIsDir ==> f.versionExists)
    && (f.versionsExists ==> f.mcDirIsDir)
    && (f.versionExists ==> f.versionsIsDir)
    && (f.jsonExists || f.jarExists ==> f.versionIsDir)
  }

  /** Which of the method's checks decided the answer. */
  datatype Verdict =
    | NotADirectory        // line 148
    | NoVersionsFolder     // line 152
    | NoVersionFolder      // line 156
    | MissingVersionFiles  // line 162
    | Valid                // line 167

  const LAUNCH_VANILLA := "Please launch vanilla Minecraft version "

  /** The message returned for a verdict, `None` when the location is valid. */
  function Message(v: Verdict, mcDirName: string, mcVer: string): Option<string> {
    match v
    case NotADirectory => Some(mcDirName + " is not a directory")
    case Valid => None
    case _ => Some(LAUNCH_VANILLA + mcVer)
  }

  /** The checks in the order the method makes them. The check at line 156
      tests the versions folder a second time instead of the version folder,
      so it can never fire, and the version folder's own facts are never
      consulted. */
  function CheckAsWritten(f: LocationFacts): (v: Verdict)
    ensures v != NoVersionFolder
    ensures v == Valid <==> f.mcDirIsDir && f.versionsExists && f.versionsIsDir && f.jsonExists && f.jarExists
  {
    if !f.mcDirIsDir then NotADirectory
    else if !f.versionsExists || !f.versionsIsDir then NoVersionsFolder
    else if !f.versionsExists || !f.versionsIsDir then NoVersionFolder
    else if !f.jsonExists || !f.jarExists then MissingVersionFiles
    else Valid
  }

  /** The checks with the line 156 test on the version folder, as its
      variable `versionFolder` suggests was meant. */
  function CheckCorrected(f: LocationFacts): (v: Verdict)
    ensures v == NoVersionFolder <==>
      f.mcDirIsDir && f.versionsExists && f.versionsIsDir && !(f.versionExists && f.versionIsDir)
    ensures v == Valid <==>
      f.mcDirIsDir && f.versionsExists && f.versionsIsDir && f.versionExists && f.versionIsDir
      && f.jsonExists && f.jarExists
  {
    if !f.mcDirIsDir then NotADirectory
    else if !f.versionsExists || !f.versionsIsDir then NoVersionsFolder
    else if !f.versionExists || !f.versionIsDir then NoVersionFolder
    else if !f.jsonExists || !f.jarExists then MissingVersionFiles
    else Valid
  }

  /** `isValidInstallLocation(mcDir, mcVer)`: `None` exactly when `mcDir` is
      a directory, `versions` exists and is a directory, and both version
      files exist; "<name> is not a directory" when `mcDir` is not a
      directory; the launch-vanilla message naming `mcVer` otherwise. */
  function IsValidInstallLocation(f: LocationFacts, mcVer: string): (r: Option<string>)
    ensures r.None? <==> f.mcDirIsDir && f.versionsExists && f.versionsIsDir && f.jsonExists && f.jarExists
    ensures !f.mcDirIsDir ==> r == Some(f.mcDirName + " is not a directory")
    ensures f.mcDirIsDir && r.Some? ==> r == Some(LAUNCH_VANILLA + mcVer)
  {
    Message(CheckAsWritten(f), f.mcDirName, mcVer)
  }

  /** The answer does not depend on anything the file system says about the
      version folder itself. */
  lemma VersionFolderNeverConsulted(f: LocationFacts, versionExists: bool, versionIsDir: bool, mcVer: string)
    ensures IsValidInstallLocation(f.(versionExists := versionExists, versionIsDir := versionIsDir), mcVer)
         == IsValidInstallLocation(f, mcVer)
  {
  }

  /** On a consistent file system the slip at line 156 is harmless: the
      corrected checks return the same answer, because files cannot exist in
      a version folder that is missing. */
  lemma CorrectedAgreesWhenConsistent(f: LocationFacts, mcVer: string)
    requires Consistent(f)
    ensures Message(CheckCorrected(f), f.mcDirName, mcVer) == IsValidInstallLocation(f, mcVer)
  {
  }

  /** Without consistency the two differ: a version "folder" that is a plain
      file next to version files passes the written check but not the
      corrected one. */
  lemma CorrectedDiffersWhenInconsistent()
    ensures var f := LocationFacts("minecraft", true, true, true, true, false, true, true);
      && !Consistent(f)
      && CheckAsWritten(f) == Valid
      && CheckCorrected(f) == NoVersionFolder
  {
  }
}

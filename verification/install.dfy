/** `install` (ClientInstaller.java lines 32-136): the sequence of progress reports along each control path.

    Downloading, manifest reading, JSON patching, archive packing and
    remapping are the collaborators' business; what remains is which reports
    are made, in which order, and where the method stops early. Only the two
    early exits before any file is touched are modelled: `Completed` means
    every later step succeeded. */
module Install {
  import opened Wrappers
  import opened InstallLocation

  /** One `progress.updateProgress(message, percent)` call. */
  datatype Report = Report(message: string, percent: int)

  /** What the file system says on the way: the install-location facts for
      the game version, whether the fabric jar is already in `fabricData`
      (line 40), and whether an old fabric version folder is present (line 57). */
  datatype Environment = Environment(location: LocationFacts, fabricJarExists: bool, oldVersionFolderExists: bool)

  /** Why `install` stops early. */
  datatype InstallError =
    | SplitIndexOutOfBounds        // `split[0]` of an empty array, line 35
    | InvalidLocation(message: string)  // the exception thrown at line 36

  datatype Outcome =
    | Completed(reports: seq<Report>)
    | Failed(reports: seq<Report>, error: InstallError)

  /** Every character of `s` is a dash. */
  predicate AllDashes(s: string) {
    forall i :: 0 <= i < |s| ==> s[i] == '-'
  }

  /** The text of `s` before its first dash (all of `s` when there is none). */
  function BeforeFirstDash(s: string): (p: string)
    ensures |p| <= |s| && p == s[..|p|]
    ensures '-' !in p
    ensures |p| < |s| ==> s[|p|] == '-'
  {
    if |s| == 0 || s[0] == '-' then [] else [s[0]] + BeforeFirstDash(s[1..])
  }

  /** `version.split("-")[0]`. Java's `split` drops trailing empty pieces, so
      a non-empty version made only of dashes splits into no pieces at all and
      indexing fails; otherwise the first piece is the text before the first
      dash. */
  function GameVersion(version: string): (r: Option<string>)
    ensures r.None? <==> |version| > 0 && AllDashes(version)
    ensures r.Some? ==> '-' !in r.value && r.value <= version
    ensures r.Some? && |r.value| < |version| ==> version[|r.value|] == '-'
  {
    if |version| > 0 && AllDashes(version) then None else Some(BeforeFirstDash(version))
  }

  /** The reports every completed run makes after the optional ones. */
  const FixedReports: seq<Report> := [
    Report("Creating version Json File", 20),
    Report("Creating temporary directory for files", 40),
    Report("Extracting Mappings", 50),
    Report("Loading jar file into deobfuscator", 60),
    Report("Reading mappings", 65),
    Report("Writing out new jar file", 70),
    Report("Cleaning minecraft jar file", 80),
    Report("Removing temp directory", 90),
    Report("Done!", 100)
  ]

  /** The reports of a run, in order. */
  function InstallReports(version: string, env: Environment): seq<Report> {
    [Report("Installing: " + version, 0)]
    + (if !env.fabricJarExists then [Report("Downloading fabric", 10)] else [])
    + (if env.oldVersionFolderExists then [Report("Removing old fabric version", 10)] else [])
    + FixedReports
  }

  /** `install(mcDir, version, progress)`. The first report is always the
      "Installing" one at 0. A version that splits into nothing, or an
      invalid install location, stops the run right after it. A completed
      run reports the download only when the fabric jar is missing, the
      removal only when an old version folder is present, and ends with
      "Done!" at 100. */
  function Install(version: string, env: Environment): (o: Outcome)
    ensures |o.reports| > 0 && o.reports[0] == Report("Installing: " + version, 0)
    ensures o.Completed? <==>
      GameVersion(version).Some? && IsValidInstallLocation(env.location, GameVersion(version).value).None?
    ensures o.Failed? ==> |o.reports| == 1
    ensures o.Failed? ==> (o.error.SplitIndexOutOfBounds? <==> GameVersion(version).None?)
    ensures o.Failed? && o.error.InvalidLocation? ==>
      GameVersion(version).Some? &&
      IsValidInstallLocation(env.location, GameVersion(version).value) == Some(o.error.message)
    ensures o.Completed? ==> o.reports[|o.reports| - 1] == Report("Done!", 100)
    ensures o.Completed? ==>
      |o.reports| == 10 + (if env.fabricJarExists then 0 else 1) + (if env.oldVersionFolderExists then 1 else 0)
    ensures o.Completed? ==> (Report("Downloading fabric", 10) in o.reports <==> !env.fabricJarExists)
    ensures o.Completed? ==> (Report("Removing old fabric version", 10) in o.reports <==> env.oldVersionFolderExists)
  {
    var start := Report("Installing: " + version, 0);
    match GameVersion(version)
    case None => Failed([start], SplitIndexOutOfBounds)
    case Some(mcVer) =>
      match IsValidInstallLocation(env.location, mcVer)
      case Some(message) => Failed([start], InvalidLocation(message))
      case None => Completed(InstallReports(version, env))
  }

  /** Percentages never go back, comparing any two reports. */
  predicate NonDecreasing(rs: seq<Report>) {
    forall i, j :: 0 <= i <= j < |rs| ==> rs[i].percent <= rs[j].percent
  }

  /** Percentages never go back, comparing neighbouring reports. */
  predicate StepsNonDecreasing(rs: seq<Report>) {
    forall i :: 0 < i < |rs| ==> rs[i - 1].percent <= rs[i].percent
  }

  /** No step back between neighbours means no step back at all. */
  lemma {:induction false} StepsToNonDecreasing(rs: seq<Report>)
    requires StepsNonDecreasing(rs)
    ensures NonDecreasing(rs)
    decreases |rs|
  {
    if |rs| > 1 {
      var init := rs[..|rs| - 1];
      assert StepsNonDecreasing(init) by {
        forall i | 0 < i < |init|
          ensures init[i - 1].percent <= init[i].percent
        {
          assert init[i - 1] == rs[i - 1] && init[i] == rs[i];
        }
      }
      StepsToNonDecreasing(init);
      forall i, j | 0 <= i <= j < |rs|
        ensures rs[i].percent <= rs[j].percent
      {
        if j < |rs| - 1 {
          assert rs[i] == init[i] && rs[j] == init[j];
        } else if i < j {
          assert rs[i] == init[i] && rs[j - 1] == init[j - 1];
          assert init[i].percent <= init[j - 1].percent;
        }
      }
    }
  }

  /** Every completed run reports percentages from 0 to 100 that never go
      back, and each lies between 0 and 100. */
  lemma CompletedProgressMonotone(version: string, env: Environment)
    requires Install(version, env).Completed?
    ensures var rs := Install(version, env).reports;
      && rs[0].percent == 0
      && rs[|rs| - 1].percent == 100
      && NonDecreasing(rs)
      && (forall i :: 0 <= i < |rs| ==> 0 <= rs[i].percent <= 100)
  {
    var rs := Install(version, env).reports;
    assert StepsNonDecreasing(rs);
    StepsToNonDecreasing(rs);
  }
}

/** check-backups/check-backups.go: scan the Steam library folders for
    installed apps, scan the backups directory (choosing between duplicate
    backups of an app), then report installed apps with no backup or an
    out-of-date one and, with -r, backups of apps that are not installed. */
module CheckBackups {
  import opened Wrappers
  import opened GoText
  import B = Backups
  import A = AppManifests
  import P = Problems

  /*------------------------------ reportCount -------------------------------*/

  /** fmt's %q for a string that needs no escapes. */
  function Quote(s: string): string
  {
    "\"" + s + "\""
  }

  /** The place part of a count line: " in <folder>" for a folder path, the
      text itself after a space when it already starts with "in ". */
  function WherePart(where: string): (r: string)
    ensures r == "" <==> where == ""
    ensures r != "" ==> |r| >= 4 && r[..4] == " in "
    ensures |where| >= 3 && where[..3] == "in " ==> r[1..] == where
    ensures where != "" && !(|where| >= 3 && where[..3] == "in ") ==> r[4..] == Quote(where)
  {
    if |where| >= 3 && where[..3] == "in " then " " + where
    else if where != "" then " in " + Quote(where)
    else ""
  }

  /** reportCount(n, noun, where): one progress line. */
  function ReportCount(n: int, noun: string, where: string): (line: string)
    ensures |line| >= 11 && line[..7] == " Found " && line[|line| - 1] == '\n'
    ensures n == 1 ==> line[7..11] == "one "
  {
    if n == 1 then " Found one " + noun + WherePart(where) + "\n"
    else " Found " + Itoa(n) + " " + noun + "s" + WherePart(where) + "\n"
  }

  /** Two different counts never give the same line: the line shows "one"
      or the count in decimal right after " Found ". */
  lemma ReportCountDistinct(n: int, m: int, noun: string, where: string)
    requires n != m
    ensures ReportCount(n, noun, where) != ReportCount(m, noun, where)
  {
    if n != 1 && m != 1 {
      PluralCountsDistinct(n, m, noun, where);
    } else {
      var k := if n == 1 then m else n;
      assert ReportCount(k, noun, where)[7] != ReportCount(1, noun, where)[7] by {
        ReportCountAt7(k, noun, where);
      }
    }
  }

  /** Right after " Found ": 'o' of "one", or the first character of the count. */
  lemma ReportCountAt7(k: int, noun: string, where: string)
    requires k != 1
    ensures |ReportCount(k, noun, where)| > 7 && |ReportCount(1, noun, where)| > 7
    ensures ReportCount(k, noun, where)[7] != ReportCount(1, noun, where)[7]
  {
    var a := Itoa(k);
    assert a[0] == '-' || IsDigit(a[0]);
    PluralLine(k, noun, where);
    var t := " " + noun + "s" + WherePart(where) + "\n";
    assert (" Found " + a + t)[7] == a[0];
    assert ReportCount(1, noun, where)[7] == 'o';
  }

  lemma PluralCountsDistinct(n: int, m: int, noun: string, where: string)
    requires n != m && n != 1 && m != 1
    ensures ReportCount(n, noun, where) != ReportCount(m, noun, where)
  {
    PluralLine(n, noun, where);
    PluralLine(m, noun, where);
    if Itoa(n) == Itoa(m) {
      ItoaInjective(n, m);
    }
    MiddleDiffers(" Found ", Itoa(n), Itoa(m), " " + noun + "s" + WherePart(where) + "\n");
  }

  /** A count other than one is written in decimal between " Found " and the rest. */
  lemma PluralLine(n: int, noun: string, where: string)
    requires n != 1
    ensures ReportCount(n, noun, where) == " Found " + Itoa(n) + (" " + noun + "s" + WherePart(where) + "\n")
  {
  }

  /** Strings that differ only in their middle part differ. */
  lemma MiddleDiffers(p: string, a: string, b: string, t: string)
    requires a != b
    ensures p + a + t != p + b + t
  {
    if |a| == |b| {
      var i :| 0 <= i < |a| && a[i] != b[i];
      assert (p + a + t)[|p| + i] == a[i];
      assert (p + b + t)[|p| + i] == b[i];
    }
  }

  /*------------------- Scanning the Steam library folders -------------------*/

  const ManifestNoun := "valid appmanifest_$N.acf file"

  /** The folders scanned: with -s, all but the first (the user's home
      folder). None stands for the panic dirList[1:] raises on an empty list. */
  function LibDirsToScan(dirList: seq<string>, skipHomeSLF: bool): (r: Option<seq<string>>)
    ensures r.None? <==> skipHomeSLF && |dirList| == 0
    ensures r.Some? && skipHomeSLF ==> dirList == [dirList[0]] + r.value
    ensures r.Some? && !skipHomeSLF ==> r.value == dirList
  {
    if !skipHomeSLF then Some(dirList)
    else if |dirList| == 0 then None
    else Some(dirList[1..])
  }

  /** What scanning a list of folders gives: the first error, the manifests
      map, the handleDiff calls, and the number of apps each folder scanned
      without error added to the map. */
  datatype LibsScan = LibsScan(err: Option<A.LibScanError>, byApp: map<int, A.InstalledApp>, calls: seq<A.DiffCall>, added: seq<int>)

  /** What ScanSteamLibDir does to one folder, given the map and the
      handleDiff calls so far: the error, the new map and the new calls. */
  type DirScan = (string, map<int, A.InstalledApp>, seq<A.DiffCall>) -> (Option<A.LibScanError>, map<int, A.InstalledApp>, seq<A.DiffCall>)

  /** ScanSteamLibDir on what each folder holds, as listingOf gives it. */
  function ScanOf(listingOf: string -> A.LibListing): DirScan
  {
    (d, m, calls) => A.ScanSteamLibDirOf(d, listingOf(d), m, calls)
  }

  /** scanDir is the folder scan of ScanOf(listingOf). The trigger keeps
      the scan of a folder from being unfolded before a method has run it. */
  ghost predicate ScansListings(scanDir: DirScan, listingOf: string -> A.LibListing)
  {
    forall d, m, calls {:trigger A.ScanSteamLibDirOf(d, listingOf(d), m, calls)} ::
      scanDir(d, m, calls) == A.ScanSteamLibDirOf(d, listingOf(d), m, calls)
  }

  /** The loop of scanSteamLibraryDirs: ScanSteamLibDir on each folder in
      turn, stopping at the first error (DieIf ends the program). */
  function ScanLibDirsOf(dirs: seq<string>, scanDir: DirScan, m: map<int, A.InstalledApp>, calls: seq<A.DiffCall>): (r: LibsScan)
    ensures r.err.None? ==> |r.added| == |dirs|
    ensures r.err.Some? ==> |r.added| < |dirs|
    decreases |dirs|
  {
    if |dirs| == 0 then LibsScan(None, m, calls, [])
    else
      var (err, m', calls') := scanDir(dirs[0], m, calls);
      if err.Some? then LibsScan(err, m', calls', [])
      else
        var rest := ScanLibDirsOf(dirs[1..], scanDir, m', calls');
        rest.(added := [|m'| - |m|] + rest.added)
  }

  function Sum(ns: seq<int>): int
  {
    if |ns| == 0 then 0 else ns[0] + Sum(ns[1..])
  }

  lemma SubsetCard(a: set<int>, b: set<int>)
    requires a <= b
    ensures |a| <= |b|
  {
    assert b == a + (b - a);
  }

  /** A handleDiff call made while scanning one of dirs, well formed for it. */
  predicate GoodCallIn(call: A.DiffCall, dirs: seq<string>)
  {
    |call.curr.libraryFolders| == 1 && call.curr.libraryFolders[0] in dirs && A.GoodCall(call, call.curr.libraryFolders[0])
  }

  /** Scanning the folders keeps the map well formed (so check can use each
      app's first library folder), never drops an app, and stops at the
      first folder that fails. */
  lemma {:induction false} ScanLibDirsKeepsWellFormed(dirs: seq<string>, listingOf: string -> A.LibListing, m: map<int, A.InstalledApp>, calls: seq<A.DiffCall>)
    requires A.WellFormed(m)
    ensures var r := ScanLibDirsOf(dirs, ScanOf(listingOf), m, calls);
      && A.WellFormed(r.byApp) && m.Keys <= r.byApp.Keys
      && (r.err.None? ==> |r.added| == |dirs|)
      && (r.err.Some? ==> |r.added| < |dirs|)
    decreases |dirs|
  {
    if |dirs| > 0 {
      var (err, m', calls') := A.ScanSteamLibDirOf(dirs[0], listingOf(dirs[0]), m, calls);
      A.ScanSteamLibDirKeepsWellFormed(dirs[0], listingOf(dirs[0]), m, calls);
      if err.None? {
        ScanLibDirsKeepsWellFormed(dirs[1..], listingOf, m', calls');
      }
    }
  }

  /** Scanning the folders only appends calls to handleDiff, each well formed
      for the folder being scanned. */
  lemma {:induction false} ScanLibDirsCalls(dirs: seq<string>, listingOf: string -> A.LibListing, m: map<int, A.InstalledApp>, calls: seq<A.DiffCall>)
    requires A.WellFormed(m)
    ensures var r := ScanLibDirsOf(dirs, ScanOf(listingOf), m, calls);
      && |calls| <= |r.calls| && r.calls[..|calls|] == calls
      && forall j :: |calls| <= j < |r.calls| ==> GoodCallIn(r.calls[j], dirs)
    decreases |dirs|
  {
    if |dirs| > 0 {
      var (err, m', calls') := A.ScanSteamLibDirOf(dirs[0], listingOf(dirs[0]), m, calls);
      A.ScanSteamLibDirKeepsWellFormed(dirs[0], listingOf(dirs[0]), m, calls);
      if err.None? {
        ScanLibDirsCalls(dirs[1..], listingOf, m', calls');
        var r := ScanLibDirsOf(dirs[1..], ScanOf(listingOf), m', calls');
        assert r.calls[..|calls'|][..|calls|] == r.calls[..|calls|];
        forall j | |calls| <= j < |r.calls|
          ensures GoodCallIn(r.calls[j], dirs)
        {
          if j < |calls'| {
            assert r.calls[j] == calls'[j];
            assert A.GoodCall(r.calls[j], dirs[0]);
          } else {
            assert GoodCallIn(r.calls[j], dirs[1..]);
          }
        }
      }
    }
  }

  /** The counts of the progress lines: none is negative, and after a scan
      with no error they add up to the number of apps found. */
  lemma ScanLibDirsCounts(dirs: seq<string>, listingOf: string -> A.LibListing, m: map<int, A.InstalledApp>, calls: seq<A.DiffCall>)
    requires A.WellFormed(m)
    ensures var r := ScanLibDirsOf(dirs, ScanOf(listingOf), m, calls);
      && (forall i :: 0 <= i < |r.added| ==> r.added[i] >= 0)
      && (r.err.None? ==> Sum(r.added) == |r.byApp| - |m|)
  {
    forall d, m0, calls0 | A.WellFormed(m0)
      ensures var s := ScanOf(listingOf)(d, m0, calls0); A.WellFormed(s.1) && m0.Keys <= s.1.Keys
    {
      A.ScanSteamLibDirKeepsWellFormed(d, listingOf(d), m0, calls0);
    }
    CountsOfGrowingScan(dirs, ScanOf(listingOf), m, calls);
  }

  /** A folder scan that keeps the map well formed and never drops an app. */
  ghost predicate Grows(scanDir: DirScan)
  {
    forall d, m, calls :: A.WellFormed(m) ==> A.WellFormed(scanDir(d, m, calls).1) && m.Keys <= scanDir(d, m, calls).1.Keys
  }

  lemma {:induction false} CountsOfGrowingScan(dirs: seq<string>, scanDir: DirScan, m: map<int, A.InstalledApp>, calls: seq<A.DiffCall>)
    requires A.WellFormed(m) && Grows(scanDir)
    ensures var r := ScanLibDirsOf(dirs, scanDir, m, calls);
      && (forall i :: 0 <= i < |r.added| ==> r.added[i] >= 0)
      && (r.err.None? ==> Sum(r.added) == |r.byApp| - |m|)
    decreases |dirs|
  {
    if |dirs| > 0 {
      var (err, m', calls') := scanDir(dirs[0], m, calls);
      if err.None? {
        SubsetCard(m.Keys, m'.Keys);
        CountsOfGrowingScan(dirs[1..], scanDir, m', calls');
        var r := ScanLibDirsOf(dirs, scanDir, m, calls);
        var rest := ScanLibDirsOf(dirs[1..], scanDir, m', calls');
        assert r.added == [|m'| - |m|] + rest.added;
        assert r.added[1..] == rest.added;
      }
    }
  }

  /** A call of reportCount, printed as ReportCount(n, noun, where). */
  datatype CountReport = CountReport(n: int, noun: string, where: string)

  /** The per-folder progress reports, one per folder scanned without error. */
  function CountReports(dirs: seq<string>, added: seq<int>): (reports: seq<CountReport>)
    requires |added| <= |dirs|
    ensures |reports| == |added|
    ensures forall i :: 0 <= i < |added| ==> reports[i] == CountReport(added[i], ManifestNoun, dirs[i])
  {
    if |added| == 0 then []
    else CountReports(dirs, added[..|added| - 1]) + [CountReport(added[|added| - 1], ManifestNoun, dirs[|added| - 1])]
  }

  lemma CountReportsSnoc(dirs: seq<string>, added: seq<int>, n: int)
    requires |added| < |dirs|
    ensures CountReports(dirs, added + [n]) == CountReports(dirs, added) + [CountReport(n, ManifestNoun, dirs[|added|])]
  {
    assert (added + [n])[..|added|] == added;
  }

  /** What -v prints while scanning the folders: a report per folder and, for
      more than one folder, the total. */
  function ProgressReports(dirs: seq<string>, r: LibsScan): seq<CountReport>
    requires |r.added| <= |dirs|
  {
    CountReports(dirs, r.added)
    + if r.err.None? && |dirs| > 1 then [CountReport(|r.byApp|, ManifestNoun, "in " + Itoa(|dirs|) + " directories")] else []
  }

  /** Why the program stops while scanning the library folders. */
  datatype LibsFailure = SkipPanic | LibFailed(e: A.LibScanError)

  /** scanSteamLibraryDirs(dirList, skipHomeSLF, verbose): a fresh manifests
      map filled from each folder; listingOf gives what each folder holds. */
  method ScanSteamLibraryDirs(dirList: seq<string>, skipHomeSLF: bool, verbose: bool, listingOf: string -> A.LibListing)
    returns (apps: A.InstalledApps, failure: Option<LibsFailure>, progress: seq<CountReport>)
    ensures fresh(apps)
    ensures LibDirsToScan(dirList, skipHomeSLF).None? ==>
      failure == Some(SkipPanic) && apps.byApp == map[] && apps.diffCalls == [] && progress == []
    ensures LibDirsToScan(dirList, skipHomeSLF).Some? ==>
      var dirs := LibDirsToScan(dirList, skipHomeSLF).value;
      var r := ScanLibDirsOf(dirs, ScanOf(listingOf), map[], []);
      && |r.added| <= |dirs|
      && failure == (if r.err.Some? then Some(LibFailed(r.err.value)) else None)
      && apps.byApp == r.byApp && apps.diffCalls == r.calls
      && progress == (if verbose then ProgressReports(dirs, r) else [])
  {
    apps := new A.InstalledApps();
    var dirs := dirList;
    if skipHomeSLF {
      if |dirs| == 0 {
        return apps, Some(SkipPanic), [];
      }
      dirs := dirs[1..];
    }
    ScanLibDirsKeepsWellFormed(dirs, listingOf, map[], []);
    failure, progress := ScanDirs(apps, dirs, verbose, listingOf, ScanOf(listingOf));
  }

  /** The loop of scanSteamLibraryDirs over the folders, into the empty map,
      then the total line; scanDir stands for ScanOf(listingOf). */
  method ScanDirs(apps: A.InstalledApps, dirs: seq<string>, verbose: bool, listingOf: string -> A.LibListing, ghost scanDir: DirScan)
    returns (failure: Option<LibsFailure>, progress: seq<CountReport>)
    requires ScansListings(scanDir, listingOf)
    requires apps.byApp == map[] && apps.diffCalls == []
    requires |ScanLibDirsOf(dirs, scanDir, map[], []).added| <= |dirs|
    modifies apps
    ensures var r := ScanLibDirsOf(dirs, scanDir, map[], []);
      && failure == (if r.err.Some? then Some(LibFailed(r.err.value)) else None)
      && apps.byApp == r.byApp && apps.diffCalls == r.calls
      && progress == (if verbose then ProgressReports(dirs, r) else [])
  {
    failure, progress := ScanEach(apps, dirs, verbose, listingOf, scanDir);
    if failure.None? && verbose && |dirs| > 1 {
      progress := progress + [CountReport(|apps.byApp|, ManifestNoun, "in " + Itoa(|dirs|) + " directories")];
    }
  }

  /** The `for _, dir := range dirs` loop: one count line per folder with -v,
      stopping at the first folder that fails. */
  method ScanEach(apps: A.InstalledApps, dirs: seq<string>, verbose: bool, listingOf: string -> A.LibListing, ghost scanDir: DirScan)
    returns (failure: Option<LibsFailure>, progress: seq<CountReport>)
    requires ScansListings(scanDir, listingOf)
    requires apps.byApp == map[] && apps.diffCalls == []
    requires |ScanLibDirsOf(dirs, scanDir, map[], []).added| <= |dirs|
    modifies apps
    ensures var r := ScanLibDirsOf(dirs, scanDir, map[], []);
      && failure == (if r.err.Some? then Some(LibFailed(r.err.value)) else None)
      && apps.byApp == r.byApp && apps.diffCalls == r.calls
      && progress == (if verbose then CountReports(dirs, r.added) else [])
  {
    progress := [];
    var nMappedApps := 0;
    ghost var whole := ScanLibDirsOf(dirs, scanDir, map[], []);
    ghost var added: seq<int> := [];
    ghost var rest := whole;
    for i := 0 to |dirs|
      invariant |added| == i
      invariant nMappedApps == |apps.byApp|
      invariant rest == ScanLibDirsOf(dirs[i..], scanDir, apps.byApp, apps.diffCalls)
      invariant whole == Resume(added, rest)
      invariant progress == if verbose then CountReports(dirs, added) else []
    {
      assert dirs[i..][1..] == dirs[i + 1..];
      var err := ScanFirst(apps, dirs[i..], listingOf, scanDir);
      if err.Some? {
        assert whole.added == added;
        return Some(LibFailed(err.value)), progress;
      }
      var nAdded := |apps.byApp| - nMappedApps;
      ghost var next := ScanLibDirsOf(dirs[i + 1..], scanDir, apps.byApp, apps.diffCalls);
      assert rest == Resume([nAdded], next);
      ResumeTwice(added, [nAdded], next);
      CountReportsSnoc(dirs, added, nAdded);
      if verbose {
        progress := progress + [CountReport(nAdded, ManifestNoun, dirs[i])];
      }
      added := added + [nAdded];
      rest := next;
      nMappedApps := |apps.byApp|;
    }
    assert dirs[|dirs|..] == [];
    assert rest == LibsScan(None, apps.byApp, apps.diffCalls, []);
    assert whole.added == added;
    return None, progress;
  }

  /** Scans the first of the folders still to scan into apps, with the
      result stated as one step of ScanLibDirsOf. */
  method ScanFirst(apps: A.InstalledApps, todo: seq<string>, listingOf: string -> A.LibListing, ghost scanDir: DirScan)
    returns (err: Option<A.LibScanError>)
    requires ScansListings(scanDir, listingOf)
    requires |todo| > 0
    modifies apps
    ensures err.Some? ==>
      ScanLibDirsOf(todo, scanDir, old(apps.byApp), old(apps.diffCalls)) == LibsScan(err, apps.byApp, apps.diffCalls, [])
    ensures err.None? ==>
      ScanLibDirsOf(todo, scanDir, old(apps.byApp), old(apps.diffCalls))
      == Resume([|apps.byApp| - |old(apps.byApp)|], ScanLibDirsOf(todo[1..], scanDir, apps.byApp, apps.diffCalls))
  {
    err := apps.ScanSteamLibDir(todo[0], listingOf(todo[0]));
  }

  /** The counts found before the folders still to scan, put in front. */
  function Resume(added: seq<int>, r: LibsScan): LibsScan
  {
    r.(added := added + r.added)
  }

  lemma ResumeTwice(a: seq<int>, b: seq<int>, r: LibsScan)
    ensures Resume(a, Resume(b, r)) == Resume(a + b, r)
  {
    assert a + (b + r.added) == (a + b) + r.added;
  }

  /*------------------ Duplicate manifests: reportOldManifest ----------------*/

  /** What changed between the manifest already kept and the new one. */
  datatype Detail = SameDetails | NewInstallDir(now: string, was: string) | NewName(was: string) | NewNameAndInstallDir(was: string)

  /** The message reportOldManifest prints, field by field. */
  datatype ManifestNote = ManifestNote(
    verb: string,        // "Found", or the verb and what was done with the manifest
    heading: string,     // "a second manifest" or "manifest #<n>"
    appNumber: int,
    appName: string,
    detail: Detail,
    folder: string,      // the folder of the new manifest, with a trailing separator
    earlier: seq<string>) // the folders of the manifests seen before, numbered from #1

  function Heading(nEarlier: nat): (h: string)
    ensures h == "a second manifest" <==> nEarlier == 1
    ensures nEarlier != 1 ==> |h| > 10 && h[..10] == "manifest #" && IsDigit(h[10])
  {
    if nEarlier == 1 then "a second manifest"
    else
      ItoaSign(nEarlier + 1);
      var h := "manifest #" + Itoa(nEarlier + 1);
      assert h[0] == 'm' && h[10] == Itoa(nEarlier + 1)[0];
      h
  }

  function DetailOf(prev: A.InstalledApp, curr: A.InstalledApp): (d: Detail)
    ensures d.SameDetails? <==> prev.appName == curr.appName && prev.installDir == curr.installDir
    ensures d.NewInstallDir? <==> prev.appName == curr.appName && prev.installDir != curr.installDir
    ensures d.NewInstallDir? ==> d.now == curr.installDir && d.was == prev.installDir
    ensures d.NewNameAndInstallDir? <==> prev.appName != curr.appName && prev.installDir != curr.installDir
    ensures d.NewName? || d.NewNameAndInstallDir? ==> d.was == prev.appName
  {
    if prev.appName == curr.appName then
      if prev.installDir == curr.installDir then SameDetails else NewInstallDir(curr.installDir, prev.installDir)
    else if prev.installDir == curr.installDir then NewName(prev.appName)
    else NewNameAndInstallDir(prev.appName)
  }

  /** The verb as check-backups.go builds it: the words are concatenated
      without a space. */
  function VerbAsWritten(isDifferent: bool, usingCurr: bool): (v: string)
    ensures |v| >= 5 && v[..5] == "Found"
    ensures v == "Found" <==> !isDifferent
    ensures isDifferent ==> v[5] == 'a'
  {
    if !isDifferent then "Found"
    else if usingCurr then "Found" + "and using"
    else "Found" + "and ignoring"
  }

  /** The verb as intended: "Found", then what was done with the manifest. */
  function Verb(isDifferent: bool, usingCurr: bool): string
  {
    if !isDifferent then "Found"
    else if usingCurr then "Found and using"
    else "Found and ignoring"
  }

  /** Whether the text starts with the word w, followed by a space or nothing. */
  predicate FirstWordIs(s: string, w: string)
  {
    && ' ' !in w && |w| <= |s| && s[..|w|] == w
    && (|s| == |w| || s[|w|] == ' ')
  }

  /** Whether the text ends with `w`. */
  predicate EndsWith(s: string, w: string)
  {
    |w| <= |s| && s[|s| - |w|..] == w
  }

  /** The message is one sentence starting with the word "Found"; it says
      "using" exactly when the details differ and the new manifest is used,
      and is just "Found" when they do not differ. */
  lemma VerbReads(isDifferent: bool, usingCurr: bool)
    ensures FirstWordIs(Verb(isDifferent, usingCurr), "Found")
    ensures EndsWith(Verb(isDifferent, usingCurr), "using") <==> isDifferent && usingCurr
    ensures Verb(isDifferent, usingCurr) == "Found" <==> !isDifferent
  {
    var v := Verb(isDifferent, usingCurr);
    assert v[..5] == "Found";
    if !(isDifferent && usingCurr) {
      assert v[|v| - 5] != 'u';
    }
  }

  /** As written, a changed manifest is announced with the run-on word
      "Foundand". */
  lemma VerbAsWrittenRunsOn(usingCurr: bool)
    ensures !FirstWordIs(VerbAsWritten(true, usingCurr), "Found")
    ensures FirstWordIs(VerbAsWritten(true, usingCurr), "Foundand")
  {
    var v := VerbAsWritten(true, usingCurr);
    assert v[5] == 'a';
    assert v[..8] == "Foundand";
    assert v[8] == ' ';
  }

  /** reportOldManifest(prev, curr, usingCurr), as written (it reads the new
      manifest's first library folder, which ScanSteamLibDir always sets). */
  function OldManifestNoteAsWritten(call: A.DiffCall): ManifestNote
    requires |call.curr.libraryFolders| > 0
  {
    var detail := DetailOf(call.prev, call.curr);
    ManifestNote(VerbAsWritten(!detail.SameDetails?, call.usingCurr), Heading(|call.prev.libraryFolders|),
      call.curr.appNumber, call.curr.appName, detail, call.curr.libraryFolders[0] + "/", call.prev.libraryFolders)
  }

  /** reportOldManifest with the verb spelled as intended. */
  function OldManifestNote(call: A.DiffCall): ManifestNote
    requires |call.curr.libraryFolders| > 0
  {
    var detail := DetailOf(call.prev, call.curr);
    ManifestNote(Verb(!detail.SameDetails?, call.usingCurr), Heading(|call.prev.libraryFolders|),
      call.curr.appNumber, call.curr.appName, detail, call.curr.libraryFolders[0] + "/", call.prev.libraryFolders)
  }

  /** For every call a scan of libPath makes: the note names the folder
      scanned and lists every folder seen before; it says "the same details"
      exactly when name and install directory agree, and otherwise tells
      whether the new manifest is used, which it is exactly when it is not
      older than the one kept. */
  lemma OldManifestNoteFacts(call: A.DiffCall, libPath: string)
    requires A.GoodCall(call, libPath)
    ensures var note := OldManifestNote(call);
      && note.folder == libPath + "/"
      && note.earlier == call.prev.libraryFolders
      && (note.detail == SameDetails <==> call.prev.appName == call.curr.appName && call.prev.installDir == call.curr.installDir)
      && (note.detail.NewInstallDir? ==> note.detail.now == call.curr.installDir && note.detail.was == call.prev.installDir)
      && (note.detail.NewName? || note.detail.NewNameAndInstallDir? ==> note.detail.was == call.prev.appName)
      && FirstWordIs(note.verb, "Found")
      && (EndsWith(note.verb, "using") <==> note.detail != SameDetails && call.prev.modTime <= call.curr.modTime)
      && (note.verb == "Found" <==> note.detail == SameDetails)
  {
    var detail := DetailOf(call.prev, call.curr);
    VerbReads(!detail.SameDetails?, call.usingCurr);
  }

  /** The heading counts the manifests seen so far: "second" after one, and
      otherwise the number after those already seen. */
  lemma HeadingCounts(nEarlier: nat)
    ensures nEarlier == 1 <==> Heading(nEarlier) == "a second manifest"
    ensures nEarlier != 1 ==> Heading(nEarlier)[..10] == "manifest #" && Heading(nEarlier)[10..] == Itoa(nEarlier + 1)
  {
    if nEarlier != 1 {
      var h := Heading(nEarlier);
      assert h[0] == 'm';
      assert "a second manifest"[0] == 'a';
    }
  }

  /*-------------------- Duplicate backups: handleDupeBackup ------------------*/

  predicate IsSingleApp(b: B.AppBackup) { |b.appNumbers| == 1 }

  predicate IsMultiApp(b: B.AppBackup) { |b.appNumbers| > 1 }

  /** handleDupeBackup(appNum, prev, curr): whether the backup just read
      replaces the one already in the map. */
  function HandleDupeBackup(appNum: int, prev: B.AppBackup, curr: B.AppBackup): (useCurr: bool)
    ensures IsMultiApp(prev) && IsSingleApp(curr) ==> useCurr
    ensures IsSingleApp(prev) && IsMultiApp(curr) ==> !useCurr
    ensures !(IsMultiApp(prev) && IsSingleApp(curr)) && !(IsSingleApp(prev) && IsMultiApp(curr)) ==>
      (useCurr <==> prev.modTime <= curr.modTime)
  {
    if IsMultiApp(prev) && IsSingleApp(curr) then true
    else if IsSingleApp(prev) && IsMultiApp(curr) then false
    else !(prev.modTime > curr.modTime)
  }

  /** The backup kept and the one dropped. */
  function Kept(appNum: int, prev: B.AppBackup, curr: B.AppBackup): B.AppBackup
  {
    if HandleDupeBackup(appNum, prev, curr) then curr else prev
  }

  function Dropped(appNum: int, prev: B.AppBackup, curr: B.AppBackup): B.AppBackup
  {
    if HandleDupeBackup(appNum, prev, curr) then prev else curr
  }

  /** A single-app backup beats one holding several apps; between two of the
      same sort, the newer is kept, and on a tie the one read later. */
  lemma KeptPrefersSingleThenNewest(appNum: int, prev: B.AppBackup, curr: B.AppBackup)
    ensures var k := Kept(appNum, prev, curr);
      && {k, Dropped(appNum, prev, curr)} == {prev, curr}
      && (IsSingleApp(prev) && IsMultiApp(curr) ==> k == prev)
      && (IsMultiApp(prev) && IsSingleApp(curr) ==> k == curr)
      && (IsSingleApp(prev) == IsSingleApp(curr) && IsMultiApp(prev) == IsMultiApp(curr) ==>
            k.modTime >= prev.modTime && k.modTime >= curr.modTime && (prev.modTime == curr.modTime ==> k == curr))
  {
  }

  /** The choice does not depend on which of two backups is read first,
      unless they are of the same sort and equally old. */
  lemma KeptSymmetric(appNum: int, a: B.AppBackup, b: B.AppBackup)
    requires a.modTime != b.modTime || (IsSingleApp(a) && IsMultiApp(b)) || (IsMultiApp(a) && IsSingleApp(b))
    ensures Kept(appNum, a, b) == Kept(appNum, b, a)
  {
  }

  /** What ScanBackupsDir keeps for an app of a backup, with this handler: the
      backup itself for a new app, else the one handleDupeBackup prefers. */
  lemma RecordKeepsPreferred(m: map<int, B.AppBackup>, b: B.AppBackup, k: int)
    requires multiset(b.appNumbers)[k] == 1
    ensures var r := B.RecordOf(m, b, b.appNumbers, HandleDupeBackup);
      k in r && r[k] == if k in m then Kept(k, m[k], b) else b
  {
    B.RecordDecides(m, b, b.appNumbers, HandleDupeBackup, k);
  }

  /*------------------- Duplicate backups: reportBackupChoice ----------------*/

  /** How a backup is described in the message. */
  datatype BackupLabel = SingleApp | MultiApp(apps: nat) | Older(time: int) | Newer(time: int)

  /** The message reportBackupChoice prints, field by field: the app, its
      name (guessed, with a "?", when no manifest names it), then the backup
      on the "Using" line and the one on the "Ignoring" line. */
  datatype BackupChoice = BackupChoice(
    appNum: int, appName: string, guessedName: bool,
    usingLabel: BackupLabel, usingPath: string,
    ignoringLabel: BackupLabel, ignoringPath: string)

  /** The name used in the message: the installed app's, or else the given
      backup's, marked as a guess. */
  function ChoiceName(installed: map<int, A.InstalledApp>, appNum: int, named: B.AppBackup): (string, bool)
  {
    if appNum in installed then (installed[appNum].appName, false) else (named.backupName, true)
  }

  /** reportBackupChoice(appNum, dText, dInfo, kText, kInfo): the first pair
      goes on the "Using" line, the second on the "Ignoring" line, and the
      name is guessed from the second. */
  function ReportChoiceAsWritten(installed: map<int, A.InstalledApp>, appNum: int,
                                 dText: BackupLabel, dInfo: B.AppBackup, kText: BackupLabel, kInfo: B.AppBackup): BackupChoice
  {
    var (name, guessed) := ChoiceName(installed, appNum, kInfo);
    BackupChoice(appNum, name, guessed, dText, dInfo.backupPath, kText, kInfo.backupPath)
  }

  /** The report handleDupeBackup makes, as written: when the ages decide, the
      "Using" line always shows curr, labelled with the older time. */
  function BackupChoiceAsWritten(installed: map<int, A.InstalledApp>, appNum: int, prev: B.AppBackup, curr: B.AppBackup): BackupChoice
  {
    if IsMultiApp(prev) && IsSingleApp(curr) then
      ReportChoiceAsWritten(installed, appNum, SingleApp, curr, MultiApp(|prev.appNumbers|), prev)
    else if IsSingleApp(prev) && IsMultiApp(curr) then
      ReportChoiceAsWritten(installed, appNum, SingleApp, prev, MultiApp(|curr.appNumbers|), curr)
    else
      var (d, k) := if prev.modTime > curr.modTime then (curr, prev) else (prev, curr);
      ReportChoiceAsWritten(installed, appNum, Older(d.modTime), curr, Newer(k.modTime), prev)
  }

  /** The report as intended: the kept backup on the "Using" line (single-app,
      or newer), the dropped one on the "Ignoring" line, and the name guessed
      from the kept one. */
  function BackupChoiceOf(installed: map<int, A.InstalledApp>, appNum: int, prev: B.AppBackup, curr: B.AppBackup): BackupChoice
  {
    var keep := Kept(appNum, prev, curr);
    var drop := Dropped(appNum, prev, curr);
    var (name, guessed) := ChoiceName(installed, appNum, keep);
    if (IsMultiApp(prev) && IsSingleApp(curr)) || (IsSingleApp(prev) && IsMultiApp(curr)) then
      BackupChoice(appNum, name, guessed, SingleApp, keep.backupPath, MultiApp(|drop.appNumbers|), drop.backupPath)
    else
      BackupChoice(appNum, name, guessed, Newer(keep.modTime), keep.backupPath, Older(drop.modTime), drop.backupPath)
  }

  /** The intended report tells the truth: "Using" names the backup
      handleDupeBackup keeps and "Ignoring" the other; a single-app backup is
      used over a multi-app one; otherwise the used one is labelled newer with
      a time no earlier than the ignored one's. */
  lemma BackupChoiceNamesKept(installed: map<int, A.InstalledApp>, appNum: int, prev: B.AppBackup, curr: B.AppBackup)
    ensures var c := BackupChoiceOf(installed, appNum, prev, curr);
      var useCurr := HandleDupeBackup(appNum, prev, curr);
      && c.usingPath == (if useCurr then curr else prev).backupPath
      && c.ignoringPath == (if useCurr then prev else curr).backupPath
      && (c.usingLabel == SingleApp <==> c.ignoringLabel.MultiApp?)
      && (c.usingLabel == SingleApp ==> c.ignoringLabel.apps > 1)
      && (c.usingLabel.Newer? <==> c.ignoringLabel.Older?)
      && (c.usingLabel.Newer? ==> c.usingLabel.time >= c.ignoringLabel.time)
      && (c.guessedName <==> appNum !in installed)
  {
  }

  /** As written, with two single-app backups where the one already recorded
      is newer: handleDupeBackup keeps it, yet the "Using" line shows the
      other one. And where the one just read is newer and kept, the "Using"
      line calls it the older backup, with the time of the one ignored. */
  lemma BackupChoiceAsWrittenMisleads()
    ensures var prev := B.AppBackup([440], "TF2", "/b/new", 20);
      var curr := B.AppBackup([440], "TF2", "/b/old", 10);
      && !HandleDupeBackup(440, prev, curr)
      && BackupChoiceAsWritten(map[], 440, prev, curr).usingPath == "/b/old"
      && BackupChoiceOf(map[], 440, prev, curr).usingPath == "/b/new"
    ensures var prev := B.AppBackup([440], "TF2", "/b/old", 10);
      var curr := B.AppBackup([440], "TF2", "/b/new", 20);
      && HandleDupeBackup(440, prev, curr)
      && BackupChoiceAsWritten(map[], 440, prev, curr).usingPath == "/b/new"
      && BackupChoiceAsWritten(map[], 440, prev, curr).usingLabel == Older(10)
      && BackupChoiceOf(map[], 440, prev, curr).usingLabel == Newer(20)
  {
  }

  /*--------------------------------- check ----------------------------------*/

  /** What the classification reads of each manifest: its first library folder
      is where its files are looked for. */
  function InstalledView(m: map<int, A.InstalledApp>): (v: map<int, P.Installed>)
    requires forall k :: k in m ==> |m[k].libraryFolders| > 0
    ensures v.Keys == m.Keys
    ensures forall k :: k in v ==> v[k].appNumber == m[k].appNumber && v[k].libDir == m[k].libraryFolders[0]
  {
    map k | k in m :: P.Installed(m[k].appName, m[k].appNumber, m[k].modTime, m[k].libraryFolders[0], m[k].installDir)
  }

  function SavedView(m: map<int, B.AppBackup>): (v: map<int, P.Saved>)
    ensures v.Keys == m.Keys
    ensures forall k :: k in v ==> v[k].name == m[k].backupName && v[k].modTime == m[k].modTime
  {
    map k | k in m :: P.Saved(m[k].backupName, m[k].modTime)
  }

  const BackupNoun := "Steam backup"

  /** The reports reportBackupChoice prints for the handler calls, in order. */
  function ChoicesAsWritten(installed: map<int, A.InstalledApp>, calls: seq<B.DupeCall>): (r: seq<BackupChoice>)
    ensures |r| == |calls|
    ensures forall i :: 0 <= i < |calls| ==>
      r[i].appNum == calls[i].appNum && {r[i].usingPath, r[i].ignoringPath} == {calls[i].prev.backupPath, calls[i].curr.backupPath}
  {
    seq(|calls|, i requires 0 <= i < |calls| => BackupChoiceAsWritten(installed, calls[i].appNum, calls[i].prev, calls[i].curr))
  }

  /** How check ends: DieIf on a failed backups scan, or the -v count line
      (empty without -v) and the problem report. */
  datatype CheckOutcome = BackupsFailed(e: B.ScanError) | Checked(progress: seq<CountReport>, report: P.ProblemReport)

  /** check(steamBackupsDir, reportUninstalled, verbose), given the manifests
      map, what the backups directory holds, and AppNewerThan; `choices` are
      the duplicate-backup reports printed during the scan, failed or not. */
  method Check(installed: map<int, A.InstalledApp>, backupsDir: string, listing: B.Listing,
               reportUninstalled: bool, verbose: bool, newer: P.NewerOracle)
    returns (outcome: CheckOutcome, log: P.ProblemLog, choices: seq<BackupChoice>)
    requires forall k :: k in installed ==> |installed[k].libraryFolders| > 0
    ensures fresh(log)
    ensures choices == ChoicesAsWritten(installed, B.ScanBackupsDirCalls(backupsDir, listing, map[], Some(HandleDupeBackup)))
    ensures var (err, saved) := B.ScanBackupsDirOf(backupsDir, listing, map[], Some(HandleDupeBackup));
      && (err.Some? ==> outcome == BackupsFailed(err.value) && log.problems == [])
      && (err.None? ==>
            var expected := P.ExpectedProblems(InstalledView(installed), SavedView(saved), reportUninstalled, newer);
            && outcome.Checked?
            && outcome.progress == (if verbose then [CountReport(|saved|, BackupNoun, backupsDir)] else [])
            && (forall p :: p in log.problems <==> p in expected)
            && |log.problems| == |P.ManifestProblemKeys(installed.Keys, InstalledView(installed), SavedView(saved), newer)|
                 + (if reportUninstalled then |P.BackupProblemKeys(saved.Keys, SavedView(saved), InstalledView(installed))| else 0)
            && P.SortedByName(log.problems)
            && outcome.report == (if |log.problems| == 0 then (if verbose then P.NoProblems else P.Silent)
                                  else P.Listed(|log.problems|, log.problems)))
  {
    log := new P.ProblemLog();
    var backups := new B.BackupsByApp();
    var err := backups.ScanBackupsDir(backupsDir, listing, Some(HandleDupeBackup));
    choices := ChoicesAsWritten(installed, backups.dupeCalls);
    if err.Some? {
      return BackupsFailed(err.value), log, choices;
    }
    var progress := if verbose then [CountReport(|backups.byApp|, BackupNoun, backupsDir)] else [];
    var report := P.RecordAndReport(log, InstalledView(installed), SavedView(backups.byApp), reportUninstalled, verbose, newer);
    return Checked(progress, report), log, choices;
  }
}

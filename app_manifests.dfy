/** Installed apps (steamfiles/appmanifests.go).

    A Steam library folder holds one file appmanifest_<N>.acf per installed
    app N, a simple VDF file whose top name is "AppState" and whose strings
    "appid", "name" and "installdir" describe the app. ScanSteamLibDir reads
    every such file in a folder into a map keyed by app number. When an app
    is already in the map (the caller scans several folders into one map) it
    keeps the more recently modified manifest, puts that manifest's folder
    first in LibraryFolders, and tells a caller-supplied reporter.

    The file system is an input: a listing of the folder, and for each name
    the modification time and size of the file and what parseSimpleVDF makes
    of its bytes (VdfParser.ParseSimpleVdfF). */
module AppManifests {
  import opened Wrappers
  import opened GoText
  import opened VdfParser
  import opened VdfApi
  import opened SteamTypes

  /** InstalledApp; modTime is the time the manifest was last modified. */
  datatype InstalledApp = InstalledApp(
    appNumber: int,
    appName: string,
    libraryFolders: seq<string>,
    installDir: string,
    modTime: int)

  /** The arguments of one call of the OldManifestReporter handleDiff. */
  datatype DiffCall = DiffCall(prev: InstalledApp, curr: InstalledApp, usingCurr: bool)

  /** One name in the library folder, with what reading that file gives. */
  datatype ManifestEntry = ManifestEntry(
    name: string,
    modTime: int,
    size: int,
    parsed: Result<(string, Value), VdfFailure>)

  /** Opening and listing the library folder. */
  datatype LibListing = CannotOpenLib | CannotReadLib | ListedLib(entries: seq<ManifestEntry>)

  datatype LibScanError =
    | CannotOpenLibDir(libPath: string)
    | CannotReadLibDir(libPath: string)
    | BadManifest(fileError: FileError)
    | NoAppId(mfPath: string, lookupError: LookupError)
    | BadAppId(appNumError: AppNumError)
    | NoAppName(mfPath: string, lookupError: LookupError)
    | NoInstallDir(mfPath: string, lookupError: LookupError)
    | WrongAppId(fileName: string, appNum: int)
    | NoManifests(libPath: string)

  /*------------------------------ File names --------------------------------*/

  const ManifestPrefix: string := "appmanifest_"
  const ManifestSuffix: string := ".acf"

  /** reManifestFile, `^appmanifest_(\d+)\.acf$`: the digits of a manifest's
      file name (Go's \d is an ASCII digit), None for any other name. */
  function ManifestDigits(name: string): (r: Option<string>)
    ensures r.Some? ==> |r.value| > 0 && AllDigits(r.value) && name == ManifestPrefix + r.value + ManifestSuffix
  {
    var p := |ManifestPrefix|;
    var s := |ManifestSuffix|;
    if |name| > p + s && name[..p] == ManifestPrefix && name[|name| - s..] == ManifestSuffix && AllDigits(name[p..|name| - s])
    then
      assert name == name[..p] + name[p..|name| - s] + name[|name| - s..];
      Some(name[p..|name| - s])
    else None
  }

  /** Every name made of the prefix, one or more digits and the suffix matches,
      and gives back those digits. */
  lemma ManifestDigitsOfName(digits: string)
    requires |digits| > 0 && AllDigits(digits)
    ensures ManifestDigits(ManifestPrefix + digits + ManifestSuffix) == Some(digits)
  {
    var name := ManifestPrefix + digits + ManifestSuffix;
    assert name[..|ManifestPrefix|] == ManifestPrefix;
    assert name[|name| - |ManifestSuffix|..] == ManifestSuffix;
    assert name[|ManifestPrefix|..|name| - |ManifestSuffix|] == digits;
  }

  /*----------------------------- One manifest -------------------------------*/

  /** parseManifest(mfPath), given the file's modification time, size and
      parse; LibraryFolders is left for the caller to fill. */
  function ParseManifestOf(mfPath: string, modTime: int, size: int, parsed: Result<(string, Value), VdfFailure>)
    : (r: Result<InstalledApp, LibScanError>)
    ensures var f := FromParsed(mfPath, modTime, size, parsed, ["AppState"]);
      r.Ok? <==>
        && f.Ok?
        && LookupOf(f.value.topValue, ["appid"]).Ok?
        && ParseAppNum(LookupOf(f.value.topValue, ["appid"]).value, mfPath).Ok?
        && LookupOf(f.value.topValue, ["name"]).Ok?
        && LookupOf(f.value.topValue, ["installdir"]).Ok?
    ensures r.Ok? ==>
      var top := parsed.value.1;
      && parsed.value.0 == "AppState"
      && IsAppNum(r.value.appNumber)
      && Atoi(LookupOf(top, ["appid"]).value) == Some(r.value.appNumber)
      && LookupOf(top, ["name"]) == Ok(r.value.appName)
      && LookupOf(top, ["installdir"]) == Ok(r.value.installDir)
      && r.value.libraryFolders == [] && r.value.modTime == modTime
    ensures FromParsed(mfPath, modTime, size, parsed, ["AppState"]).Err? ==>
      r == Err(BadManifest(FromParsed(mfPath, modTime, size, parsed, ["AppState"]).error))
  {
    match FromParsed(mfPath, modTime, size, parsed, ["AppState"])
    case Err(fe) => Err(BadManifest(fe))
    case Ok(mf) =>
      match LookupOf(mf.topValue, ["appid"])
      case Err(le) => Err(NoAppId(mfPath, le))
      case Ok(idText) =>
        match ParseAppNum(idText, mfPath)
        case Err(ae) => Err(BadAppId(ae))
        case Ok(appNum) =>
          match LookupOf(mf.topValue, ["name"])
          case Err(le) => Err(NoAppName(mfPath, le))
          case Ok(appName) =>
            match LookupOf(mf.topValue, ["installdir"])
            case Err(le) => Err(NoInstallDir(mfPath, le))
            case Ok(installDir) => Ok(InstalledApp(appNum, appName, [], installDir, mf.modTime))
  }

  /** Reading one name of the library folder: None when it is not a manifest's
      name; an error when the manifest is bad or its app ID is not the number
      in its name. */
  function ReadManifestOf(libPath: string, e: ManifestEntry): (r: Result<Option<InstalledApp>, LibScanError>)
    ensures ManifestDigits(e.name).None? <==> r == Ok(None)
    ensures r.Ok? && r.value.Some? ==>
      var app := r.value.value;
      && IsAppNum(app.appNumber) && app.libraryFolders == [] && app.modTime == e.modTime
      && e.name == ManifestPrefix + Itoa(app.appNumber) + ManifestSuffix
    ensures r.Err? && r.error.WrongAppId? ==>
      ManifestDigits(e.name).Some? && ManifestDigits(e.name).value != Itoa(r.error.appNum)
  {
    match ManifestDigits(e.name)
    case None => Ok(None)
    case Some(digits) =>
      match ParseManifestOf(PathJoin(libPath, e.name), e.modTime, e.size, e.parsed)
      case Err(err) => Err(err)
      case Ok(app) =>
        if Itoa(app.appNumber) != digits then Err(WrongAppId(e.name, app.appNumber))
        else Ok(Some(app))
  }

  /*------------------------ Duplicate manifests -----------------------------*/

  /** The merge of a manifest `curr` just read in libPath with the app's entry
      `prev` already in the map: the entry to store and the call made to
      handleDiff. The current manifest is used unless it is older. */
  function Merge(prev: InstalledApp, curr: InstalledApp, libPath: string): (InstalledApp, DiffCall)
  {
    var usingCurr := !(curr.modTime < prev.modTime);
    var call := DiffCall(prev, curr.(libraryFolders := [libPath]), usingCurr);
    if usingCurr then (curr.(libraryFolders := [libPath] + prev.libraryFolders), call)
    else (prev.(libraryFolders := prev.libraryFolders + [libPath]), call)
  }

  /** The merge keeps the details of the newer manifest (the current one on a
      tie), puts its folder first, and adds the new folder to the list. The
      reporter sees the previous entry as it was, and the current manifest
      with only its own folder. */
  lemma MergeKeepsNewest(prev: InstalledApp, curr: InstalledApp, libPath: string)
    ensures var (w, call) := Merge(prev, curr, libPath);
      && (call.usingCurr <==> prev.modTime <= curr.modTime)
      && call.prev == prev && call.curr.libraryFolders == [libPath]
      && call.curr == curr.(libraryFolders := call.curr.libraryFolders)
      && w == (if call.usingCurr then curr else prev).(libraryFolders := w.libraryFolders)
      && w.modTime >= prev.modTime && w.modTime >= curr.modTime
      && multiset(w.libraryFolders) == multiset(prev.libraryFolders) + multiset{libPath}
      && (call.usingCurr ==> w.libraryFolders[0] == libPath)
      && (!call.usingCurr && |prev.libraryFolders| > 0 ==> w.libraryFolders[0] == prev.libraryFolders[0])
  {
  }

  /** Storing a manifest just read: a first sighting gets LibraryFolders =
      [libPath]; a duplicate is merged and handleDiff is called. */
  function StoreOf(m: map<int, InstalledApp>, calls: seq<DiffCall>, app: InstalledApp, libPath: string)
    : (r: (map<int, InstalledApp>, seq<DiffCall>))
    ensures r.0.Keys == m.Keys + {app.appNumber}
    ensures forall k :: k in m && k != app.appNumber ==> r.0[k] == m[k]
    ensures app.appNumber !in m ==> r.1 == calls && r.0[app.appNumber] == app.(libraryFolders := [libPath])
    ensures app.appNumber in m ==>
      && |r.1| == |calls| + 1 && r.1[..|calls|] == calls
      && r.1[|calls|].prev == m[app.appNumber] && r.1[|calls|].curr.libraryFolders == [libPath]
      && |r.0[app.appNumber].libraryFolders| == |m[app.appNumber].libraryFolders| + 1
  {
    var n := app.appNumber;
    if n in m then
      var (w, call) := Merge(m[n], app, libPath);
      (m[n := w], calls + [call])
    else (m[n := app.(libraryFolders := [libPath])], calls)
  }

  /*----------------------------- The whole scan -----------------------------*/

  type ManifestRead = Result<Option<InstalledApp>, LibScanError>

  predicate IsManifest(r: ManifestRead) { r.Ok? && r.value.Some? }

  /** The loop over the folder's names, given what reading each gives; calls
      accumulates the handleDiff calls, nFound counts the manifests read. */
  function ScanFrom(libPath: string, outcomes: seq<ManifestRead>, m: map<int, InstalledApp>, calls: seq<DiffCall>, nFound: nat)
    : (r: (Option<LibScanError>, map<int, InstalledApp>, seq<DiffCall>))
    ensures r.0.None? ==> forall i :: 0 <= i < |outcomes| ==> outcomes[i].Ok?
    ensures (forall i :: 0 <= i < |outcomes| ==> outcomes[i] == Ok(None)) ==>
      r == (if nFound == 0 then Some(NoManifests(libPath)) else None, m, calls)
    decreases |outcomes|
  {
    if |outcomes| == 0 then
      (if nFound == 0 then Some(NoManifests(libPath)) else None, m, calls)
    else match outcomes[0]
      case Err(e) => (Some(e), m, calls)
      case Ok(None) => ScanFrom(libPath, outcomes[1..], m, calls, nFound)
      case Ok(Some(app)) =>
        var (m', calls') := StoreOf(m, calls, app, libPath);
        ScanFrom(libPath, outcomes[1..], m', calls', nFound + 1)
  }

  /** What reading each name of the listing gives, in order. */
  function ReadAll(libPath: string, entries: seq<ManifestEntry>): (r: seq<ManifestRead>)
    ensures |r| == |entries|
  {
    if |entries| == 0 then [] else [ReadManifestOf(libPath, entries[0])] + ReadAll(libPath, entries[1..])
  }

  lemma {:induction false} ReadAllAt(libPath: string, entries: seq<ManifestEntry>, i: nat)
    requires i < |entries|
    ensures ReadAll(libPath, entries)[i] == ReadManifestOf(libPath, entries[i])
  {
    if i > 0 {
      ReadAllAt(libPath, entries[1..], i - 1);
    }
  }

  /** ScanSteamLibDir(libPath, m, handleDiff): the error it returns, the map it
      leaves (manifests stored before an error stay in it) and the calls it
      makes to handleDiff after `calls`. */
  function ScanSteamLibDirOf(libPath: string, listing: LibListing, m: map<int, InstalledApp>, calls: seq<DiffCall>)
    : (r: (Option<LibScanError>, map<int, InstalledApp>, seq<DiffCall>))
    ensures !listing.ListedLib? ==> r.0.Some? && r.1 == m && r.2 == calls
    ensures listing.ListedLib? && |listing.entries| == 0 ==> r == (Some(NoManifests(libPath)), m, calls)
  {
    match listing
    case CannotOpenLib => (Some(CannotOpenLibDir(libPath)), m, calls)
    case CannotReadLib => (Some(CannotReadLibDir(libPath)), m, calls)
    case ListedLib(entries) => ScanFrom(libPath, ReadAll(libPath, entries), m, calls, 0)
  }

  /** The map ScanSteamLibDir builds: every app under its own number, with at
      least one library folder. */
  predicate WellFormed(m: map<int, InstalledApp>)
  {
    forall k :: k in m ==> IsAppNum(k) && m[k].appNumber == k && |m[k].libraryFolders| > 0
  }

  /** What a handleDiff call is given: the entry in the map and a manifest of
      the same app read in libPath, and whether the latter is used. */
  predicate GoodCall(call: DiffCall, libPath: string)
  {
    && call.curr.appNumber == call.prev.appNumber
    && call.curr.libraryFolders == [libPath]
    && |call.prev.libraryFolders| > 0
    && (call.usingCurr <==> call.prev.modTime <= call.curr.modTime)
  }

  /** The scan keeps the map well formed and only appends well-formed calls. */
  lemma {:induction false} ScanKeepsWellFormed(libPath: string, outcomes: seq<ManifestRead>, m: map<int, InstalledApp>, calls: seq<DiffCall>, nFound: nat)
    requires WellFormed(m)
    requires forall i :: 0 <= i < |outcomes| && IsManifest(outcomes[i]) ==> IsAppNum(outcomes[i].value.value.appNumber)
    ensures var r := ScanFrom(libPath, outcomes, m, calls, nFound);
      && WellFormed(r.1) && m.Keys <= r.1.Keys
      && |calls| <= |r.2| && r.2[..|calls|] == calls
      && forall j :: |calls| <= j < |r.2| ==> GoodCall(r.2[j], libPath)
    decreases |outcomes|
  {
    if |outcomes| > 0 && outcomes[0].Ok? {
      var (m', calls') := if IsManifest(outcomes[0]) then StoreOf(m, calls, outcomes[0].value.value, libPath) else (m, calls);
      if IsManifest(outcomes[0]) {
        var app := outcomes[0].value.value;
        if app.appNumber in m {
          MergeKeepsNewest(m[app.appNumber], app, libPath);
        }
      }
      forall i | 0 <= i < |outcomes[1..]| && IsManifest(outcomes[1..][i])
        ensures IsAppNum(outcomes[1..][i].value.value.appNumber)
      {
        assert outcomes[1..][i] == outcomes[i + 1];
      }
      ScanKeepsWellFormed(libPath, outcomes[1..], m', calls', if IsManifest(outcomes[0]) then nFound + 1 else nFound);
      var r := ScanFrom(libPath, outcomes[1..], m', calls', if IsManifest(outcomes[0]) then nFound + 1 else nFound);
      assert r.2[..|calls'|][..|calls|] == r.2[..|calls|];
    }
  }

  /** The scan fails with the first name that cannot be read, or with "cannot
      see any appmanifest_<N>.acf files" when no manifest has been found;
      otherwise it succeeds. */
  lemma {:induction false} ScanOutcome(libPath: string, outcomes: seq<ManifestRead>, m: map<int, InstalledApp>, calls: seq<DiffCall>, nFound: nat)
    ensures var r := ScanFrom(libPath, outcomes, m, calls, nFound);
      && (r.0.None? <==> (forall i :: 0 <= i < |outcomes| ==> outcomes[i].Ok?) && (nFound > 0 || exists i :: 0 <= i < |outcomes| && IsManifest(outcomes[i])))
      && (r.0.Some? && r.0.value != NoManifests(libPath) ==>
            exists i :: 0 <= i < |outcomes| && outcomes[i] == Err(r.0.value) && forall j :: 0 <= j < i ==> outcomes[j].Ok?)
    decreases |outcomes|
  {
    if |outcomes| > 0 && outcomes[0].Ok? {
      var r := ScanFrom(libPath, outcomes, m, calls, nFound);
      var (m', calls') := if IsManifest(outcomes[0]) then StoreOf(m, calls, outcomes[0].value.value, libPath) else (m, calls);
      var n' := if IsManifest(outcomes[0]) then nFound + 1 else nFound;
      assert r == ScanFrom(libPath, outcomes[1..], m', calls', n');
      ScanOutcome(libPath, outcomes[1..], m', calls', n');
      ShiftQuantifiers(outcomes);
      if r.0.Some? && r.0.value != NoManifests(libPath) {
        var i :| 0 <= i < |outcomes[1..]| && outcomes[1..][i] == Err(r.0.value) && forall j :: 0 <= j < i ==> outcomes[1..][j].Ok?;
        assert outcomes[i + 1] == Err(r.0.value);
        assert forall j :: 0 <= j < i + 1 ==> outcomes[j].Ok? by {
          forall j | 0 < j < i + 1 ensures outcomes[j].Ok? { assert outcomes[j] == outcomes[1..][j - 1]; }
        }
      }
    }
  }

  /** Quantifiers over the tail of a list of outcomes, moved to the whole list. */
  lemma ShiftQuantifiers(outcomes: seq<ManifestRead>)
    requires |outcomes| > 0
    ensures (forall i :: 0 <= i < |outcomes| ==> outcomes[i].Ok?) <==> outcomes[0].Ok? && forall i :: 0 <= i < |outcomes[1..]| ==> outcomes[1..][i].Ok?
    ensures (exists i :: 0 <= i < |outcomes| && IsManifest(outcomes[i])) <==> IsManifest(outcomes[0]) || exists i :: 0 <= i < |outcomes[1..]| && IsManifest(outcomes[1..][i])
  {
    assert forall i :: 0 < i < |outcomes| ==> outcomes[i] == outcomes[1..][i - 1];
    if exists i :: 0 <= i < |outcomes| && IsManifest(outcomes[i]) {
      var i :| 0 <= i < |outcomes| && IsManifest(outcomes[i]);
      if i > 0 { assert IsManifest(outcomes[1..][i - 1]); }
    }
  }

  /** The scan stops at the first name that cannot be read, with its error. */
  lemma {:induction false} ScanStopsAt(libPath: string, outcomes: seq<ManifestRead>, m: map<int, InstalledApp>, calls: seq<DiffCall>, nFound: nat, i: nat)
    requires i < |outcomes| && outcomes[i].Err? && forall j :: 0 <= j < i ==> outcomes[j].Ok?
    ensures ScanFrom(libPath, outcomes, m, calls, nFound).0 == Some(outcomes[i].error)
    decreases i
  {
    if i > 0 {
      var (m', calls') := if IsManifest(outcomes[0]) then StoreOf(m, calls, outcomes[0].value.value, libPath) else (m, calls);
      var n' := if IsManifest(outcomes[0]) then nFound + 1 else nFound;
      assert ScanFrom(libPath, outcomes, m, calls, nFound) == ScanFrom(libPath, outcomes[1..], m', calls', n');
      assert forall j :: 0 <= j < i - 1 ==> outcomes[1..][j] == outcomes[j + 1];
      ScanStopsAt(libPath, outcomes[1..], m', calls', n', i - 1);
    }
  }

  /** A manifest that cannot be opened, examined or read stops ScanSteamLibDir
      with the CannotError of sVDF.FromFile, once the names before it read. */
  lemma UnreadableManifestStops(libPath: string, entries: seq<ManifestEntry>, m: map<int, InstalledApp>, calls: seq<DiffCall>, i: nat, step: FileStep)
    requires i < |entries| && ManifestDigits(entries[i].name).Some? && entries[i].parsed == Err(Unreadable(step))
    requires forall j :: 0 <= j < i ==> ReadManifestOf(libPath, entries[j]).Ok?
    ensures ScanSteamLibDirOf(libPath, ListedLib(entries), m, calls).0
      == Some(BadManifest(CannotError(step, PathJoin(libPath, entries[i].name))))
  {
    var outcomes := ReadAll(libPath, entries);
    forall j | 0 <= j <= i ensures outcomes[j] == ReadManifestOf(libPath, entries[j]) {
      ReadAllAt(libPath, entries, j);
    }
    ScanStopsAt(libPath, outcomes, m, calls, 0, i);
  }

  /** After a scan that reads every name, each app keeps the newest manifest
      seen for it: its entry is at least as recent as the one it had before and
      as every manifest of it read in the folder. */
  lemma {:induction false} ScanKeepsNewest(libPath: string, outcomes: seq<ManifestRead>, m: map<int, InstalledApp>, calls: seq<DiffCall>, nFound: nat)
    requires forall i :: 0 <= i < |outcomes| ==> outcomes[i].Ok?
    ensures var r := ScanFrom(libPath, outcomes, m, calls, nFound);
      && (forall k :: k in m ==> k in r.1 && r.1[k].modTime >= m[k].modTime)
      && forall i :: 0 <= i < |outcomes| && IsManifest(outcomes[i]) ==>
           var app := outcomes[i].value.value;
           app.appNumber in r.1 && r.1[app.appNumber].modTime >= app.modTime
    decreases |outcomes|
  {
    if |outcomes| > 0 {
      var (m', calls') := if IsManifest(outcomes[0]) then StoreOf(m, calls, outcomes[0].value.value, libPath) else (m, calls);
      var n' := if IsManifest(outcomes[0]) then nFound + 1 else nFound;
      var r := ScanFrom(libPath, outcomes, m, calls, nFound);
      assert r == ScanFrom(libPath, outcomes[1..], m', calls', n');
      if IsManifest(outcomes[0]) {
        var app := outcomes[0].value.value;
        if app.appNumber in m {
          MergeKeepsNewest(m[app.appNumber], app, libPath);
        }
      }
      assert forall i :: 0 <= i < |outcomes[1..]| ==> outcomes[1..][i] == outcomes[i + 1];
      ScanKeepsNewest(libPath, outcomes[1..], m', calls', n');
      forall i | 0 < i < |outcomes| && IsManifest(outcomes[i])
        ensures outcomes[i].value.value.appNumber in r.1 && r.1[outcomes[i].value.value.appNumber].modTime >= outcomes[i].value.value.modTime
      {
        assert IsManifest(outcomes[1..][i - 1]);
      }
    }
  }

  /** A scan that meets no manifest of an app leaves its entry alone. */
  lemma {:induction false} ScanLeavesOthers(libPath: string, outcomes: seq<ManifestRead>, m: map<int, InstalledApp>, calls: seq<DiffCall>, nFound: nat, k: int)
    requires forall i :: 0 <= i < |outcomes| && IsManifest(outcomes[i]) ==> outcomes[i].value.value.appNumber != k
    ensures var r := ScanFrom(libPath, outcomes, m, calls, nFound);
      (k in r.1 <==> k in m) && (k in m ==> r.1[k] == m[k])
    decreases |outcomes|
  {
    if |outcomes| > 0 && outcomes[0].Ok? {
      var (m', calls') := if IsManifest(outcomes[0]) then StoreOf(m, calls, outcomes[0].value.value, libPath) else (m, calls);
      assert forall i :: 0 <= i < |outcomes[1..]| ==> outcomes[1..][i] == outcomes[i + 1];
      ScanLeavesOthers(libPath, outcomes[1..], m', calls', if IsManifest(outcomes[0]) then nFound + 1 else nFound, k);
    }
  }

  /** Every manifest read from a listing holds an app number and is named for it. */
  lemma ReadAllNamed(libPath: string, entries: seq<ManifestEntry>)
    ensures var outcomes := ReadAll(libPath, entries);
      forall i :: 0 <= i < |outcomes| && IsManifest(outcomes[i]) ==>
        && IsAppNum(outcomes[i].value.value.appNumber)
        && entries[i].name == ManifestPrefix + Itoa(outcomes[i].value.value.appNumber) + ManifestSuffix
  {
    var outcomes := ReadAll(libPath, entries);
    forall i | 0 <= i < |outcomes| && IsManifest(outcomes[i])
      ensures IsAppNum(outcomes[i].value.value.appNumber)
      ensures entries[i].name == ManifestPrefix + Itoa(outcomes[i].value.value.appNumber) + ManifestSuffix
    {
      ReadAllAt(libPath, entries, i);
    }
  }

  /** A successful ScanSteamLibDir into an empty map leaves a well-formed,
      non-empty map whose every app has its manifest, named for its number, in
      the folder; and every handleDiff call it makes is well formed. */
  lemma ScanSteamLibDirFillsMap(libPath: string, entries: seq<ManifestEntry>)
    ensures var r := ScanSteamLibDirOf(libPath, ListedLib(entries), map[], []);
      && WellFormed(r.1)
      && (forall j :: 0 <= j < |r.2| ==> GoodCall(r.2[j], libPath))
      && (r.0.None? ==> |r.1| > 0)
      && forall k :: k in r.1 ==> exists i :: 0 <= i < |entries| && entries[i].name == ManifestPrefix + Itoa(k) + ManifestSuffix
  {
    var outcomes := ReadAll(libPath, entries);
    assert ScanSteamLibDirOf(libPath, ListedLib(entries), map[], []) == ScanFrom(libPath, outcomes, map[], [], 0);
    ReadAllNamed(libPath, entries);
    ScanFromFillsMap(libPath, outcomes, entries);
  }

  /** ScanSteamLibDirFillsMap, for the outcomes of reading the names. */
  lemma ScanFromFillsMap(libPath: string, outcomes: seq<ManifestRead>, entries: seq<ManifestEntry>)
    requires |outcomes| == |entries|
    requires forall i :: 0 <= i < |outcomes| && IsManifest(outcomes[i]) ==>
      && IsAppNum(outcomes[i].value.value.appNumber)
      && entries[i].name == ManifestPrefix + Itoa(outcomes[i].value.value.appNumber) + ManifestSuffix
    ensures var r := ScanFrom(libPath, outcomes, map[], [], 0);
      && WellFormed(r.1)
      && (forall j :: 0 <= j < |r.2| ==> GoodCall(r.2[j], libPath))
      && (r.0.None? ==> |r.1| > 0)
      && forall k :: k in r.1 ==> exists i :: 0 <= i < |entries| && entries[i].name == ManifestPrefix + Itoa(k) + ManifestSuffix
  {
    var r := ScanFrom(libPath, outcomes, map[], [], 0);
    ScanKeepsWellFormed(libPath, outcomes, map[], [], 0);
    ScanOutcome(libPath, outcomes, map[], [], 0);
    if r.0.None? {
      ScanKeepsNewest(libPath, outcomes, map[], [], 0);
      var i :| 0 <= i < |outcomes| && IsManifest(outcomes[i]);
      assert outcomes[i].value.value.appNumber in r.1;
    }
    forall k | k in r.1
      ensures exists i :: 0 <= i < |entries| && entries[i].name == ManifestPrefix + Itoa(k) + ManifestSuffix
    {
      if forall i :: 0 <= i < |outcomes| && IsManifest(outcomes[i]) ==> outcomes[i].value.value.appNumber != k {
        ScanLeavesOthers(libPath, outcomes, map[], [], 0, k);
        assert false;
      }
      var i :| 0 <= i < |outcomes| && IsManifest(outcomes[i]) && outcomes[i].value.value.appNumber == k;
      assert entries[i].name == ManifestPrefix + Itoa(k) + ManifestSuffix;
    }
  }

  /** ScanSteamLibDir into a well-formed map (from earlier folders) keeps it
      well formed, keeps every app already in it, and only appends calls to
      handleDiff that are well formed for the folder. */
  lemma ScanSteamLibDirKeepsWellFormed(libPath: string, listing: LibListing, m: map<int, InstalledApp>, calls: seq<DiffCall>)
    requires WellFormed(m)
    ensures var r := ScanSteamLibDirOf(libPath, listing, m, calls);
      && WellFormed(r.1) && m.Keys <= r.1.Keys
      && |calls| <= |r.2| && r.2[..|calls|] == calls
      && forall j :: |calls| <= j < |r.2| ==> GoodCall(r.2[j], libPath)
  {
    if listing.ListedLib? {
      ReadAllNamed(libPath, listing.entries);
      ScanKeepsWellFormed(libPath, ReadAll(libPath, listing.entries), m, calls, 0);
    }
  }

  /*------------------------------ The methods -------------------------------*/

  /** parseManifest(mfPath) */
  method ParseManifest(mfPath: string, modTime: int, size: int, parsed: Result<(string, Value), VdfFailure>)
    returns (r: Result<InstalledApp, LibScanError>)
    ensures r == ParseManifestOf(mfPath, modTime, size, parsed)
  {
    var mfInfo := FromParsed(mfPath, modTime, size, parsed, ["AppState"]);
    if mfInfo.Err? {
      return Err(BadManifest(mfInfo.error));
    }
    var idText := Lookup(mfInfo.value, ["appid"]);
    if idText.Err? {
      return Err(NoAppId(mfPath, idText.error));
    }
    var appNum := ParseAppNum(idText.value, mfPath);
    if appNum.Err? {
      return Err(BadAppId(appNum.error));
    }
    var appName := Lookup(mfInfo.value, ["name"]);
    if appName.Err? {
      return Err(NoAppName(mfPath, appName.error));
    }
    var installDir := Lookup(mfInfo.value, ["installdir"]);
    if installDir.Err? {
      return Err(NoInstallDir(mfPath, installDir.error));
    }
    return Ok(InstalledApp(appNum.value, appName.value, [], installDir.value, mfInfo.value.modTime));
  }

  /** One name of the library folder: the match against reManifestFile, the
      manifest and the check of its app ID against the file name. */
  method ReadManifest(libPath: string, e: ManifestEntry) returns (r: Result<Option<InstalledApp>, LibScanError>)
    ensures r == ReadManifestOf(libPath, e)
  {
    var digits := ManifestDigits(e.name);
    if digits.None? {
      return Ok(None);
    }
    var currInfo := ParseManifest(PathJoin(libPath, e.name), e.modTime, e.size, e.parsed);
    if currInfo.Err? {
      return Err(currInfo.error);
    }
    var appNum := currInfo.value.appNumber;
    if Itoa(appNum) != digits.value {
      return Err(WrongAppId(e.name, appNum));
    }
    return Ok(Some(currInfo.value));
  }

  /** The i-th name of the listing, read as the scan's specification reads it. */
  method ReadManifestAt(libPath: string, entries: seq<ManifestEntry>, i: nat) returns (r: ManifestRead)
    requires i < |entries|
    ensures r == ReadAll(libPath, entries)[i]
  {
    r := ReadManifest(libPath, entries[i]);
    ReadAllAt(libPath, entries, i);
  }

  /** The map from app numbers to installed apps that ScanSteamLibDir fills,
      with the calls made to its handleDiff reporter so far. */
  class InstalledApps {
    var byApp: map<int, InstalledApp>
    var diffCalls: seq<DiffCall>

    constructor()
      ensures byApp == map[] && diffCalls == []
    {
      byApp := map[];
      diffCalls := [];
    }

    /** Storing one manifest just read in libPath (the duplicate handling of
        ScanSteamLibDir's loop). */
    method Store(curr: InstalledApp, libPath: string)
      modifies this
      ensures (byApp, diffCalls) == StoreOf(old(byApp), old(diffCalls), curr, libPath)
    {
      var appNum := curr.appNumber;
      var currInfo := curr;
      if appNum in byApp {
        var prev := byApp[appNum];
        var newInfo, usingCurr := curr, true;
        var slfList := [libPath] + prev.libraryFolders;
        if newInfo.modTime < prev.modTime {
          newInfo, usingCurr := prev, false;
          slfList := prev.libraryFolders + [libPath];
        }
        diffCalls := diffCalls + [DiffCall(prev, curr.(libraryFolders := [libPath]), usingCurr)];
        currInfo := newInfo.(libraryFolders := slfList);
      } else {
        currInfo := curr.(libraryFolders := [libPath]);
      }
      byApp := byApp[appNum := currInfo];
    }

    /** ScanSteamLibDir(libPath, byApp, handleDiff) */
    method ScanSteamLibDir(libPath: string, listing: LibListing) returns (err: Option<LibScanError>)
      modifies this
      ensures (err, byApp, diffCalls) == ScanSteamLibDirOf(libPath, listing, old(byApp), old(diffCalls))
    {
      if listing.CannotOpenLib? {
        return Some(CannotOpenLibDir(libPath));
      }
      if listing.CannotReadLib? {
        return Some(CannotReadLibDir(libPath));
      }
      err := ScanNames(libPath, listing.entries);
    }

    /** The loop of ScanSteamLibDir over the names in the folder. */
    method ScanNames(libPath: string, entries: seq<ManifestEntry>) returns (err: Option<LibScanError>)
      modifies this
      ensures (err, byApp, diffCalls) == ScanFrom(libPath, ReadAll(libPath, entries), old(byApp), old(diffCalls), 0)
    {
      ghost var outcomes := ReadAll(libPath, entries);
      var nFound: nat := 0;
      for i := 0 to |entries|
        invariant ScanFrom(libPath, outcomes, old(byApp), old(diffCalls), 0) == ScanFrom(libPath, outcomes[i..], byApp, diffCalls, nFound)
      {
        assert outcomes[i..][1..] == outcomes[i + 1..];
        var currInfo := ReadManifestAt(libPath, entries, i);
        if currInfo.Err? {
          return Some(currInfo.error);
        }
        if currInfo.value.None? {
          continue;
        }
        Store(currInfo.value.value, libPath);
        nFound := nFound + 1;
      }
      if nFound == 0 {
        return Some(NoManifests(libPath));
      }
      return None;
    }
  }
}

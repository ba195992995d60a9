/** steam-backups-tool/steam-backups-tool.go, the older checker. It reads the
    manifests of one library folder and the sku.sis files of one backups
    directory into two maps keyed by app number, then reports the same three
    kinds of problem as check-backups. Its readers are its own, and differ
    from the steamfiles package: the last file read for an app wins, a
    manifest whose app ID is not the number in its name only draws a
    warning, a backup is recorded under the app number at index "0" alone,
    and finding no manifests or no backups is not an error.

    As elsewhere in the model, the file system is an input: what listing each
    directory gives, and for each file its time, size and parse. */
module SteamBackupsTool {
  import opened Wrappers
  import opened GoText
  import opened VdfParser
  import opened VdfApi
  import T = SteamTypes
  import A = AppManifests
  import B = Backups
  import P = Problems
  import C = CheckBackups

  /** AppInfo: an installed app (from its manifest) or a backup (from its
      sku.sis). modTime is the time of that file; dirName is the install
      directory of an app, or the name of a backup's directory. */
  datatype AppInfo = AppInfo(number: int, name: string, modTime: int, dirName: string)

  /** The Problem text of a BadFile error, by what was wrong. */
  datatype BadFileProblem =
    | TopNotAppState(topName: string)   // content has name %q, not "AppState"
    | TopNotSku(topName: string)        // content has name %q, not "sku" or "SKU"
    | AppIdNotInteger(text: string)     // has appid %q, need integer
    | AppIdNotPositive(appNum: int)     // has appid %d!?

  /** The errors the scans return, and the exit of Die2. A Cannot error keeps
      the lookup error it wraps; the operating system's errors are not modelled. */
  datatype ToolError =
    | Cannot(verb: string, noun: string, lookupError: Option<LookupError>)
    | BadFile(path: string, badName: string, problem: BadFileProblem)
    | FileFailed(fileError: FileError)
    | AppIdTooBig(path: string, appNum: int)

  /*------------------------------- parseAppId -------------------------------*/

  /** parseAppId(text, path); AppIdTooBig stands for Die2, which ends the program. */
  function ParseAppId(text: string, path: string): (r: Result<int, ToolError>)
    ensures r.Ok? ==> T.IsAppNum(r.value) && Atoi(text) == Some(r.value)
    ensures r.Err? ==> r.error.BadFile? || r.error.AppIdTooBig?
  {
    match Atoi(text)
    case None => Err(BadFile(path, "", AppIdNotInteger(text)))
    case Some(n) =>
      if n > MaxInt32 then Err(AppIdTooBig(path, n))
      else if n <= 0 then Err(BadFile(path, "", AppIdNotPositive(n)))
      else Ok(n)
  }

  /** Every app number reads back from its decimal text. */
  lemma ParseAppIdItoa(n: int, path: string)
    requires T.IsAppNum(n)
    ensures ParseAppId(Itoa(n), path) == Ok(n)
  {
    AtoiItoa(n);
  }

  /** parseAppId accepts exactly what steamfiles' parseAppNum accepts, gives
      the same number, and fails for the same reason: not an integer, too
      big for int32, or not positive. */
  lemma ParseAppIdAgrees(text: string, path: string)
    ensures var r, s := ParseAppId(text, path), T.ParseAppNum(text, path);
      && (r.Ok? <==> s.Ok?)
      && (r.Ok? ==> r.value == s.value)
      && (r == Err(BadFile(path, "", AppIdNotInteger(text))) <==> s == Err(T.NotAnInteger(path, text)))
      && (forall n :: r == Err(AppIdTooBig(path, n)) <==> s == Err(T.TooBigPanic(path, n)))
      && (forall n :: r == Err(BadFile(path, "", AppIdNotPositive(n))) <==> s == Err(T.NotPositive(path, n)))
  {
  }

  /*------------------------------ parseManifest -----------------------------*/

  /** parseManifest(mfPath), given the file's modification time, size and
      parse. sVDF.FromFile is called with no expected top name, and the name
      is checked afterwards. */
  function ParseManifest(mfPath: string, modTime: int, size: int, parsed: Result<(string, Value), VdfFailure>)
    : (r: Result<AppInfo, ToolError>)
    ensures r.Ok? ==>
      && parsed.Ok? && parsed.value.0 == "AppState"
      && T.IsAppNum(r.value.number) && r.value.modTime == modTime
      && LookupOf(parsed.value.1, ["name"]) == Ok(r.value.name)
      && LookupOf(parsed.value.1, ["installdir"]) == Ok(r.value.dirName)
    ensures parsed.Ok? && parsed.value.0 != "AppState" ==>
      r == Err(BadFile(mfPath, parsed.value.0, TopNotAppState(parsed.value.0)))
  {
    match FromParsed(mfPath, modTime, size, parsed, [])
    case Err(fe) => Err(FileFailed(fe))
    case Ok(mf) =>
      if mf.topName != "AppState" then Err(BadFile(mfPath, mf.topName, TopNotAppState(mf.topName)))
      else match LookupOf(mf.topValue, ["appid"])
      case Err(le) => Err(Cannot("get app ID from", mfPath, Some(le)))
      case Ok(idText) =>
        match ParseAppId(idText, mfPath)
        case Err(e) => Err(e)
        case Ok(appNum) =>
          match LookupOf(mf.topValue, ["name"])
          case Err(le) => Err(Cannot("get app name from", mfPath, Some(le)))
          case Ok(appName) =>
            match LookupOf(mf.topValue, ["installdir"])
            case Err(le) => Err(Cannot("get \"installdir\" from", mfPath, Some(le)))
            case Ok(installDir) => Ok(AppInfo(appNum, appName, mf.modTime, installDir))
  }

  /** This parseManifest reads a manifest exactly when steamfiles' does, and
      the two agree on the app's number, name, install directory and time. */
  lemma ParseManifestAgrees(mfPath: string, modTime: int, size: int, parsed: Result<(string, Value), VdfFailure>)
    ensures var r, s := ParseManifest(mfPath, modTime, size, parsed), A.ParseManifestOf(mfPath, modTime, size, parsed);
      && (r.Ok? <==> s.Ok?)
      && (r.Ok? ==> r.value == AppInfo(s.value.appNumber, s.value.appName, s.value.modTime, s.value.installDir))
  {
    if parsed.Ok? && parsed.value.0 == "AppState" {
      var top := parsed.value.1;
      if LookupOf(top, ["appid"]).Ok? {
        ParseAppIdAgrees(LookupOf(top, ["appid"]).value, mfPath);
      }
    }
  }

  /*---------------------------- Filling a map -------------------------------*/

  /** What reading one directory entry gives: an error, nothing (the entry
      is skipped), or an app. */
  type ReadOutcome = Result<Option<AppInfo>, ToolError>

  predicate Gives(o: ReadOutcome, k: int)
  {
    o.Ok? && o.value.Some? && o.value.value.number == k
  }

  /** The state of a scan loop: the error that stopped it, the map so far
      (map[appInfo.Number] = appInfo), and how many entries it got through. */
  datatype KeyedScan = KeyedScan(err: Option<ToolError>, byApp: map<int, AppInfo>, done: nat)

  /** The loop of scanAppsLibDir and scanBackupsDir over the first n
      entries, given what reading each gives. */
  function Fill(outcomes: seq<ReadOutcome>, n: nat): (s: KeyedScan)
    requires n <= |outcomes|
    ensures s.done <= n && (s.err.None? ==> s.done == n) && (s.err.Some? ==> s.done < n)
  {
    if n == 0 then KeyedScan(None, map[], 0)
    else
      var s := Fill(outcomes, n - 1);
      if s.err.Some? then s
      else match outcomes[n - 1]
        case Err(e) => s.(err := Some(e))
        case Ok(None) => s.(done := n)
        case Ok(Some(info)) => KeyedScan(None, s.byApp[info.number := info], n)
  }

  /** Once stopped, the loop stays stopped. */
  lemma {:induction false} FillStopped(outcomes: seq<ReadOutcome>, i: nat, n: nat)
    requires i <= n <= |outcomes| && Fill(outcomes, i).err.Some?
    ensures Fill(outcomes, n) == Fill(outcomes, i)
    decreases n
  {
    if n > i {
      FillStopped(outcomes, i, n - 1);
    }
  }

  /** The loop stops at the first entry that cannot be read, with its error. */
  lemma {:induction false} FillStopsAtFirstError(outcomes: seq<ReadOutcome>, n: nat)
    requires n <= |outcomes|
    ensures var s := Fill(outcomes, n);
      && (forall j :: 0 <= j < s.done ==> outcomes[j].Ok?)
      && (s.err.Some? ==> outcomes[s.done] == Err(s.err.value))
      && (s.err.None? <==> forall j :: 0 <= j < n ==> outcomes[j].Ok?)
    decreases n
  {
    if n > 0 {
      FillStopsAtFirstError(outcomes, n - 1);
    }
  }

  /** The first entry that cannot be read is the one whose error stops the loop. */
  lemma FillStopsAt(outcomes: seq<ReadOutcome>, i: nat)
    requires i < |outcomes| && outcomes[i].Err? && forall j :: 0 <= j < i ==> outcomes[j].Ok?
    ensures Fill(outcomes, |outcomes|).err == Some(outcomes[i].error)
  {
    FillStopsAtFirstError(outcomes, |outcomes|);
  }

  /** The last entry read for an app wins: an app is in the map exactly when
      some entry gives it, and its value is what the last such entry gives. */
  lemma {:induction false} FillLastWins(outcomes: seq<ReadOutcome>, n: nat, k: int)
    requires n <= |outcomes| && Fill(outcomes, n).err.None?
    ensures var m := Fill(outcomes, n).byApp;
      && (k in m <==> exists i :: 0 <= i < n && Gives(outcomes[i], k))
      && (k in m ==> m[k].number == k
                     && exists i :: 0 <= i < n && outcomes[i] == Ok(Some(m[k]))
                                    && forall j :: i < j < n ==> !Gives(outcomes[j], k))
    decreases n
  {
    if n > 0 {
      var s := Fill(outcomes, n - 1);
      FillLastWins(outcomes, n - 1, k);
      var m := Fill(outcomes, n).byApp;
      if Gives(outcomes[n - 1], k) {
        assert outcomes[n - 1] == Ok(Some(m[k]));
      } else if k in m {
        assert k in s.byApp && m[k] == s.byApp[k];
        var i :| 0 <= i < n - 1 && outcomes[i] == Ok(Some(s.byApp[k])) && forall j :: i < j < n - 1 ==> !Gives(outcomes[j], k);
        assert forall j :: i < j < n ==> !Gives(outcomes[j], k);
      }
    }
  }

  /*------------------------------ scanAppsLibDir ----------------------------*/

  /** Warn("file %q has appid=%d?!"): a manifest whose app ID is not the
      number in its file name. */
  datatype IdWarning = IdWarning(fileName: string, appNum: int)

  /** One name of the library folder: nothing unless it matches
      reManifestFile, else the manifest or its error. */
  function ReadManifestEntry(path: string, e: A.ManifestEntry): (r: ReadOutcome)
    ensures A.ManifestDigits(e.name).None? ==> r == Ok(None)
    ensures r.Ok? && r.value.Some? ==> A.ManifestDigits(e.name).Some? && r.value.value.modTime == e.modTime
  {
    match A.ManifestDigits(e.name)
    case None => Ok(None)
    case Some(_) =>
      match ParseManifest(PathJoin(path, e.name), e.modTime, e.size, e.parsed)
      case Err(err) => Err(err)
      case Ok(info) => Ok(Some(info))
  }

  function ReadAllManifests(path: string, entries: seq<A.ManifestEntry>): (r: seq<ReadOutcome>)
    ensures |r| == |entries|
    ensures forall i :: 0 <= i < |entries| ==> r[i] == ReadManifestEntry(path, entries[i])
  {
    seq(|entries|, i requires 0 <= i < |entries| => ReadManifestEntry(path, entries[i]))
  }

  /** The warning, if any, reading an entry gives. */
  function WarningOf(path: string, e: A.ManifestEntry): (w: seq<IdWarning>)
    ensures |w| <= 1
  {
    match ReadManifestEntry(path, e)
    case Ok(Some(info)) =>
      if Itoa(info.number) != A.ManifestDigits(e.name).value then [IdWarning(e.name, info.number)] else []
    case _ => []
  }

  /** The warnings of the first n entries, in order. */
  function Warnings(path: string, entries: seq<A.ManifestEntry>, n: nat): seq<IdWarning>
    requires n <= |entries|
  {
    if n == 0 then [] else Warnings(path, entries, n - 1) + WarningOf(path, entries[n - 1])
  }

  /** scanAppsLibDir(path): the map (nil on error) and the warnings printed. */
  function ScanAppsLibDirOf(path: string, listing: A.LibListing): (r: (Result<map<int, AppInfo>, ToolError>, seq<IdWarning>))
    ensures !listing.ListedLib? ==> r.0.Err? && r.1 == []
    ensures listing.ListedLib? && |listing.entries| == 0 ==> r == (Ok(map[]), [])
  {
    match listing
    case CannotOpenLib => (Err(Cannot("open", path, None)), [])
    case CannotReadLib => (Err(Cannot("read directory", path, None)), [])
    case ListedLib(entries) =>
      var s := Fill(ReadAllManifests(path, entries), |entries|);
      (if s.err.Some? then Err(s.err.value) else Ok(s.byApp), Warnings(path, entries, s.done))
  }

  /** scanAppsLibDir(path) */
  method ScanAppsLibDir(path: string, listing: A.LibListing) returns (r: Result<map<int, AppInfo>, ToolError>, warnings: seq<IdWarning>)
    ensures (r, warnings) == ScanAppsLibDirOf(path, listing)
  {
    if listing.CannotOpenLib? {
      return Err(Cannot("open", path, None)), [];
    }
    if listing.CannotReadLib? {
      return Err(Cannot("read directory", path, None)), [];
    }
    var allNames := listing.entries;
    ghost var outcomes := ReadAllManifests(path, allNames);
    var manifestsMap: map<int, AppInfo> := map[];
    warnings := [];
    for i := 0 to |allNames|
      invariant Fill(outcomes, i) == KeyedScan(None, manifestsMap, i)
      invariant warnings == Warnings(path, allNames, i)
    {
      ManifestStep(path, allNames, i, manifestsMap);
      var n := allNames[i];
      var match1 := A.ManifestDigits(n.name);
      if match1.Some? {
        var appInfo := ParseManifest(PathJoin(path, n.name), n.modTime, n.size, n.parsed);
        if appInfo.Err? {
          FillStopped(outcomes, i + 1, |allNames|);
          return Err(appInfo.error), warnings;
        }
        manifestsMap := manifestsMap[appInfo.value.number := appInfo.value];
        if Itoa(appInfo.value.number) != match1.value {
          warnings := warnings + [IdWarning(n.name, appInfo.value.number)];
        }
      }
    }
    return Ok(manifestsMap), warnings;
  }

  /** One pass of scanAppsLibDir's loop, from a scan that has not stopped. */
  lemma ManifestStep(path: string, entries: seq<A.ManifestEntry>, i: nat, m: map<int, AppInfo>)
    requires i < |entries| && Fill(ReadAllManifests(path, entries), i) == KeyedScan(None, m, i)
    ensures var e, outcomes := entries[i], ReadAllManifests(path, entries);
      var info := ParseManifest(PathJoin(path, e.name), e.modTime, e.size, e.parsed);
      && (A.ManifestDigits(e.name).None? ==>
            Fill(outcomes, i + 1) == KeyedScan(None, m, i + 1) && Warnings(path, entries, i + 1) == Warnings(path, entries, i))
      && (A.ManifestDigits(e.name).Some? && info.Err? ==> Fill(outcomes, i + 1).err == Some(info.error))
      && (A.ManifestDigits(e.name).Some? && info.Ok? ==>
            && Fill(outcomes, i + 1) == KeyedScan(None, m[info.value.number := info.value], i + 1)
            && Warnings(path, entries, i + 1) == Warnings(path, entries, i) +
                 (if Itoa(info.value.number) != A.ManifestDigits(e.name).value then [IdWarning(e.name, info.value.number)] else []))
  {
  }

  /** A manifest that cannot be opened, examined or read stops scanAppsLibDir
      with the CannotError of sVDF.FromFile, once the names before it read. */
  lemma UnreadableManifestStops(path: string, entries: seq<A.ManifestEntry>, i: nat, step: FileStep)
    requires i < |entries| && A.ManifestDigits(entries[i].name).Some? && entries[i].parsed == Err(Unreadable(step))
    requires forall j :: 0 <= j < i ==> ReadManifestEntry(path, entries[j]).Ok?
    ensures ScanAppsLibDirOf(path, A.ListedLib(entries)).0 == Err(FileFailed(CannotError(step, PathJoin(path, entries[i].name))))
  {
    FillStopsAt(ReadAllManifests(path, entries), i);
  }

  /** A manifest that reads, but whose app ID is not the number in its file
      name, only draws a warning here; steamfiles' ScanSteamLibDir fails on it. */
  lemma MismatchOnlyWarns(path: string, e: A.ManifestEntry)
    requires WarningOf(path, e) != []
    ensures ReadManifestEntry(path, e).Ok? && ReadManifestEntry(path, e).value.Some?
    ensures A.ReadManifestOf(path, e).Err? && A.ReadManifestOf(path, e).error.WrongAppId?
  {
    ParseManifestAgrees(PathJoin(path, e.name), e.modTime, e.size, e.parsed);
  }

  /** Every warning names an entry read before the scan stopped whose app ID
      is not the number in its name; every such entry is warned about. */
  lemma WarningsMeaning(path: string, entries: seq<A.ManifestEntry>, n: nat)
    requires n <= |entries|
    ensures forall w :: w in Warnings(path, entries, n) <==>
      exists i :: 0 <= i < n && w in WarningOf(path, entries[i])
  {
    var lists := seq(n, i requires 0 <= i < n => WarningOf(path, entries[i]));
    WarningsJoined(path, entries, n);
    JoinMeaning(lists);
  }

  /** The lists, one per entry, joined end to end. */
  function Join<T>(lists: seq<seq<T>>): seq<T>
  {
    if |lists| == 0 then [] else Join(lists[..|lists| - 1]) + lists[|lists| - 1]
  }

  lemma {:induction false} JoinMeaning<T>(lists: seq<seq<T>>)
    ensures forall w :: w in Join(lists) <==> exists i :: 0 <= i < |lists| && w in lists[i]
    decreases |lists|
  {
    if |lists| > 0 {
      var init := lists[..|lists| - 1];
      JoinMeaning(init);
      assert forall i :: 0 <= i < |init| ==> init[i] == lists[i];
    }
  }

  lemma {:induction false} WarningsJoined(path: string, entries: seq<A.ManifestEntry>, n: nat)
    requires n <= |entries|
    ensures Warnings(path, entries, n) == Join(seq(n, i requires 0 <= i < n => WarningOf(path, entries[i])))
    decreases n
  {
    if n > 0 {
      WarningsJoined(path, entries, n - 1);
      var lists := seq(n, i requires 0 <= i < n => WarningOf(path, entries[i]));
      assert lists[..n - 1] == seq(n - 1, i requires 0 <= i < n - 1 => WarningOf(path, entries[i]));
    }
  }

  /** An empty library folder is not an error here (steamfiles' ScanSteamLibDir
      reports that it cannot see any manifests). */
  lemma NoManifestsIsFine(path: string, entries: seq<A.ManifestEntry>)
    requires forall i :: 0 <= i < |entries| ==> A.ManifestDigits(entries[i].name).None?
    ensures ScanAppsLibDirOf(path, A.ListedLib(entries)) == (Ok(map[]), [])
    ensures A.ScanSteamLibDirOf(path, A.ListedLib(entries), map[], []).0 == Some(A.NoManifests(path))
  {
    var outcomes := ReadAllManifests(path, entries);
    NoneFillsNothing(outcomes, |entries|);
    NoneWarnsNothing(path, entries, |entries|);
    A.ScanOutcome(path, A.ReadAll(path, entries), map[], [], 0);
    forall i | 0 <= i < |entries|
      ensures A.ReadAll(path, entries)[i] == Ok(None)
    {
      A.ReadAllAt(path, entries, i);
    }
  }

  lemma {:induction false} NoneFillsNothing(outcomes: seq<ReadOutcome>, n: nat)
    requires n <= |outcomes| && forall i :: 0 <= i < n ==> outcomes[i] == Ok(None)
    ensures Fill(outcomes, n) == KeyedScan(None, map[], n)
    decreases n
  {
    if n > 0 {
      NoneFillsNothing(outcomes, n - 1);
    }
  }

  lemma {:induction false} NoneWarnsNothing(path: string, entries: seq<A.ManifestEntry>, n: nat)
    requires n <= |entries| && forall i :: 0 <= i < n ==> A.ManifestDigits(entries[i].name).None?
    ensures Warnings(path, entries, n) == []
    decreases n
  {
    if n > 0 {
      NoneWarnsNothing(path, entries, n - 1);
      NoDigitsNoWarning(path, entries[n - 1]);
    }
  }

  lemma NoDigitsNoWarning(path: string, e: A.ManifestEntry)
    requires A.ManifestDigits(e.name).None?
    ensures WarningOf(path, e) == []
  {
    assert ReadManifestEntry(path, e) == Ok(None);
  }

  /*------------------------------ scanBackupsDir ----------------------------*/

  /** The app-number text: apps→"0", or Apps→"0" when that lookup fails
      with UnknownNameError. Only index "0" is read. */
  function AppNumText(top: Value): (r: Result<string, LookupError>)
    ensures var first := LookupOf(top, ["apps", "0"]);
      r == (if first.Err? && first.error.UnknownNameError? then LookupOf(top, ["Apps", "0"]) else first)
  {
    var first := LookupOf(top, ["apps", "0"]);
    if first.Err? && first.error.UnknownNameError? then LookupOf(top, ["Apps", "0"]) else first
  }

  /** The number text found is the string at apps/0 or at Apps/0, the
      former whenever there is one; steamfiles' reader picks the same list
      and reads the same text at its index 0. */
  lemma AppNumTextFinds(top: Value)
    requires AppNumText(top).Ok?
    ensures At(top, ["apps", "0"]) == Some(Leaf(AppNumText(top).value))
         || (At(top, ["apps", "0"]).None? && At(top, ["Apps", "0"]) == Some(Leaf(AppNumText(top).value)))
    ensures B.AppListKey(top).Some? && B.IndexText(top, B.AppListKey(top).value, 0) == Some(AppNumText(top).value)
  {
    assert Itoa(0) == "0";
    LookupFindsString(top, ["apps", "0"]);
    LookupFindsString(top, ["Apps", "0"]);
    var first := LookupOf(top, ["apps", "0"]);
    if first.Err? {
      LookupErrors(top, ["apps", "0"]);
      var p := first.error.namePath;
      assert p == [] || p == ["apps"];
      var m :| At(top, p) == Some(Node(m)) && ["apps", "0"][|p|] !in m;
      if p == [] {
        assert At(top, ["apps"]).None?;
        MissingStaysMissing(top, ["apps"], "0");
      } else {
        AtSnoc(top, ["apps"], "0");
      }
    }
  }

  /** A path that leads nowhere leads nowhere once extended. */
  lemma MissingStaysMissing(top: Value, p: seq<string>, x: string)
    requires At(top, p).None?
    ensures At(top, p + [x]).None?
  {
    AtSnoc(top, p, x);
  }

  /** Where apps→"0" is a list or apps is a string, the lookup fails and
      Apps is not tried, although steamfiles' reader would go on to it. */
  lemma AppsOtherThanListBlocksRetry(top: Value)
    requires LookupOf(top, ["apps", "0"]).Err? && !LookupOf(top, ["apps", "0"]).error.UnknownNameError?
    ensures AppNumText(top) == LookupOf(top, ["apps", "0"])
    ensures B.IndexText(top, "apps", 0).None?
  {
    assert Itoa(0) == "0";
    LookupFindsString(top, ["apps", "0"]);
  }

  /** Reading one sku.sis: its top name must be "sku" or "SKU"; the backup
      is recorded under the one app number at index "0". */
  function ReadSku(dirName: string, skuPath: string, modTime: int, size: int, parsed: Result<(string, Value), VdfFailure>)
    : (r: Result<AppInfo, ToolError>)
    ensures r.Ok? ==>
      && parsed.Ok? && parsed.value.0 in ["sku", "SKU"]
      && T.IsAppNum(r.value.number) && r.value.modTime == modTime && r.value.dirName == dirName
      && LookupOf(parsed.value.1, ["name"]) == Ok(r.value.name)
      && AppNumText(parsed.value.1).Ok? && Atoi(AppNumText(parsed.value.1).value) == Some(r.value.number)
    ensures parsed.Ok? && parsed.value.0 !in ["sku", "SKU"] ==>
      r == Err(BadFile(skuPath, parsed.value.0, TopNotSku(parsed.value.0)))
  {
    match FromParsed(skuPath, modTime, size, parsed, [])
    case Err(fe) => Err(FileFailed(fe))
    case Ok(sku) =>
      if sku.topName != "sku" && sku.topName != "SKU" then Err(BadFile(skuPath, sku.topName, TopNotSku(sku.topName)))
      else match LookupOf(sku.topValue, ["name"])
      case Err(le) => Err(Cannot("get app name from", skuPath, Some(le)))
      case Ok(appName) =>
        match AppNumText(sku.topValue)
        case Err(le) => Err(Cannot("get app number from", skuPath, Some(le)))
        case Ok(appNumText) =>
          match ParseAppId(appNumText, skuPath)
          case Err(e) => Err(e)
          case Ok(appNum) => Ok(AppInfo(appNum, appName, sku.modTime, dirName))
  }

  /** One entry of the backups directory: skipped unless it is a directory
      holding sku.sis or Disk_1/sku.sis. */
  function ReadBackupEntry(dir: string, e: B.BackupEntry): (r: ReadOutcome)
    ensures !e.examinable ==> r == Err(Cannot("examine", PathJoin(dir, e.name), None))
    ensures e.examinable && !e.isDir ==> r == Ok(None)
    ensures e.examinable && e.isDir && e.skuAtTop == B.NotExist && e.skuInDisk1 == B.NotExist ==> r.Ok? && r.value.None?
    ensures r.Ok? && r.value.Some? ==> r.value.value.dirName == e.name
  {
    var path := PathJoin(dir, e.name);
    if !e.examinable then Err(Cannot("examine", path, None))
    else if !e.isDir then Ok(None)
    else
      var topSku := PathJoin(path, "sku.sis");
      var diskSku := PathJoin(PathJoin(path, "Disk_1"), "sku.sis");
      match e.skuAtTop
      case ProbeFailed => Err(Cannot("look for sku.sis in", topSku, None))
      case Exists => ReadSkuOutcome(e, topSku)
      case NotExist =>
        match e.skuInDisk1
        case NotExist => Ok(None)
        case ProbeFailed => Err(Cannot("examine", diskSku, None))
        case Exists => ReadSkuOutcome(e, diskSku)
  }

  function ReadSkuOutcome(e: B.BackupEntry, skuPath: string): (r: ReadOutcome)
    ensures r.Ok? ==> r.value.Some? && r.value.value.dirName == e.name
  {
    match ReadSku(e.name, skuPath, e.skuModTime, e.skuSize, e.skuParsed)
    case Err(err) => Err(err)
    case Ok(info) => Ok(Some(info))
  }

  function ReadAllBackups(dir: string, entries: seq<B.BackupEntry>): (r: seq<ReadOutcome>)
    ensures |r| == |entries|
    ensures forall i :: 0 <= i < |entries| ==> r[i] == ReadBackupEntry(dir, entries[i])
  {
    seq(|entries|, i requires 0 <= i < |entries| => ReadBackupEntry(dir, entries[i]))
  }

  /** scanBackupsDir(backupsDirPath): the map, or the error (nil map). */
  function ScanBackupsDirOf(dir: string, listing: B.Listing): (r: Result<map<int, AppInfo>, ToolError>)
    ensures !listing.Listed? ==> r.Err?
    ensures listing.Listed? && |listing.entries| == 0 ==> r == Ok(map[])
  {
    match listing
    case CannotOpen => Err(Cannot("open", dir, None))
    case CannotRead => Err(Cannot("read directory", dir, None))
    case Listed(entries) =>
      var s := Fill(ReadAllBackups(dir, entries), |entries|);
      if s.err.Some? then Err(s.err.value) else Ok(s.byApp)
  }

  /** scanBackupsDir(backupsDirPath) */
  method ScanBackupsDir(dir: string, listing: B.Listing) returns (r: Result<map<int, AppInfo>, ToolError>)
    ensures r == ScanBackupsDirOf(dir, listing)
  {
    if listing.CannotOpen? {
      return Err(Cannot("open", dir, None));
    }
    if listing.CannotRead? {
      return Err(Cannot("read directory", dir, None));
    }
    var allNames := listing.entries;
    ghost var outcomes := ReadAllBackups(dir, allNames);
    var backupsMap: map<int, AppInfo> := map[];
    for i := 0 to |allNames|
      invariant Fill(outcomes, i) == KeyedScan(None, backupsMap, i)
    {
      var n := allNames[i];
      var appInfo := ReadBackupEntry(dir, n);
      if appInfo.Err? {
        FillStopped(outcomes, i + 1, |allNames|);
        return Err(appInfo.error);
      }
      if appInfo.value.Some? {
        backupsMap := backupsMap[appInfo.value.value.number := appInfo.value.value];
      }
    }
    return Ok(backupsMap);
  }

  /** A sku.sis that cannot be opened, examined or read stops scanBackupsDir
      with the CannotError of sVDF.FromFile, once the entries before it read. */
  lemma UnreadableSkuStops(dir: string, entries: seq<B.BackupEntry>, i: nat, skuPath: string, step: FileStep)
    requires i < |entries| && entries[i].examinable && entries[i].isDir
    requires B.SkuLocation(PathJoin(dir, entries[i].name), entries[i]) == Ok(Some(skuPath))
    requires entries[i].skuParsed == Err(Unreadable(step))
    requires forall j :: 0 <= j < i ==> ReadBackupEntry(dir, entries[j]).Ok?
    ensures ScanBackupsDirOf(dir, B.Listed(entries)) == Err(FileFailed(CannotError(step, skuPath)))
  {
    FillStopsAt(ReadAllBackups(dir, entries), i);
  }

  /** Both maps are keyed by app number, and the last entry read for an app
      wins: an app is in the map exactly when some entry gives it, and its
      value is what the last entry giving it gives. */
  lemma ScanBackupsDirLastWins(dir: string, entries: seq<B.BackupEntry>, k: int)
    requires ScanBackupsDirOf(dir, B.Listed(entries)).Ok?
    ensures var m := ScanBackupsDirOf(dir, B.Listed(entries)).value;
      && (k in m <==> exists i :: 0 <= i < |entries| && Gives(ReadBackupEntry(dir, entries[i]), k))
      && (k in m ==> m[k].number == k && T.IsAppNum(k) && m[k].dirName in set i | 0 <= i < |entries| :: entries[i].name)
      && (k in m ==> exists i :: 0 <= i < |entries| && ReadBackupEntry(dir, entries[i]) == Ok(Some(m[k]))
                                 && forall j :: i < j < |entries| ==> !Gives(ReadBackupEntry(dir, entries[j]), k))
  {
    var outcomes := ReadAllBackups(dir, entries);
    FillLastWins(outcomes, |entries|, k);
    var m := ScanBackupsDirOf(dir, B.Listed(entries)).value;
    if k in m {
      var i :| 0 <= i < |entries| && outcomes[i] == Ok(Some(m[k])) && forall j :: i < j < |entries| ==> !Gives(outcomes[j], k);
      assert m[k].dirName == entries[i].name;
    }
  }

  lemma ScanAppsLibDirLastWins(path: string, entries: seq<A.ManifestEntry>, k: int)
    requires ScanAppsLibDirOf(path, A.ListedLib(entries)).0.Ok?
    ensures var m := ScanAppsLibDirOf(path, A.ListedLib(entries)).0.value;
      && (k in m <==> exists i :: 0 <= i < |entries| && Gives(ReadManifestEntry(path, entries[i]), k))
      && (k in m ==> m[k].number == k && T.IsAppNum(k))
      && (k in m ==> exists i :: 0 <= i < |entries| && ReadManifestEntry(path, entries[i]) == Ok(Some(m[k]))
                                 && forall j :: i < j < |entries| ==> !Gives(ReadManifestEntry(path, entries[j]), k))
  {
    var outcomes := ReadAllManifests(path, entries);
    FillLastWins(outcomes, |entries|, k);
  }

  /*---------------------------------- check ---------------------------------*/

  const ManifestNoun := "valid appmanifest_$N.acf file"
  const BackupNoun := "Steam backup"

  /** A call of reportCount(n, noun). */
  datatype CountLine = CountLine(n: int, noun: string)

  /** reportCount(n, noun): the line it prints. */
  function ReportCount(n: int, noun: string): (line: string)
    ensures |line| >= 11 && line[..7] == " Found " && line[|line| - 1] == '\n'
    ensures n == 1 <==> line[7..11] == "one "
  {
    ItoaSign(n);
    if n == 1 then " Found one " + noun + "\n"
    else
      var line := " Found " + Itoa(n) + " " + noun + "s\n";
      assert line[7] == Itoa(n)[0] && (n >= 0 ==> Itoa(n)[0] == Digits(n)[0]);
      line
  }

  /** The line is check-backups' reportCount with no place, so two
      different counts never print the same line. */
  lemma ReportCountAsNewer(n: int, m: int, noun: string)
    ensures ReportCount(n, noun) == C.ReportCount(n, noun, "")
    ensures n != m ==> ReportCount(n, noun) != ReportCount(m, noun)
  {
    ReportCountNoPlace(n, noun);
    ReportCountNoPlace(m, noun);
    if n != m {
      C.ReportCountDistinct(n, m, noun, "");
    }
  }

  /** With no place given, check-backups' line is this one. */
  lemma ReportCountNoPlace(n: int, noun: string)
    ensures ReportCount(n, noun) == C.ReportCount(n, noun, "")
  {
    var w := C.WherePart("");
    assert w == "";
    if n == 1 {
      assert " Found one " + noun + w + "\n" == " Found one " + noun + "\n";
    } else {
      assert " Found " + Itoa(n) + " " + noun + "s" + w + "\n" == " Found " + Itoa(n) + " " + noun + "s\n";
    }
  }

  /** What the classification reads of the two maps: an installed app's
      files are under the library folder, in its install directory. */
  function InstalledView(libDir: string, m: map<int, AppInfo>): (v: map<int, P.Installed>)
    ensures v.Keys == m.Keys
    ensures forall k :: k in v ==> v[k] == P.Installed(m[k].name, k, m[k].modTime, libDir, m[k].dirName)
  {
    map k | k in m :: P.Installed(m[k].name, k, m[k].modTime, libDir, m[k].dirName)
  }

  function SavedView(m: map<int, AppInfo>): (v: map<int, P.Saved>)
    ensures v.Keys == m.Keys
    ensures forall k :: k in v ==> v[k] == P.Saved(m[k].name, m[k].modTime)
  {
    map k | k in m :: P.Saved(m[k].name, m[k].modTime)
  }

  datatype ToolOutcome = ScanFailed(e: ToolError) | Checked(report: P.ProblemReport)

  /** check(steamAppsLibDir, steamBackupsDir, reportUninstalled, verbose,
      debugging) without the debugging dumps, given the two directories and
      appNewerThan. */
  method Check(libDir: string, lib: A.LibListing, backupsDir: string, backups: B.Listing,
               reportUninstalled: bool, verbose: bool, newer: P.NewerOracle)
    returns (outcome: ToolOutcome, warnings: seq<IdWarning>, progress: seq<CountLine>, log: P.ProblemLog)
    ensures fresh(log)
    ensures warnings == ScanAppsLibDirOf(libDir, lib).1
    ensures ScanAppsLibDirOf(libDir, lib).0.Err? ==>
      outcome == ScanFailed(ScanAppsLibDirOf(libDir, lib).0.error) && progress == [] && log.problems == []
    ensures ScanAppsLibDirOf(libDir, lib).0.Ok? ==>
      var apps := ScanAppsLibDirOf(libDir, lib).0.value;
      var saved := ScanBackupsDirOf(backupsDir, backups);
      && (saved.Err? ==>
            && outcome == ScanFailed(saved.error) && log.problems == []
            && progress == (if verbose then [CountLine(|apps|, ManifestNoun)] else []))
      && (saved.Ok? ==>
            var installed, kept := InstalledView(libDir, apps), SavedView(saved.value);
            && progress == (if verbose then [CountLine(|apps|, ManifestNoun), CountLine(|saved.value|, BackupNoun)] else [])
            && (forall p :: p in log.problems <==> p in P.ExpectedProblems(installed, kept, reportUninstalled, newer))
            && |log.problems| == |P.ManifestProblemKeys(apps.Keys, installed, kept, newer)|
                 + (if reportUninstalled then |P.BackupProblemKeys(saved.value.Keys, kept, installed)| else 0)
            && P.SortedByName(log.problems)
            && outcome == Checked(if |log.problems| == 0 then (if verbose then P.NoProblems else P.Silent)
                                  else P.Listed(|log.problems|, log.problems)))
  {
    log := new P.ProblemLog();
    progress := [];
    var manifestInfoForAppNum, w := ScanAppsLibDir(libDir, lib);
    warnings := w;
    if manifestInfoForAppNum.Err? {
      return ScanFailed(manifestInfoForAppNum.error), warnings, progress, log;
    }
    if verbose {
      progress := progress + [CountLine(|manifestInfoForAppNum.value|, ManifestNoun)];
    }
    var backupInfoForAppNum := ScanBackupsDir(backupsDir, backups);
    if backupInfoForAppNum.Err? {
      return ScanFailed(backupInfoForAppNum.error), warnings, progress, log;
    }
    if verbose {
      progress := progress + [CountLine(|backupInfoForAppNum.value|, BackupNoun)];
    }
    var report := P.RecordAndReport(log, InstalledView(libDir, manifestInfoForAppNum.value),
                                    SavedView(backupInfoForAppNum.value), reportUninstalled, verbose, newer);
    return Checked(report), warnings, progress, log;
  }
}

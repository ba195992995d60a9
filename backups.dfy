/** Steam backups (steamfiles/backups.go).

    A backup is a directory D holding D/sku.sis or D/Disk_1/sku.sis, a simple
    VDF file whose top name is "sku" or "SKU". Its "name" string names the
    backup, and its list "apps" (or "Apps") holds the numbers of the apps saved
    in it under the names "0", "1", "2", ... ScanBackupsDir reads every backup
    in a directory and records each under every app number it holds, asking a
    caller-supplied handler which backup to keep when an app is already there.

    The file system is an input: a listing of the directory, and for each
    entry what os.Lstat said about it and its sku.sis candidates, with the
    modification time and size of the sku.sis file and what parseSimpleVDF
    makes of its bytes (VdfParser.ParseSimpleVdfF). */
module Backups {
  import opened Wrappers
  import opened GoText
  import opened VdfParser
  import opened VdfApi
  import opened SteamTypes

  /** AppBackup; modTime is the time sku.sis was last modified. */
  datatype AppBackup = AppBackup(appNumbers: seq<int>, backupName: string, backupPath: string, modTime: int)

  /** A DupeBackupHandler: true keeps the new backup `curr`, false the one
      already recorded, `prev`. */
  type DupeHandler = (int, AppBackup, AppBackup) -> bool

  /** The arguments of one call of the handler: an app of the backup just
      read, `curr`, that already maps to `prev`. */
  datatype DupeCall = DupeCall(appNum: int, prev: AppBackup, curr: AppBackup)

  /** ignoreOlderDupe, used when the caller passes no handler. */
  function IgnoreOlderDupe(appNum: int, prev: AppBackup, curr: AppBackup): (useCurr: bool)
    ensures useCurr
  {
    true
  }

  function HandlerOf(handleDupe: Option<DupeHandler>): DupeHandler
  {
    match handleDupe
    case None => IgnoreOlderDupe
    case Some(h) => h
  }

  /*---------------------------- The file system -----------------------------*/

  /** What os.Lstat said about a sku.sis candidate. */
  datatype Probe = Exists | NotExist | ProbeFailed

  /** One name in the backups directory. */
  datatype BackupEntry = BackupEntry(
    name: string,
    examinable: bool,      // os.Lstat of the entry succeeded
    isDir: bool,
    skuAtTop: Probe,       // D/sku.sis
    skuInDisk1: Probe,     // D/Disk_1/sku.sis
    skuModTime: int,
    skuSize: int,
    skuParsed: Result<(string, Value), VdfFailure>)

  /** Opening and listing the backups directory. */
  datatype Listing = CannotOpen | CannotRead | Listed(entries: seq<BackupEntry>)

  datatype ScanError =
    | CannotOpenDir(dirPath: string)
    | CannotReadDir(dirPath: string)
    | CannotExamine(path: string)
    | SkuNotFound(backupPath: string)
    | BadSku(fileError: FileError)
    | NoBackupName(skuPath: string, lookupError: LookupError)
    | NoAppList(skuPath: string)
    | BadAppNum(appNumError: AppNumError)
    | NoAppNumbers(skuPath: string)
    | NoBackupsFound(dirPath: string)

  /*------------------------------ One backup --------------------------------*/

  /** Where the sku.sis file of a backup directory is: at the top, else under
      Disk_1; None when neither exists (the entry is not a backup). Any other
      failure to examine either candidate is an error. */
  function SkuLocation(path: string, e: BackupEntry): (r: Result<Option<string>, ScanError>)
    ensures r.Ok? && r.value.Some? <==>
      e.skuAtTop == Exists || (e.skuAtTop == NotExist && e.skuInDisk1 == Exists)
    ensures r.Ok? && r.value.Some? ==>
      r.value.value == (if e.skuAtTop == Exists then PathJoin(path, "sku.sis")
                        else PathJoin(PathJoin(path, "Disk_1"), "sku.sis"))
    ensures r.Err? <==> e.skuAtTop == ProbeFailed || (e.skuAtTop == NotExist && e.skuInDisk1 == ProbeFailed)
    ensures r.Err? ==> r.error == SkuNotFound(path)
  {
    match e.skuAtTop
    case Exists => Ok(Some(PathJoin(path, "sku.sis")))
    case ProbeFailed => Err(SkuNotFound(path))
    case NotExist =>
      match e.skuInDisk1
      case Exists => Ok(Some(PathJoin(PathJoin(path, "Disk_1"), "sku.sis")))
      case NotExist => Ok(None)
      case ProbeFailed => Err(SkuNotFound(path))
  }

  /** The string at apps/<i> (for the list named `key`), if there is one. */
  function IndexText(top: Value, key: string, i: nat): (r: Option<string>)
    ensures r.Some? <==>
      && top.Node? && key in top.nvl && top.nvl[key].Node?
      && Itoa(i) in top.nvl[key].nvl && top.nvl[key].nvl[Itoa(i)].Leaf?
    ensures r.Some? ==> top.nvl[key].nvl[Itoa(i)] == Leaf(r.value)
  {
    var v := At(top, [key, Itoa(i)]);
    assert [key, Itoa(i)][1..] == [Itoa(i)] && [Itoa(i)][1..] == [];
    assert top.Node? && key in top.nvl ==> v == At(top.nvl[key], [Itoa(i)]);
    if v.Some? && v.value.Leaf? then Some(v.value.str) else None
  }

  /** The key of the app list: "apps" if it has a string "0", else "Apps" if
      that has one. */
  function AppListKey(top: Value): (r: Option<string>)
    ensures r.Some? ==> (r.value == "apps" || r.value == "Apps") && IndexText(top, r.value, 0).Some?
    ensures r.None? <==> IndexText(top, "apps", 0).None? && IndexText(top, "Apps", 0).None?
    ensures r == Some("Apps") ==> IndexText(top, "apps", 0).None?
  {
    if IndexText(top, "apps", 0).Some? then Some("apps")
    else if IndexText(top, "Apps", 0).Some? then Some("Apps")
    else None
  }

  /** The names of the list under `key`, if `key` names a list. */
  function ListNames(top: Value, key: string): set<string>
  {
    if top.Node? && key in top.nvl && top.nvl[key].Node? then top.nvl[key].nvl.Keys else {}
  }

  /** The index names "0" .. i-1. */
  function IndexNames(i: nat): set<string>
  {
    if i == 0 then {} else IndexNames(i - 1) + {Itoa(i - 1)}
  }

  /** The text of i is not among the index names below it. */
  lemma {:induction false} IndexNameFresh(i: nat, n: nat)
    requires i <= n
    ensures Itoa(n) !in IndexNames(i)
    decreases i
  {
    if i > 0 {
      IndexNameFresh(i - 1, n);
      if Itoa(i - 1) == Itoa(n) { ItoaInjective(i - 1, n); }
    }
  }

  /** How many names of the list the index loop has not visited yet. */
  function Unvisited(top: Value, key: string, i: nat): nat
  {
    |ListNames(top, key) - IndexNames(i)|
  }

  /** IndexText is what Lookup and HaveString find at that index. */
  lemma IndexTextLookup(top: Value, key: string, i: nat)
    ensures IndexText(top, key, i).Some? <==> LookupOf(top, [key, Itoa(i)]).Ok?
    ensures IndexText(top, key, i).Some? ==> IndexText(top, key, i).value == LookupOf(top, [key, Itoa(i)]).value
  {
    LookupFindsString(top, [key, Itoa(i)]);
  }

  /** A string at index i is an element of the list. */
  lemma IndexTextListed(top: Value, key: string, i: nat)
    requires IndexText(top, key, i).Some?
    ensures Itoa(i) in ListNames(top, key)
  {
    var p := [key, Itoa(i)];
    assert p[1..] == [Itoa(i)];
    assert [Itoa(i)][1..] == [];
    assert At(top, p).Some?;
    var list := top.nvl[key];
    assert At(list, [Itoa(i)]).Some?;
  }

  /** The index loop terminates: each round visits a new name of the list. */
  lemma UnvisitedShrinks(top: Value, key: string, i: nat)
    requires IndexText(top, key, i).Some?
    ensures Unvisited(top, key, i + 1) < Unvisited(top, key, i)
  {
    IndexTextListed(top, key, i);
    var before := ListNames(top, key) - IndexNames(i);
    var after := ListNames(top, key) - IndexNames(i + 1);
    IndexNameFresh(i, i);
    assert after == before - {Itoa(i)};
    assert Itoa(i) in before;
  }

  /** The app numbers at indexes i, i+1, ... up to the first index without a
      string; the first one that is not an app number is an error. */
  function AppNumbersFrom(top: Value, key: string, skuPath: string, i: nat): (r: Result<seq<int>, AppNumError>)
    ensures r.Ok? ==> forall n :: n in r.value ==> IsAppNum(n)
    decreases Unvisited(top, key, i)
  {
    match IndexText(top, key, i)
    case None => Ok([])
    case Some(text) =>
      match ParseAppNum(text, skuPath)
      case Err(e) => Err(e)
      case Ok(n) =>
        UnvisitedShrinks(top, key, i);
        var rest := AppNumbersFrom(top, key, skuPath, i + 1);
        if rest.Err? then rest else Ok([n] + rest.value)
  }

  /** The reading stops at the first index after the numbers that holds no string. */
  lemma {:induction false} AppNumbersStop(top: Value, key: string, skuPath: string, i: nat)
    ensures var r := AppNumbersFrom(top, key, skuPath, i);
      r.Ok? ==> IndexText(top, key, i + |r.value|).None?
    decreases Unvisited(top, key, i)
  {
    var t := IndexText(top, key, i);
    if t.Some? && ParseAppNum(t.value, skuPath).Ok? {
      UnvisitedShrinks(top, key, i);
      AppNumbersStop(top, key, skuPath, i + 1);
    }
  }

  /** The numbers read are those of the strings at consecutive indexes from i, in order. */
  lemma {:induction false} AppNumbersInOrder(top: Value, key: string, skuPath: string, i: nat)
    ensures var r := AppNumbersFrom(top, key, skuPath, i);
      r.Ok? ==> forall j :: i <= j < i + |r.value| ==>
        IndexText(top, key, j).Some? && ParseAppNum(IndexText(top, key, j).value, skuPath) == Ok(r.value[j - i])
    decreases Unvisited(top, key, i)
  {
    var r := AppNumbersFrom(top, key, skuPath, i);
    var t := IndexText(top, key, i);
    if t.Some? && ParseAppNum(t.value, skuPath).Ok? {
      UnvisitedShrinks(top, key, i);
      AppNumbersInOrder(top, key, skuPath, i + 1);
      var rest := AppNumbersFrom(top, key, skuPath, i + 1);
      if rest.Ok? {
        assert r.value == [ParseAppNum(t.value, skuPath).value] + rest.value;
        forall j | i < j < i + |r.value|
          ensures IndexText(top, key, j).Some? && ParseAppNum(IndexText(top, key, j).value, skuPath) == Ok(r.value[j - i])
        {
          assert r.value[j - i] == rest.value[j - (i + 1)];
        }
      }
    }
  }

  /** A failure is the failure of the string at some index from i on. */
  lemma {:induction false} AppNumbersError(top: Value, key: string, skuPath: string, i: nat)
    ensures var r := AppNumbersFrom(top, key, skuPath, i);
      r.Err? ==> exists j :: i <= j && IndexText(top, key, j).Some? && ParseAppNum(IndexText(top, key, j).value, skuPath) == Err(r.error)
    decreases Unvisited(top, key, i)
  {
    var t := IndexText(top, key, i);
    if t.Some? && ParseAppNum(t.value, skuPath).Ok? {
      UnvisitedShrinks(top, key, i);
      AppNumbersError(top, key, skuPath, i + 1);
    }
  }

  /** Reading one entry of the backups directory: None when it is not a
      backup (not a directory, or no sku.sis in either place). */
  function ReadBackupOf(dir: string, e: BackupEntry): (r: Result<Option<AppBackup>, ScanError>)
    ensures r.Ok? && r.value.Some? ==>
      var b := r.value.value;
      && b.backupPath == PathJoin(dir, e.name) && b.modTime == e.skuModTime
      && |b.appNumbers| > 0 && forall n :: n in b.appNumbers ==> IsAppNum(n)
    ensures r.Ok? && r.value.Some? ==>
      e.examinable && e.isDir && SkuLocation(PathJoin(dir, e.name), e).Ok? && SkuLocation(PathJoin(dir, e.name), e).value.Some?
    ensures r.Ok? && r.value.Some? ==>
      var b := r.value.value;
      var skuPath := SkuLocation(PathJoin(dir, e.name), e).value.value;
      var f := FromParsed(skuPath, e.skuModTime, e.skuSize, e.skuParsed, ["sku", "SKU"]);
      && f.Ok? && LookupOf(f.value.topValue, ["name"]) == Ok(b.backupName)
      && AppListKey(f.value.topValue).Some?
      && AppNumbersFrom(f.value.topValue, AppListKey(f.value.topValue).value, skuPath, 0) == Ok(b.appNumbers)
    ensures !e.examinable ==> r == Err(CannotExamine(PathJoin(dir, e.name)))
    ensures e.examinable && !e.isDir ==> r == Ok(None)
    ensures e.examinable && e.isDir && SkuLocation(PathJoin(dir, e.name), e).Err? ==>
      r == Err(SkuLocation(PathJoin(dir, e.name), e).error)
    ensures e.examinable && e.isDir && SkuLocation(PathJoin(dir, e.name), e) == Ok(None) ==> r == Ok(None)
    ensures e.examinable && e.isDir && SkuLocation(PathJoin(dir, e.name), e).Ok? && SkuLocation(PathJoin(dir, e.name), e).value.Some? ==>
      var skuPath := SkuLocation(PathJoin(dir, e.name), e).value.value;
      var f := FromParsed(skuPath, e.skuModTime, e.skuSize, e.skuParsed, ["sku", "SKU"]);
      && (f.Err? ==> r == Err(BadSku(f.error)))
      && (f.Ok? && LookupOf(f.value.topValue, ["name"]).Err? ==>
            r == Err(NoBackupName(skuPath, LookupOf(f.value.topValue, ["name"]).error)))
      && (f.Ok? && LookupOf(f.value.topValue, ["name"]).Ok? && AppListKey(f.value.topValue).None? ==>
            r == Err(NoAppList(skuPath)))
      && (f.Ok? && LookupOf(f.value.topValue, ["name"]).Ok? && AppListKey(f.value.topValue).Some? ==>
            var nums := AppNumbersFrom(f.value.topValue, AppListKey(f.value.topValue).value, skuPath, 0);
            nums.Err? ==> r == Err(BadAppNum(nums.error)))
  {
    var path := PathJoin(dir, e.name);
    if !e.examinable then Err(CannotExamine(path))
    else if !e.isDir then Ok(None)
    else match SkuLocation(path, e)
      case Err(err) => Err(err)
      case Ok(None) => Ok(None)
      case Ok(Some(skuPath)) =>
        match FromParsed(skuPath, e.skuModTime, e.skuSize, e.skuParsed, ["sku", "SKU"])
        case Err(fe) => Err(BadSku(fe))
        case Ok(sku) =>
          match LookupOf(sku.topValue, ["name"])
          case Err(le) => Err(NoBackupName(skuPath, le))
          case Ok(name) =>
            match AppListKey(sku.topValue)
            case None => Err(NoAppList(skuPath))
            case Some(key) =>
              match AppNumbersFrom(sku.topValue, key, skuPath, 0)
              case Err(ae) => Err(BadAppNum(ae))
              case Ok(nums) =>
                if |nums| == 0 then Err(NoAppNumbers(skuPath))
                else Ok(Some(AppBackup(nums, name, path, sku.modTime)))
  }

  /** "cannot get any app numbers" never happens: the list key is chosen only
      when index "0" holds a string, so the first number is read or is an error. */
  lemma NoAppNumbersUnreachable(dir: string, e: BackupEntry)
    ensures !(ReadBackupOf(dir, e).Err? && ReadBackupOf(dir, e).error.NoAppNumbers?)
  {
    var path := PathJoin(dir, e.name);
    if e.examinable && e.isDir && SkuLocation(path, e).Ok? && SkuLocation(path, e).value.Some? {
      var skuPath := SkuLocation(path, e).value.value;
      var f := FromParsed(skuPath, e.skuModTime, e.skuSize, e.skuParsed, ["sku", "SKU"]);
      if f.Ok? && LookupOf(f.value.topValue, ["name"]).Ok? && AppListKey(f.value.topValue).Some? {
        var key := AppListKey(f.value.topValue).value;
        var r := AppNumbersFrom(f.value.topValue, key, skuPath, 0);
        assert r.Ok? ==> |r.value| > 0;
      }
    }
  }

  /*------------------------- Recording in the map ---------------------------*/

  /** Records backup b under each of `nums` in turn: an app not yet in the map
      gets b; for one already there, the handler decides. */
  function RecordOf(m: map<int, AppBackup>, b: AppBackup, nums: seq<int>, h: DupeHandler): (r: map<int, AppBackup>)
    ensures m.Keys <= r.Keys
    ensures forall k :: k in r ==> r[k] == b || (k in m && r[k] == m[k])
    decreases |nums|
  {
    if |nums| == 0 then m
    else
      var n := nums[0];
      var m' := if n in m && !h(n, m[n], b) then m else m[n := b];
      RecordOf(m', b, nums[1..], h)
  }

  /** Recording adds exactly the apps of the list, leaves every other app's
      backup alone, and stores nothing but b (under an app of the list) or
      what was there. */
  lemma {:induction false} RecordFrame(m: map<int, AppBackup>, b: AppBackup, nums: seq<int>, h: DupeHandler)
    ensures var r := RecordOf(m, b, nums, h);
      && (forall k :: k in r <==> k in m || k in nums)
      && (forall k :: k in m && k !in nums ==> r[k] == m[k])
      && (forall k :: k in r ==> (r[k] == b && k in nums) || (k in m && r[k] == m[k]))
    decreases |nums|
  {
    if |nums| > 0 {
      var n := nums[0];
      var m' := if n in m && !h(n, m[n], b) then m else m[n := b];
      RecordFrame(m', b, nums[1..], h);
      assert forall k :: k in nums <==> k == n || k in nums[1..];
    }
  }

  /** For an app listed once: if it was not in the map, or the handler says
      to use the new backup, it now maps to b; otherwise it keeps its backup. */
  lemma {:induction false} RecordDecides(m: map<int, AppBackup>, b: AppBackup, nums: seq<int>, h: DupeHandler, k: int)
    requires multiset(nums)[k] == 1
    ensures k in RecordOf(m, b, nums, h)
    ensures RecordOf(m, b, nums, h)[k] == if k in m && !h(k, m[k], b) then m[k] else b
    decreases |nums|
  {
    assert nums == [nums[0]] + nums[1..];
    var n := nums[0];
    var m' := if n in m && !h(n, m[n], b) then m else m[n := b];
    if n == k {
      assert multiset(nums[1..])[k] == 0;
      RecordFrame(m', b, nums[1..], h);
    } else {
      RecordDecides(m', b, nums[1..], h, k);
    }
  }

  /** The handler calls made while recording b under `nums`, in order. */
  function RecordCalls(m: map<int, AppBackup>, b: AppBackup, nums: seq<int>, h: DupeHandler): seq<DupeCall>
    decreases |nums|
  {
    if |nums| == 0 then []
    else
      var n := nums[0];
      var m' := if n in m && !h(n, m[n], b) then m else m[n := b];
      (if n in m then [DupeCall(n, m[n], b)] else []) + RecordCalls(m', b, nums[1..], h)
  }

  /** Every call is about the new backup and one of its apps; an app listed
      once is asked about exactly when it already had a backup, and then
      with that backup. */
  lemma {:induction false} RecordCallsMeaning(m: map<int, AppBackup>, b: AppBackup, nums: seq<int>, h: DupeHandler, k: int)
    ensures forall c :: c in RecordCalls(m, b, nums, h) ==> c.curr == b && c.appNum in nums
    ensures multiset(nums)[k] == 1 ==>
      ((exists c :: c in RecordCalls(m, b, nums, h) && c.appNum == k) <==> k in m)
    ensures multiset(nums)[k] == 1 && k in m ==> DupeCall(k, m[k], b) in RecordCalls(m, b, nums, h)
    decreases |nums|
  {
    if |nums| > 0 {
      assert nums == [nums[0]] + nums[1..];
      var n := nums[0];
      var m' := if n in m && !h(n, m[n], b) then m else m[n := b];
      var first: seq<DupeCall> := if n in m then [DupeCall(n, m[n], b)] else [];
      var rest := RecordCalls(m', b, nums[1..], h);
      assert RecordCalls(m, b, nums, h) == first + rest;
      RecordCallsMeaning(m', b, nums[1..], h, k);
      if multiset(nums)[k] == 1 {
        if n == k {
          assert multiset(nums[1..])[k] == 0;
          assert forall c :: c in rest ==> c.appNum != k;
        } else {
          assert k in m' <==> k in m;
          assert k in m ==> m'[k] == m[k];
        }
      }
    }
  }

  /** With no handler every app of the new backup maps to it. */
  lemma RecordWithoutHandler(m: map<int, AppBackup>, b: AppBackup, nums: seq<int>)
    ensures forall k :: k in nums ==> k in RecordOf(m, b, nums, HandlerOf(None)) && RecordOf(m, b, nums, HandlerOf(None))[k] == b
  {
    forall k | k in nums ensures k in RecordOf(m, b, nums, HandlerOf(None)) && RecordOf(m, b, nums, HandlerOf(None))[k] == b {
      RecordLast(m, b, nums, HandlerOf(None), k);
    }
  }

  lemma {:induction false} RecordLast(m: map<int, AppBackup>, b: AppBackup, nums: seq<int>, h: DupeHandler, k: int)
    requires k in nums && forall p: AppBackup, c: AppBackup :: h(k, p, c)
    ensures k in RecordOf(m, b, nums, h) && RecordOf(m, b, nums, h)[k] == b
    decreases |nums|
  {
    var n := nums[0];
    var m' := if n in m && !h(n, m[n], b) then m else m[n := b];
    RecordFrame(m', b, nums[1..], h);
    if k in nums[1..] {
      RecordLast(m', b, nums[1..], h, k);
    }
  }

  /*----------------------------- The whole scan -----------------------------*/

  /** What reading one directory entry gives. */
  type ReadResult = Result<Option<AppBackup>, ScanError>

  /** The loop over the directory's entries, given what reading each gives;
      nFound counts the backups read. */
  function ScanFrom(dir: string, outcomes: seq<ReadResult>, m: map<int, AppBackup>, nFound: nat, h: DupeHandler)
    : (r: (Option<ScanError>, map<int, AppBackup>))
    ensures m.Keys <= r.1.Keys
    ensures r.0.None? ==> forall i :: 0 <= i < |outcomes| ==> outcomes[i].Ok?
    ensures (forall i :: 0 <= i < |outcomes| ==> outcomes[i] == Ok(None)) ==>
      r == (if nFound == 0 then Some(NoBackupsFound(dir)) else None, m)
    decreases |outcomes|
  {
    if |outcomes| == 0 then
      (if nFound == 0 then Some(NoBackupsFound(dir)) else None, m)
    else match outcomes[0]
      case Err(e) => (Some(e), m)
      case Ok(None) => ScanFrom(dir, outcomes[1..], m, nFound, h)
      case Ok(Some(b)) => ScanFrom(dir, outcomes[1..], RecordOf(m, b, b.appNumbers, h), nFound + 1, h)
  }

  function ReadAll(dir: string, entries: seq<BackupEntry>): seq<ReadResult>
  {
    seq(|entries|, i requires 0 <= i < |entries| => ReadBackupOf(dir, entries[i]))
  }

  /** ScanBackupsDir(dir, m, handleDupe): the error it returns and the map it
      leaves (entries recorded before an error stay in the map). */
  function ScanBackupsDirOf(dir: string, listing: Listing, m: map<int, AppBackup>, handleDupe: Option<DupeHandler>)
    : (r: (Option<ScanError>, map<int, AppBackup>))
    ensures m.Keys <= r.1.Keys
    ensures !listing.Listed? ==> r.0.Some? && r.1 == m
    ensures listing.Listed? && |listing.entries| == 0 ==> r == (Some(NoBackupsFound(dir)), m)
  {
    match listing
    case CannotOpen => (Some(CannotOpenDir(dir)), m)
    case CannotRead => (Some(CannotReadDir(dir)), m)
    case Listed(entries) => ScanFrom(dir, ReadAll(dir, entries), m, 0, HandlerOf(handleDupe))
  }

  predicate IsBackup(r: ReadResult) { r.Ok? && r.value.Some? }

  /** The handler calls the loop makes, up to the first entry it cannot read. */
  function ScanCalls(outcomes: seq<ReadResult>, m: map<int, AppBackup>, h: DupeHandler): seq<DupeCall>
    decreases |outcomes|
  {
    if |outcomes| == 0 then []
    else match outcomes[0]
      case Err(_) => []
      case Ok(None) => ScanCalls(outcomes[1..], m, h)
      case Ok(Some(b)) => RecordCalls(m, b, b.appNumbers, h) + ScanCalls(outcomes[1..], RecordOf(m, b, b.appNumbers, h), h)
  }

  /** The handler calls ScanBackupsDir(dir, m, handleDupe) makes. */
  function ScanBackupsDirCalls(dir: string, listing: Listing, m: map<int, AppBackup>, handleDupe: Option<DupeHandler>): seq<DupeCall>
  {
    match listing
    case Listed(entries) => ScanCalls(ReadAll(dir, entries), m, HandlerOf(handleDupe))
    case _ => []
  }

  /** Every handler call of the scan is about a backup read from an entry
      before the first that cannot be read, and one of that backup's apps. */
  lemma {:induction false} ScanCallsMeaning(outcomes: seq<ReadResult>, m: map<int, AppBackup>, h: DupeHandler)
    ensures forall c :: c in ScanCalls(outcomes, m, h) ==>
      c.appNum in c.curr.appNumbers
      && exists i :: 0 <= i < |outcomes| && outcomes[i] == Ok(Some(c.curr)) && forall j :: 0 <= j < i ==> outcomes[j].Ok?
    decreases |outcomes|
  {
    if |outcomes| > 0 && outcomes[0].Ok? {
      var m' := if IsBackup(outcomes[0]) then RecordOf(m, outcomes[0].value.value, outcomes[0].value.value.appNumbers, h) else m;
      ScanCallsMeaning(outcomes[1..], m', h);
      if IsBackup(outcomes[0]) {
        var b := outcomes[0].value.value;
        RecordCallsMeaning(m, b, b.appNumbers, h, 0);
      }
      forall c | c in ScanCalls(outcomes, m, h)
        ensures c.appNum in c.curr.appNumbers
        ensures exists i :: 0 <= i < |outcomes| && outcomes[i] == Ok(Some(c.curr)) && forall j :: 0 <= j < i ==> outcomes[j].Ok?
      {
        if IsBackup(outcomes[0]) && c in RecordCalls(m, outcomes[0].value.value, outcomes[0].value.value.appNumbers, h) {
          assert outcomes[0] == Ok(Some(c.curr));
        } else {
          assert c in ScanCalls(outcomes[1..], m', h);
          var i :| 0 <= i < |outcomes[1..]| && outcomes[1..][i] == Ok(Some(c.curr)) && forall j :: 0 <= j < i ==> outcomes[1..][j].Ok?;
          assert outcomes[i + 1] == Ok(Some(c.curr));
          assert forall j :: 0 <= j < i + 1 ==> outcomes[j].Ok? by {
            forall j | 0 < j < i + 1 ensures outcomes[j].Ok? { assert outcomes[j] == outcomes[1..][j - 1]; }
          }
        }
      }
    }
  }


  /** The scan stops at the first entry that cannot be read and returns its
      error; it fails with "cannot find any Steam backups" when no entry is a
      backup and none went before; otherwise it succeeds. It only ever adds apps. */
  lemma {:induction false} ScanOutcome(dir: string, outcomes: seq<ReadResult>, m: map<int, AppBackup>, nFound: nat, h: DupeHandler)
    ensures var r := ScanFrom(dir, outcomes, m, nFound, h);
      && m.Keys <= r.1.Keys
      && (r.0.None? <==> (forall i :: 0 <= i < |outcomes| ==> outcomes[i].Ok?) && (nFound > 0 || exists i :: 0 <= i < |outcomes| && IsBackup(outcomes[i])))
      && (r.0.Some? && r.0.value != NoBackupsFound(dir) ==>
            exists i :: 0 <= i < |outcomes| && outcomes[i] == Err(r.0.value) && forall j :: 0 <= j < i ==> outcomes[j].Ok?)
    decreases |outcomes|
  {
    if |outcomes| > 0 {
      var r := ScanFrom(dir, outcomes, m, nFound, h);
      match outcomes[0]
      case Err(e) =>
      case Ok(None) =>
        ScanOutcome(dir, outcomes[1..], m, nFound, h);
        ShiftExists(outcomes);
        if r.0.Some? && r.0.value != NoBackupsFound(dir) {
          var i :| 0 <= i < |outcomes[1..]| && outcomes[1..][i] == Err(r.0.value) && forall j :: 0 <= j < i ==> outcomes[1..][j].Ok?;
          assert outcomes[i + 1] == Err(r.0.value);
          assert forall j :: 0 <= j < i + 1 ==> outcomes[j].Ok? by {
            forall j | 0 < j < i + 1 ensures outcomes[j].Ok? { assert outcomes[j] == outcomes[1..][j - 1]; }
          }
        }
      case Ok(Some(b)) =>
        var m' := RecordOf(m, b, b.appNumbers, h);
        RecordFrame(m, b, b.appNumbers, h);
        ScanOutcome(dir, outcomes[1..], m', nFound + 1, h);
        ShiftExists(outcomes);
        assert r == ScanFrom(dir, outcomes[1..], m', nFound + 1, h);
        forall k | k in m ensures k in m' {
          assert k in m || k in b.appNumbers;
        }
        if r.0.Some? && r.0.value != NoBackupsFound(dir) {
          var i :| 0 <= i < |outcomes[1..]| && outcomes[1..][i] == Err(r.0.value) && forall j :: 0 <= j < i ==> outcomes[1..][j].Ok?;
          assert outcomes[i + 1] == Err(r.0.value);
          assert forall j :: 0 <= j < i + 1 ==> outcomes[j].Ok? by {
            forall j | 0 < j < i + 1 ensures outcomes[j].Ok? { assert outcomes[j] == outcomes[1..][j - 1]; }
          }
        }
    }
  }

  /** Quantifiers over the tail of a list of outcomes, moved to the whole list. */
  lemma ShiftExists(outcomes: seq<ReadResult>)
    requires |outcomes| > 0
    ensures (forall i :: 0 <= i < |outcomes| ==> outcomes[i].Ok?) <==> outcomes[0].Ok? && forall i :: 0 <= i < |outcomes[1..]| ==> outcomes[1..][i].Ok?
    ensures (exists i :: 0 <= i < |outcomes| && IsBackup(outcomes[i])) <==> IsBackup(outcomes[0]) || exists i :: 0 <= i < |outcomes[1..]| && IsBackup(outcomes[1..][i])
  {
    assert forall i :: 0 < i < |outcomes| ==> outcomes[i] == outcomes[1..][i - 1];
    if exists i :: 0 <= i < |outcomes| && IsBackup(outcomes[i]) {
      var i :| 0 <= i < |outcomes| && IsBackup(outcomes[i]);
      if i > 0 { assert IsBackup(outcomes[1..][i - 1]); }
    }
  }

  /** The scan stops at the first entry that cannot be read, with its error. */
  lemma {:induction false} ScanStopsAt(dir: string, outcomes: seq<ReadResult>, m: map<int, AppBackup>, nFound: nat, h: DupeHandler, i: nat)
    requires i < |outcomes| && outcomes[i].Err? && forall j :: 0 <= j < i ==> outcomes[j].Ok?
    ensures ScanFrom(dir, outcomes, m, nFound, h).0 == Some(outcomes[i].error)
    decreases i
  {
    if i > 0 {
      var m' := if IsBackup(outcomes[0]) then RecordOf(m, outcomes[0].value.value, outcomes[0].value.value.appNumbers, h) else m;
      var n' := if IsBackup(outcomes[0]) then nFound + 1 else nFound;
      assert ScanFrom(dir, outcomes, m, nFound, h) == ScanFrom(dir, outcomes[1..], m', n', h);
      assert forall j :: 0 <= j < i - 1 ==> outcomes[1..][j] == outcomes[j + 1];
      ScanStopsAt(dir, outcomes[1..], m', n', h, i - 1);
    }
  }

  /** A sku.sis that cannot be opened, examined or read stops ScanBackupsDir
      with the CannotError of sVDF.FromFile, once the entries before it read. */
  lemma UnreadableSkuStops(dir: string, entries: seq<BackupEntry>, m: map<int, AppBackup>, handleDupe: Option<DupeHandler>,
                           i: nat, skuPath: string, step: FileStep)
    requires i < |entries| && entries[i].examinable && entries[i].isDir
    requires SkuLocation(PathJoin(dir, entries[i].name), entries[i]) == Ok(Some(skuPath))
    requires entries[i].skuParsed == Err(Unreadable(step))
    requires forall j :: 0 <= j < i ==> ReadBackupOf(dir, entries[j]).Ok?
    ensures ScanBackupsDirOf(dir, Listed(entries), m, handleDupe).0 == Some(BadSku(CannotError(step, skuPath)))
  {
    ScanStopsAt(dir, ReadAll(dir, entries), m, 0, HandlerOf(handleDupe), i);
  }

  /** Every app in the map after the scan keeps its backup from before, or maps
      to a backup read from one of the entries that holds that app. */
  lemma {:induction false} ScanRecordsBackups(dir: string, outcomes: seq<ReadResult>, m: map<int, AppBackup>, nFound: nat, h: DupeHandler)
    ensures var r := ScanFrom(dir, outcomes, m, nFound, h);
      forall k :: k in r.1 ==>
        (k in m && r.1[k] == m[k]) || (exists i :: 0 <= i < |outcomes| && outcomes[i] == Ok(Some(r.1[k])) && k in r.1[k].appNumbers)
    decreases |outcomes|
  {
    if |outcomes| > 0 {
      var r := ScanFrom(dir, outcomes, m, nFound, h);
      var m' := if IsBackup(outcomes[0]) then RecordOf(m, outcomes[0].value.value, outcomes[0].value.value.appNumbers, h) else m;
      if IsBackup(outcomes[0]) {
        RecordFrame(m, outcomes[0].value.value, outcomes[0].value.value.appNumbers, h);
      }
      if outcomes[0].Ok? {
        ScanRecordsBackups(dir, outcomes[1..], m', nFound + (if IsBackup(outcomes[0]) then 1 else 0), h);
        forall k | k in r.1 && !(k in m && r.1[k] == m[k])
          ensures exists i :: 0 <= i < |outcomes| && outcomes[i] == Ok(Some(r.1[k])) && k in r.1[k].appNumbers
        {
          if k in m' && r.1[k] == m'[k] {
            assert outcomes[0] == Ok(Some(r.1[k])) && k in r.1[k].appNumbers;
          } else {
            var i :| 0 <= i < |outcomes[1..]| && outcomes[1..][i] == Ok(Some(r.1[k])) && k in r.1[k].appNumbers;
            assert outcomes[i + 1] == outcomes[1..][i];
          }
        }
      }
    }
  }

  /** A successful ScanBackupsDir starting from an empty map leaves a map of
      app numbers to backups in the directory that hold them. */
  lemma ScanBackupsDirFillsMap(dir: string, entries: seq<BackupEntry>, handleDupe: Option<DupeHandler>)
    ensures var r := ScanBackupsDirOf(dir, Listed(entries), map[], handleDupe);
      r.0.None? ==> |r.1| > 0 && forall k :: k in r.1 ==>
        && IsAppNum(k) && k in r.1[k].appNumbers
        && exists i :: 0 <= i < |entries| && r.1[k].backupPath == PathJoin(dir, entries[i].name)
  {
    ScanFillsSomething(dir, ReadAll(dir, entries), HandlerOf(handleDupe));
    ScanFillsFromListing(dir, entries, HandlerOf(handleDupe));
  }

  lemma ScanFillsSomething(dir: string, outcomes: seq<ReadResult>, h: DupeHandler)
    requires forall i :: 0 <= i < |outcomes| && IsBackup(outcomes[i]) ==> |outcomes[i].value.value.appNumbers| > 0
    ensures var r := ScanFrom(dir, outcomes, map[], 0, h); r.0.None? ==> |r.1| > 0
  {
    ScanOutcome(dir, outcomes, map[], 0, h);
    if ScanFrom(dir, outcomes, map[], 0, h).0.None? {
      var i :| 0 <= i < |outcomes| && IsBackup(outcomes[i]);
      ScanNonEmpty(dir, outcomes, map[], 0, h, i);
    }
  }

  lemma ScanFillsFromListing(dir: string, entries: seq<BackupEntry>, h: DupeHandler)
    ensures var r := ScanFrom(dir, ReadAll(dir, entries), map[], 0, h);
      forall k :: k in r.1 ==>
        && IsAppNum(k) && k in r.1[k].appNumbers
        && exists i :: 0 <= i < |entries| && r.1[k].backupPath == PathJoin(dir, entries[i].name)
  {
    var outcomes := ReadAll(dir, entries);
    ScanRecordsBackups(dir, outcomes, map[], 0, h);
    var r := ScanFrom(dir, outcomes, map[], 0, h);
    forall k | k in r.1
      ensures IsAppNum(k) && k in r.1[k].appNumbers
      ensures exists i :: 0 <= i < |entries| && r.1[k].backupPath == PathJoin(dir, entries[i].name)
    {
      var i :| 0 <= i < |outcomes| && outcomes[i] == Ok(Some(r.1[k])) && k in r.1[k].appNumbers;
      assert ReadBackupOf(dir, entries[i]) == outcomes[i];
    }
  }

  /** A backup that is read is recorded under its first app (the map is never
      left empty by a scan that meets a backup). */
  lemma {:induction false} ScanNonEmpty(dir: string, outcomes: seq<ReadResult>, m: map<int, AppBackup>, nFound: nat, h: DupeHandler, i: nat)
    requires i < |outcomes| && IsBackup(outcomes[i]) && |outcomes[i].value.value.appNumbers| > 0
    requires forall j :: 0 <= j < |outcomes| ==> outcomes[j].Ok?
    ensures |ScanFrom(dir, outcomes, m, nFound, h).1| > 0
    decreases i
  {
    var b := outcomes[0];
    ScanOutcome(dir, outcomes[1..], m, nFound, h);
    if IsBackup(b) {
      var m' := RecordOf(m, b.value.value, b.value.value.appNumbers, h);
      RecordFrame(m, b.value.value, b.value.value.appNumbers, h);
      if i == 0 {
        assert b.value.value.appNumbers[0] in m';
        ScanOutcome(dir, outcomes[1..], m', nFound + 1, h);
      } else {
        assert outcomes[1..][i - 1] == outcomes[i];
        ScanNonEmpty(dir, outcomes[1..], m', nFound + 1, h, i - 1);
      }
    } else {
      assert outcomes[1..][i - 1] == outcomes[i];
      ScanNonEmpty(dir, outcomes[1..], m, nFound, h, i - 1);
    }
  }

  /*------------------------------ The methods -------------------------------*/

  /** The app-number loop of ScanBackupsDir: indexes 0, 1, ... while the list
      holds a string there. */
  method ReadAppNumbers(sku: File, key: string, skuPath: string) returns (r: Result<seq<int>, AppNumError>)
    ensures r == AppNumbersFrom(sku.topValue, key, skuPath, 0)
  {
    var nums: seq<int> := [];
    var i: nat := 0;
    assert forall rest: seq<int> :: [] + rest == rest;
    while true
      invariant AppNumbersFrom(sku.topValue, key, skuPath, 0) ==
        match AppNumbersFrom(sku.topValue, key, skuPath, i)
        case Err(e) => Err(e)
        case Ok(rest) => Ok(nums + rest)
      decreases Unvisited(sku.topValue, key, i)
    {
      var present := HaveString(sku, [key, Itoa(i)]);
      IndexTextLookup(sku.topValue, key, i);
      if !present {
        assert nums + [] == nums;
        return Ok(nums);
      }
      // backups.go panics if this lookup fails; HaveString has just said it succeeds.
      var text := Lookup(sku, [key, Itoa(i)]);
      var n := ParseAppNum(text.value, skuPath);
      if n.Err? {
        return Err(n.error);
      }
      UnvisitedShrinks(sku.topValue, key, i);
      assert forall rest :: nums + ([n.value] + rest) == (nums + [n.value]) + rest;
      nums := nums + [n.value];
      i := i + 1;
    }
  }

  /** One entry of the backups directory (the body of the loop of
      ScanBackupsDir up to the new AppBackup). */
  method ReadBackup(dir: string, e: BackupEntry) returns (r: Result<Option<AppBackup>, ScanError>)
    ensures r == ReadBackupOf(dir, e)
  {
    var path := PathJoin(dir, e.name);
    if !e.examinable {
      return Err(CannotExamine(path));
    }
    if !e.isDir {
      return Ok(None);
    }
    var skuPath := PathJoin(path, "sku.sis");
    var probe := e.skuAtTop;
    if probe == NotExist {
      skuPath := PathJoin(PathJoin(path, "Disk_1"), "sku.sis");
      probe := e.skuInDisk1;
      if probe == NotExist {
        return Ok(None);
      }
    }
    if probe == ProbeFailed {
      return Err(SkuNotFound(path));
    }
    var sku := FromParsed(skuPath, e.skuModTime, e.skuSize, e.skuParsed, ["sku", "SKU"]);
    if sku.Err? {
      return Err(BadSku(sku.error));
    }
    var backupName := Lookup(sku.value, ["name"]);
    if backupName.Err? {
      return Err(NoBackupName(skuPath, backupName.error));
    }
    assert Itoa(0) == "0";
    IndexTextLookup(sku.value.topValue, "apps", 0);
    IndexTextLookup(sku.value.topValue, "Apps", 0);
    var appListKey := "apps";
    var have := HaveString(sku.value, [appListKey, "0"]);
    if !have {
      appListKey := "Apps";
      have := HaveString(sku.value, [appListKey, "0"]);
      if !have {
        return Err(NoAppList(skuPath));
      }
    }
    var nums := ReadAppNumbers(sku.value, appListKey, skuPath);
    if nums.Err? {
      return Err(BadAppNum(nums.error));
    }
    if |nums.value| == 0 {
      return Err(NoAppNumbers(skuPath));
    }
    return Ok(Some(AppBackup(nums.value, backupName.value, path, sku.value.modTime)));
  }

  /** The map from app numbers to backups that ScanBackupsDir fills. */
  class BackupsByApp {
    var byApp: map<int, AppBackup>
    var dupeCalls: seq<DupeCall>  // the calls made to the handler, in order

    constructor()
      ensures byApp == map[] && dupeCalls == []
    {
      byApp := map[];
      dupeCalls := [];
    }

    /** The loop recording a new backup under each of its apps. */
    method Record(b: AppBackup, h: DupeHandler)
      modifies this
      ensures byApp == RecordOf(old(byApp), b, b.appNumbers, h)
      ensures dupeCalls == old(dupeCalls) + RecordCalls(old(byApp), b, b.appNumbers, h)
    {
      for i := 0 to |b.appNumbers|
        invariant RecordOf(old(byApp), b, b.appNumbers, h) == RecordOf(byApp, b, b.appNumbers[i..], h)
        invariant old(dupeCalls) + RecordCalls(old(byApp), b, b.appNumbers, h) == dupeCalls + RecordCalls(byApp, b, b.appNumbers[i..], h)
      {
        var appNum := b.appNumbers[i];
        assert b.appNumbers[i..][1..] == b.appNumbers[i + 1..];
        if appNum in byApp {
          dupeCalls := dupeCalls + [DupeCall(appNum, byApp[appNum], b)];
          if !h(appNum, byApp[appNum], b) {
            continue;
          }
        }
        byApp := byApp[appNum := b];
      }
    }

    /** ScanBackupsDir(dir, byApp, handleDupe) */
    method ScanBackupsDir(dir: string, listing: Listing, handleDupe: Option<DupeHandler>) returns (err: Option<ScanError>)
      modifies this
      ensures (err, byApp) == ScanBackupsDirOf(dir, listing, old(byApp), handleDupe)
      ensures dupeCalls == old(dupeCalls) + ScanBackupsDirCalls(dir, listing, old(byApp), handleDupe)
    {
      var h := HandlerOf(handleDupe);
      if listing.CannotOpen? {
        return Some(CannotOpenDir(dir));
      }
      if listing.CannotRead? {
        return Some(CannotReadDir(dir));
      }
      err := ScanEntries(dir, listing.entries, h);
    }

    /** The loop of ScanBackupsDir over the directory's entries. */
    method ScanEntries(dir: string, entries: seq<BackupEntry>, h: DupeHandler) returns (err: Option<ScanError>)
      modifies this
      ensures (err, byApp) == ScanFrom(dir, ReadAll(dir, entries), old(byApp), 0, h)
      ensures dupeCalls == old(dupeCalls) + ScanCalls(ReadAll(dir, entries), old(byApp), h)
    {
      ghost var outcomes := ReadAll(dir, entries);
      var nFound: nat := 0;
      for i := 0 to |entries|
        invariant ScanFrom(dir, outcomes, old(byApp), 0, h) == ScanFrom(dir, outcomes[i..], byApp, nFound, h)
        invariant old(dupeCalls) + ScanCalls(outcomes, old(byApp), h) == dupeCalls + ScanCalls(outcomes[i..], byApp, h)
      {
        var stop;
        stop, nFound := ScanEntry(dir, entries[i], h, outcomes[i..], nFound);
        if stop.Some? {
          return stop;
        }
        assert outcomes[i..][1..] == outcomes[i + 1..];
      }
      if nFound == 0 {
        return Some(NoBackupsFound(dir));
      }
      return None;
    }

    /** One turn of the loop: reads entry e, the first of `rest`, and records
        the backup it holds; the scan and its handler calls from e on are
        those from the next entry on, unless e stops the loop. */
    method ScanEntry(dir: string, e: BackupEntry, h: DupeHandler, ghost rest: seq<ReadResult>, nFound: nat)
      returns (stop: Option<ScanError>, nFound': nat)
      requires |rest| > 0 && rest[0] == ReadBackupOf(dir, e)
      modifies this
      ensures stop.Some? ==>
        && ScanFrom(dir, rest, old(byApp), nFound, h) == (stop, byApp)
        && old(dupeCalls) + ScanCalls(rest, old(byApp), h) == dupeCalls
      ensures stop.None? ==>
        && ScanFrom(dir, rest, old(byApp), nFound, h) == ScanFrom(dir, rest[1..], byApp, nFound', h)
        && old(dupeCalls) + ScanCalls(rest, old(byApp), h) == dupeCalls + ScanCalls(rest[1..], byApp, h)
    {
      var b := ReadBackup(dir, e);
      if b.Err? {
        return Some(b.error), nFound;
      }
      if b.value.None? {
        return None, nFound;
      }
      Record(b.value.value, h);
      return None, nFound + 1;
    }
  }
}

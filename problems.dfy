/** The problems both checkers report (check-backups/check-backups.go and
    steam-backups-tool/steam-backups-tool.go, which share this code): an
    installed app with no backup, a backup older than the app's files, and a
    backup of an app that is not installed. Each checker classifies its apps
    by the same rules, records problems in a list, sorts the list by app name
    and prints it. */
module Problems {
  import opened Wrappers
  import opened GoText

  datatype ProblemKind = NoBackup | OldBackup | NotInstalled

  /** problemInfo */
  datatype Problem = Problem(kind: ProblemKind, appName: string, appNumber: int)

  /*------------------------------ Classification ----------------------------*/

  /** What the classification needs to know of an installed app: its name and
      number as the checker records them, the time of its manifest, and where
      its files are (the library folder and install directory passed to the
      newer-files test). */
  datatype Installed = Installed(appName: string, appNumber: int, modTime: int, libDir: string, installDir: string)

  /** What it needs to know of a backup: its name and the time of its sku.sis. */
  datatype Saved = Saved(name: string, modTime: int)

  /** AppNewerThan(libDir, installDir, t): whether any file of the installed app
      is newer than t. It walks the file system, so the model takes it as given. */
  type NewerOracle = (string, string, int) -> bool

  /** The problem, if any, the first loop of `check` records for an installed app. */
  function ManifestProblem(k: int, m: Installed, saved: map<int, Saved>, newer: NewerOracle): (r: Option<Problem>)
    ensures r.Some? ==> r.value.appName == m.appName && r.value.kind != NotInstalled
    ensures (r.Some? && r.value.kind == NoBackup) <==> k !in saved
    ensures r.Some? && r.value.kind == OldBackup ==>
      r.value.appNumber == k && m.modTime > saved[k].modTime && newer(m.libDir, m.installDir, saved[k].modTime)
    ensures r.None? ==> k in saved && (m.modTime <= saved[k].modTime || !newer(m.libDir, m.installDir, saved[k].modTime))
  {
    if k !in saved then Some(Problem(NoBackup, m.appName, m.appNumber))
    else if m.modTime > saved[k].modTime && newer(m.libDir, m.installDir, saved[k].modTime) then
      Some(Problem(OldBackup, m.appName, k))
    else None
  }

  /** The problem, if any, the second loop of `check` records for a backup. */
  function BackupProblem(k: int, b: Saved, installed: map<int, Installed>): (r: Option<Problem>)
    ensures r.Some? <==> k !in installed
    ensures r.Some? ==> r.value.kind == NotInstalled && r.value.appName == b.name && r.value.appNumber == k
  {
    if k !in installed then Some(Problem(NotInstalled, b.name, k)) else None
  }

  /** The installed apps among `keys` that have a problem. */
  function ManifestProblemKeys(keys: set<int>, installed: map<int, Installed>, saved: map<int, Saved>, newer: NewerOracle): set<int>
  {
    set k | k in keys && k in installed && ManifestProblem(k, installed[k], saved, newer).Some?
  }

  /** The backups among `keys` of apps that are not installed. */
  function BackupProblemKeys(keys: set<int>, saved: map<int, Saved>, installed: map<int, Installed>): set<int>
  {
    set k | k in keys && k in saved && k !in installed
  }

  /** The problems `check` records, as a set (the order depends on Go's map
      iteration, which is unspecified). */
  function ExpectedProblems(installed: map<int, Installed>, saved: map<int, Saved>, reportUninstalled: bool, newer: NewerOracle): (r: set<Problem>)
    ensures forall p :: p in r && p.kind == NotInstalled ==> reportUninstalled && p.appNumber in saved && p.appNumber !in installed
    ensures forall p :: p in r && p.kind == OldBackup ==> p.appNumber in installed && p.appNumber in saved
  {
    (set k | k in installed && ManifestProblem(k, installed[k], saved, newer).Some? :: ManifestProblem(k, installed[k], saved, newer).value)
    + (if reportUninstalled then set k | k in saved && k !in installed :: Problem(NotInstalled, saved[k].name, k) else {})
  }

  /** The three rules: an installed app without a backup is a NoBackup problem;
      one whose manifest is newer than its backup and whose files are newer
      too is an OldBackup problem; and, when asked for, a backup of an app
      that is not installed is a NotInstalled problem. Nothing else is. */
  lemma ExpectedProblemsRules(installed: map<int, Installed>, saved: map<int, Saved>, reportUninstalled: bool, newer: NewerOracle, p: Problem)
    ensures p in ExpectedProblems(installed, saved, reportUninstalled, newer) <==>
      || (p.kind == NoBackup && exists k :: k in installed && k !in saved && p == Problem(NoBackup, installed[k].appName, installed[k].appNumber))
      || (p.kind == OldBackup && p.appNumber in installed && p.appNumber in saved
          && p.appName == installed[p.appNumber].appName
          && installed[p.appNumber].modTime > saved[p.appNumber].modTime
          && newer(installed[p.appNumber].libDir, installed[p.appNumber].installDir, saved[p.appNumber].modTime))
      || (p.kind == NotInstalled && reportUninstalled && p.appNumber in saved && p.appNumber !in installed
          && p.appName == saved[p.appNumber].name)
  {
    if p.kind == OldBackup && p.appNumber in installed && p.appNumber in saved
      && p.appName == installed[p.appNumber].appName
      && installed[p.appNumber].modTime > saved[p.appNumber].modTime
      && newer(installed[p.appNumber].libDir, installed[p.appNumber].installDir, saved[p.appNumber].modTime)
    {
      assert ManifestProblem(p.appNumber, installed[p.appNumber], saved, newer) == Some(p);
    }
    if p.kind == NotInstalled && reportUninstalled && p.appNumber in saved && p.appNumber !in installed
      && p.appName == saved[p.appNumber].name
    {
      assert p == Problem(NotInstalled, saved[p.appNumber].name, p.appNumber);
    }
  }

  /** The same set, key by key: what the first loop records for the installed
      apps, and what the second records for the backups when asked to. */
  lemma ExpectedProblemsByKey(installed: map<int, Installed>, saved: map<int, Saved>, reportUninstalled: bool, newer: NewerOracle, p: Problem)
    ensures p in ExpectedProblems(installed, saved, reportUninstalled, newer) <==>
      || (exists k :: k in installed && ManifestProblem(k, installed[k], saved, newer) == Some(p))
      || (reportUninstalled && exists k :: k in saved && BackupProblem(k, saved[k], installed) == Some(p))
  {
    if exists k :: k in installed && ManifestProblem(k, installed[k], saved, newer) == Some(p) {
      var k :| k in installed && ManifestProblem(k, installed[k], saved, newer) == Some(p);
      assert p == ManifestProblem(k, installed[k], saved, newer).value;
    }
    if reportUninstalled && exists k :: k in saved && BackupProblem(k, saved[k], installed) == Some(p) {
      var k :| k in saved && BackupProblem(k, saved[k], installed) == Some(p);
      assert p == Problem(NotInstalled, saved[k].name, k);
    }
  }

  /** The problems the two loops of `check` record, one after the other (the
      second only with -r), are exactly the expected ones. */
  lemma RecordedAreExpected(first: seq<Problem>, all: seq<Problem>, installed: map<int, Installed>, saved: map<int, Saved>,
                            reportUninstalled: bool, newer: NewerOracle)
    requires forall p :: p in first <==> exists k :: k in installed && ManifestProblem(k, installed[k], saved, newer) == Some(p)
    requires |first| <= |all| && all[..|first|] == first
    requires reportUninstalled ==> forall p :: p in all[|first|..] <==> exists k :: k in saved && BackupProblem(k, saved[k], installed) == Some(p)
    requires !reportUninstalled ==> all == first
    ensures forall p :: p in all <==> p in ExpectedProblems(installed, saved, reportUninstalled, newer)
  {
    assert all == first + all[|first|..];
    forall p
      ensures p in all <==> p in ExpectedProblems(installed, saved, reportUninstalled, newer)
    {
      ExpectedProblemsByKey(installed, saved, reportUninstalled, newer, p);
    }
  }

  /*---------------------------- Sorting by name -----------------------------*/

  predicate SortedByName(ps: seq<Problem>)
  {
    forall i, j :: 0 <= i < j < |ps| ==> LessEq(ps[i].appName, ps[j].appName)
  }

  lemma LessEqTransitive(a: string, b: string, c: string)
    requires LessEq(a, b) && LessEq(b, c)
    ensures LessEq(a, c)
  {
    if Less(a, b) && Less(b, c) { LessTransitive(a, b, c); }
  }

  lemma NotLessIsAtLeast(a: string, b: string)
    requires !Less(a, b)
    ensures LessEq(b, a)
  {
    if a != b { LessTotal(a, b); }
  }

  /** Inserts p after the problems whose names are not above its own. */
  function InsertByName(ps: seq<Problem>, p: Problem): (r: seq<Problem>)
    requires SortedByName(ps)
    ensures SortedByName(r)
    ensures multiset(r) == multiset(ps) + multiset{p}
    decreases |ps|
  {
    if |ps| == 0 then [p]
    else if Less(p.appName, ps[0].appName) then
      forall j | 0 <= j < |ps| ensures LessEq(p.appName, ps[j].appName) {
        LessEqTransitive(p.appName, ps[0].appName, ps[j].appName);
      }
      [p] + ps
    else
      assert ps == [ps[0]] + ps[1..];
      var rest := InsertByName(ps[1..], p);
      NotLessIsAtLeast(p.appName, ps[0].appName);
      HeadFirst(ps, p, rest);
      [ps[0]] + rest
  }

  /** The head of a sorted list stays first once p, whose name is not below
      the head's, is inserted into the rest. */
  lemma HeadFirst(ps: seq<Problem>, p: Problem, rest: seq<Problem>)
    requires SortedByName(ps) && |ps| > 0 && LessEq(ps[0].appName, p.appName)
    requires SortedByName(rest) && multiset(rest) == multiset(ps[1..]) + multiset{p}
    ensures SortedByName([ps[0]] + rest)
  {
    forall k | 0 <= k < |rest| ensures LessEq(ps[0].appName, rest[k].appName) {
      var y := rest[k];
      assert y in multiset(rest);
      if y != p {
        assert y in multiset(ps[1..]);
        var i :| 0 <= i < |ps[1..]| && ps[1..][i] == y;
        assert ps[i + 1] == y;
      }
    }
  }

  /** sort.Slice(problems, by appName): the problems in ascending order of name. */
  function SortByName(ps: seq<Problem>): (r: seq<Problem>)
    ensures SortedByName(r)
    ensures multiset(r) == multiset(ps)
    decreases |ps|
  {
    if |ps| == 0 then []
    else
      assert ps == ps[..|ps| - 1] + [ps[|ps| - 1]];
      InsertByName(SortByName(ps[..|ps| - 1]), ps[|ps| - 1])
  }

  /*----------------------------- Recording loops ----------------------------*/

  predicate Distinct(order: seq<int>)
  {
    forall i, j :: 0 <= i < j < |order| ==> order[i] != order[j]
  }

  /** The problems of the keys in `order`, in that order. */
  function Collect(order: seq<int>, f: int -> Option<Problem>): seq<Problem>
  {
    if |order| == 0 then []
    else
      var rest := Collect(order[..|order| - 1], f);
      match f(order[|order| - 1])
      case None => rest
      case Some(p) => rest + [p]
  }

  /** What was collected: exactly the problems of the keys, one per key that has one. */
  lemma CollectMeaning(order: seq<int>, f: int -> Option<Problem>)
    requires Distinct(order)
    ensures forall p :: p in Collect(order, f) <==> exists k :: k in order && f(k) == Some(p)
    ensures |Collect(order, f)| == |set k | k in order && f(k).Some?|
  {
    CollectMembers(order, f);
    CollectCount(order, f);
  }

  lemma {:induction false} CollectMembers(order: seq<int>, f: int -> Option<Problem>)
    ensures forall p :: p in Collect(order, f) <==> exists k :: k in order && f(k) == Some(p)
    decreases |order|
  {
    if |order| > 0 {
      var init := order[..|order| - 1];
      var last := order[|order| - 1];
      CollectMembers(init, f);
      assert order == init + [last];
      forall p | p in Collect(order, f)
        ensures exists k :: k in order && f(k) == Some(p)
      {
        if p !in Collect(init, f) {
          assert f(last) == Some(p);
        }
      }
    }
  }

  lemma {:induction false} CollectCount(order: seq<int>, f: int -> Option<Problem>)
    requires Distinct(order)
    ensures |Collect(order, f)| == |set k | k in order && f(k).Some?|
    decreases |order|
  {
    if |order| > 0 {
      var init := order[..|order| - 1];
      var last := order[|order| - 1];
      CollectCount(init, f);
      assert order == init + [last];
      assert last !in init;
      KeysWithProblemsSnoc(init, last, f);
    }
  }

  lemma KeysWithProblemsSnoc(init: seq<int>, last: int, f: int -> Option<Problem>)
    requires last !in init
    ensures |set k | k in init + [last] && f(k).Some?| == |set k | k in init && f(k).Some?| + (if f(last).Some? then 1 else 0)
  {
    var before := set k | k in init && f(k).Some?;
    var after := set k | k in init + [last] && f(k).Some?;
    if f(last).Some? {
      assert after == before + {last};
    } else {
      assert after == before;
    }
  }

  /** Visiting one more key collects its problem, if any, after the others. */
  lemma CollectSnoc(before: seq<Problem>, order: seq<int>, k: int, f: int -> Option<Problem>)
    ensures before + Collect(order, f) + (if f(k).Some? then [f(k).value] else [])
         == before + Collect(order + [k], f)
  {
    assert (order + [k])[..|order|] == order;
  }

  /** Visiting a key still to do moves it from the keys to do to the keys
      visited, which stay free of repeats. */
  lemma VisitKey<V>(m: map<int, V>, todo: map<int, V>, order: seq<int>, k: int)
    requires k in todo
    requires forall j :: j in m <==> j in todo || j in order
    requires forall j :: j in order ==> j !in todo
    requires Distinct(order)
    ensures forall j :: j in m <==> j in todo - {k} || j in order + [k]
    ensures forall j :: j in order + [k] ==> j !in todo - {k}
    ensures Distinct(order + [k])
    ensures |todo - {k}| < |todo|
  {
  }

  /** The next key a `range` loop over a map visits: Go leaves the order
      unspecified, so the model may take any key not yet visited. */
  method NextKey<V(==)>(todo: map<int, V>) returns (k: int)
    requires todo != map[]
    ensures k in todo
  {
    var item :| item in todo.Items;
    k := item.0;
  }

  /*------------------------------- Reporting --------------------------------*/

  /** What reportProblems prints: nothing, "No problems found" (when verbose),
      or the count followed by one line per problem in the order given. */
  datatype ProblemReport = Silent | NoProblems | Listed(count: nat, lines: seq<Problem>)

  /** The global `problems` list. */
  class ProblemLog {
    var problems: seq<Problem>

    constructor()
      ensures problems == []
    {
      problems := [];
    }

    /** recordProblem(kind, appName, appNumber) */
    method RecordProblem(kind: ProblemKind, appName: string, appNumber: int)
      modifies this
      ensures problems == old(problems) + [Problem(kind, appName, appNumber)]
    {
      problems := problems + [Problem(kind, appName, appNumber)];
    }

    /** The first loop of `check`: every installed app, in any order. */
    method RecordManifestProblems(installed: map<int, Installed>, saved: map<int, Saved>, newer: NewerOracle)
      modifies this
      ensures |old(problems)| <= |problems| && problems[..|old(problems)|] == old(problems)
      ensures forall p :: p in problems[|old(problems)|..] <==>
        exists k :: k in installed && ManifestProblem(k, installed[k], saved, newer) == Some(p)
      ensures |problems| == |old(problems)| + |ManifestProblemKeys(installed.Keys, installed, saved, newer)|
    {
      var f := (k: int) => if k in installed then ManifestProblem(k, installed[k], saved, newer) else None;
      ghost var order := RecordEach(installed, f);
      CollectMeaning(order, f);
      forall k | k in order
        ensures f(k).Some? <==> k in ManifestProblemKeys(installed.Keys, installed, saved, newer)
      {
      }
      forall k | k in ManifestProblemKeys(installed.Keys, installed, saved, newer)
        ensures k in order
      {
        assert k in installed.Keys;
      }
      assert ManifestProblemKeys(installed.Keys, installed, saved, newer) == set k | k in order && f(k).Some?;
    }

    /** The second loop of `check` (with -r): every backup, in any order. */
    method RecordBackupProblems(saved: map<int, Saved>, installed: map<int, Installed>)
      modifies this
      ensures |old(problems)| <= |problems| && problems[..|old(problems)|] == old(problems)
      ensures forall p :: p in problems[|old(problems)|..] <==>
        exists k :: k in saved && BackupProblem(k, saved[k], installed) == Some(p)
      ensures |problems| == |old(problems)| + |BackupProblemKeys(saved.Keys, saved, installed)|
    {
      var f := (k: int) => if k in saved then BackupProblem(k, saved[k], installed) else None;
      ghost var order := RecordEach(saved, f);
      CollectMeaning(order, f);
      forall k | k in order
        ensures f(k).Some? <==> k in BackupProblemKeys(saved.Keys, saved, installed)
      {
      }
      forall k | k in BackupProblemKeys(saved.Keys, saved, installed)
        ensures k in order
      {
        assert k in saved.Keys;
      }
      assert BackupProblemKeys(saved.Keys, saved, installed) == set k | k in order && f(k).Some?;
    }

    /** The body of a `for key := range m` loop: records the key's problem, if it has one. */
    method RecordIfAny(problem: Option<Problem>)
      modifies this
      ensures problems == old(problems) + (if problem.Some? then [problem.value] else [])
    {
      if problem.Some? {
        RecordProblem(problem.value.kind, problem.value.appName, problem.value.appNumber);
      }
    }

    /** A `for key := range m` loop recording the problem, if any, of each key:
        the keys are visited once each in some order, and the problems are
        recorded in that order. */
    method RecordEach<V(==)>(m: map<int, V>, f: int -> Option<Problem>) returns (ghost order: seq<int>)
      modifies this
      ensures (forall k :: k in order <==> k in m) && Distinct(order)
      ensures problems == old(problems) + Collect(order, f)
    {
      var todo := m;
      order := [];
      while todo != map[]
        invariant forall k :: k in m <==> k in todo || k in order
        invariant forall k :: k in order ==> k !in todo
        invariant Distinct(order)
        invariant problems == old(problems) + Collect(order, f)
        decreases |todo|
      {
        var k := NextKey(todo);
        RecordIfAny(f(k));
        CollectSnoc(old(problems), order, k, f);
        VisitKey(m, todo, order, k);
        order := order + [k];
        todo := todo - {k};
      }
    }

    /** reportProblems(verbose): sorts the list by name in place and reports it. */
    method ReportProblems(verbose: bool) returns (report: ProblemReport)
      modifies this
      ensures |old(problems)| == 0 ==> problems == old(problems) && report == (if verbose then NoProblems else Silent)
      ensures |old(problems)| > 0 ==> problems == SortByName(old(problems)) && report == Listed(|problems|, problems)
    {
      if |problems| == 0 {
        if verbose {
          return NoProblems;
        }
        return Silent;
      }
      problems := SortByName(problems);
      return Listed(|problems|, problems);
    }
  }

  /** The end of `check` in both checkers: record the problems of the
      installed apps and, with -r, of the backups, then report them. */
  method RecordAndReport(log: ProblemLog, installed: map<int, Installed>, saved: map<int, Saved>,
                         reportUninstalled: bool, verbose: bool, newer: NewerOracle)
    returns (report: ProblemReport)
    requires log.problems == []
    modifies log
    ensures var expected := ExpectedProblems(installed, saved, reportUninstalled, newer);
      && (forall p :: p in log.problems <==> p in expected)
      && |log.problems| == |ManifestProblemKeys(installed.Keys, installed, saved, newer)|
           + (if reportUninstalled then |BackupProblemKeys(saved.Keys, saved, installed)| else 0)
      && SortedByName(log.problems)
      && report == (if |log.problems| == 0 then (if verbose then NoProblems else Silent)
                    else Listed(|log.problems|, log.problems))
  {
    log.RecordManifestProblems(installed, saved, newer);
    ghost var first := log.problems;
    if reportUninstalled {
      log.RecordBackupProblems(saved, installed);
    }
    RecordedAreExpected(first, log.problems, installed, saved, reportUninstalled, newer);
    ghost var recorded := log.problems;
    SortKeeps(recorded);
    report := log.ReportProblems(verbose);
  }

  /** Sorting keeps the problems and their number. */
  lemma SortKeeps(ps: seq<Problem>)
    ensures |SortByName(ps)| == |ps|
    ensures forall p :: p in SortByName(ps) <==> p in ps
  {
    var r := SortByName(ps);
    assert |multiset(r)| == |multiset(ps)|;
    assert forall p :: p in r <==> p in multiset(r);
    assert forall p :: p in ps <==> p in multiset(ps);
  }
}

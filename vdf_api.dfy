/** The public side of sVDF (sVDF/api.go): a parsed File, the sorted names
    of a name/value list, path lookups through nested lists, and the check
    of the top name made when a file is read.

    The walk along a path is specified once, by WalkTo (the state of the
    loop after its first n rounds), and once more independently, by At (the
    value a path leads to, read from the front). The methods Lookup,
    HaveString, LookupNvl and HaveNvl carry the loops of (*File).Lookup,
    HaveString, LookupNVL and HaveNVL in sVDF/api.go and are
    proved to compute the functions LookupOf and LookupNvlOf; the lemmas
    relate these to At. */
module VdfApi {
  import opened Wrappers
  import opened GoText
  import opened VdfParser

  type Nvl = map<string, Value>

  /** A VDF file that parsed; the modification time is a number here. */
  datatype File = File(path: string, modTime: int, size: int, topName: string, topValue: Value)

  /** The errors of the lookups. `namePath` is the part of the path the
      error is about. */
  datatype LookupError =
    | IsStringError(namePath: seq<string>, str: string)
    | NotStringError(namePath: seq<string>, nvl: Nvl)
    | UnknownNameError(namePath: seq<string>)

  /*============================== Names and Get ==============================*/

  predicate Distinct(s: seq<string>)
  {
    forall i, j :: 0 <= i < j < |s| ==> s[i] != s[j]
  }

  /** sort.Strings on a list without repeats: the same strings in Go's order. */
  function SortStrings(s: seq<string>): (r: seq<string>)
    requires Distinct(s)
    ensures StrictlySorted(r) && multiset(r) == multiset(s)
    decreases |s|
  {
    if |s| == 0 then []
    else
      var init := s[..|s| - 1];
      var sorted := SortStrings(init);
      var last := s[|s| - 1];
      assert s == init + [last];
      assert last !in init by {
        forall k | 0 <= k < |init| ensures init[k] != last { assert s[k] != s[|s| - 1]; }
      }
      assert last !in multiset(sorted);
      InsertSorted(sorted, last)
  }

  /** nvl.Names(): the keys are appended in the map's own (unspecified)
      order, then sorted. */
  method Names(nvl: Nvl) returns (ret: seq<string>)
    ensures StrictlySorted(ret)
    ensures forall n :: n in ret <==> n in nvl
  {
    ret := [];
    var rest := nvl.Keys;
    while rest != {}
      invariant Distinct(ret)
      invariant rest <= nvl.Keys
      invariant forall n :: n in ret ==> n in nvl
      invariant forall n :: n in nvl ==> (n in ret <==> n !in rest)
      decreases rest
    {
      var n :| n in rest;
      ret := ret + [n];
      rest := rest - {n};
    }
    var unsorted := ret;
    ret := SortStrings(unsorted);
    forall n ensures n in ret <==> n in unsorted {
      assert n in ret <==> n in multiset(ret);
      assert n in unsorted <==> n in multiset(unsorted);
    }
  }

  /** Whatever order the map hands out its keys in, Names gives one and the
      same list: the only strictly sorted list of those keys. */
  lemma NamesUnique(nvl: Nvl, a: seq<string>, b: seq<string>)
    requires StrictlySorted(a) && forall n :: n in a <==> n in nvl
    requires StrictlySorted(b) && forall n :: n in b <==> n in nvl
    ensures a == b
  {
    SortedUnique(a, b);
  }

  /** nvl.Get(n): the value and true when n is a name of the list. */
  function Get(nvl: Nvl, n: string): (r: Option<Value>)
    ensures r.Some? <==> n in nvl
    ensures r.Some? ==> r.value == nvl[n]
  {
    if n in nvl then Some(nvl[n]) else None
  }

  /*================================= Paths =================================*/

  /** Where the walk along `names` stands: still on a value, stopped on a
      string at step i, or stopped at step i on a list without names[i]. */
  datatype Walk = Reached(v: Value) | StringAt(i: nat, s: string) | MissingAt(i: nat)

  /** The walk of the lookup loop after its first n rounds. */
  function WalkTo(top: Value, names: seq<string>, n: nat): (w: Walk)
    requires n <= |names|
    ensures w.StringAt? ==> w.i < n
    ensures w.MissingAt? ==> w.i < n
  {
    if n == 0 then Reached(top)
    else match WalkTo(top, names, n - 1)
      case Reached(v) =>
        (match v
         case Leaf(s) => StringAt(n - 1, s)
         case Node(m) => if names[n - 1] in m then Reached(m[names[n - 1]]) else MissingAt(n - 1))
      case w => w
  }

  /** The value at the end of a path, read from the front; None when the path
      runs into a string or a missing name. */
  function At(v: Value, names: seq<string>): (r: Option<Value>)
    decreases |names|
  {
    if |names| == 0 then Some(v)
    else match v
      case Leaf(_) => None
      case Node(m) => if names[0] in m then At(m[names[0]], names[1..]) else None
  }

  /** Extending a path by one name takes one more step from where it led. */
  lemma {:induction false} AtSnoc(v: Value, p: seq<string>, x: string)
    ensures At(v, p + [x]) ==
      match At(v, p)
      case None => None
      case Some(u) => (match u case Leaf(_) => None case Node(m) => if x in m then Some(m[x]) else None)
    decreases |p|
  {
    if |p| > 0 {
      assert (p + [x])[1..] == p[1..] + [x];
      match v
      case Leaf(_) =>
      case Node(m) =>
        if p[0] in m {
          AtSnoc(m[p[0]], p[1..], x);
        }
    } else {
      assert [x][1..] == [];
    }
  }

  /** The walk and At agree: the walk is still on a value exactly when the
      prefix leads to it, and it stops at the first step that cannot go on. */
  lemma {:induction false} WalkAt(top: Value, names: seq<string>, n: nat)
    requires n <= |names|
    ensures var w := WalkTo(top, names, n);
      && (w.Reached? <==> At(top, names[..n]).Some?)
      && (w.Reached? ==> At(top, names[..n]) == Some(w.v))
      && (w.StringAt? ==> At(top, names[..w.i]) == Some(Leaf(w.s)))
      && (w.MissingAt? ==> exists m :: At(top, names[..w.i]) == Some(Node(m)) && names[w.i] !in m)
    decreases n
  {
    if n == 0 {
      assert names[..0] == [];
    } else {
      WalkAt(top, names, n - 1);
      assert names[..n] == names[..n - 1] + [names[n - 1]];
      AtSnoc(top, names[..n - 1], names[n - 1]);
      var w := WalkTo(top, names, n - 1);
      if w.MissingAt? {
        var m :| At(top, names[..w.i]) == Some(Node(m)) && names[w.i] !in m;
      } else if w.StringAt? {
      } else if w.v.Node? && names[n - 1] !in w.v.nvl {
        assert At(top, names[..n - 1]) == Some(Node(w.v.nvl));
      }
    }
  }

  /** Once the walk stops, going further down the path changes nothing. */
  lemma {:induction false} WalkStops(top: Value, names: seq<string>, n: nat, k: nat)
    requires n <= k <= |names| && !WalkTo(top, names, n).Reached?
    ensures WalkTo(top, names, k) == WalkTo(top, names, n)
    decreases k
  {
    if k > n {
      WalkStops(top, names, n, k - 1);
    }
  }

  /** f.Lookup(names) as sVDF/api.go writes it. */
  function LookupOf(top: Value, names: seq<string>): (r: Result<string, LookupError>)
    requires |names| > 0
    ensures r.Err? ==> |r.error.namePath| <= |names| && r.error.namePath == names[..|r.error.namePath|]
    ensures r.Err? && !r.error.NotStringError? ==> |r.error.namePath| < |names|
    ensures r.Err? && r.error.NotStringError? ==> r.error.namePath == names
  {
    match WalkTo(top, names, |names|)
    case Reached(v) => (match v case Leaf(s) => Ok(s) case Node(m) => Err(NotStringError(names, m)))
    case StringAt(i, s) => Err(IsStringError(names[..i], s))
    case MissingAt(i) => Err(UnknownNameError(names[..i]))
  }

  /** f.LookupNVL(names) as sVDF/api.go writes it. */
  function LookupNvlOf(top: Value, names: seq<string>): (r: Result<Nvl, LookupError>)
    requires |names| > 0
    ensures r.Err? ==> !r.error.NotStringError? && |r.error.namePath| <= |names| && r.error.namePath == names[..|r.error.namePath|]
    ensures r.Err? && r.error.UnknownNameError? ==> |r.error.namePath| < |names|
  {
    match WalkTo(top, names, |names|)
    case Reached(v) => (match v case Leaf(s) => Err(IsStringError(names, s)) case Node(m) => Ok(m))
    case StringAt(i, s) => Err(IsStringError(names[..i], s))
    case MissingAt(i) => Err(UnknownNameError(names[..i]))
  }

  /** Lookup succeeds exactly when the path leads to a string, and gives that string. */
  lemma LookupFindsString(top: Value, names: seq<string>)
    requires |names| > 0
    ensures LookupOf(top, names).Ok? <==> At(top, names).Some? && At(top, names).value.Leaf?
    ensures LookupOf(top, names).Ok? ==> At(top, names) == Some(Leaf(LookupOf(top, names).value))
  {
    WalkAt(top, names, |names|);
    assert names[..|names|] == names;
  }

  /** LookupNVL succeeds exactly when the path leads to a list, and gives that list. */
  lemma LookupNvlFindsList(top: Value, names: seq<string>)
    requires |names| > 0
    ensures LookupNvlOf(top, names).Ok? <==> At(top, names).Some? && At(top, names).value.Node?
    ensures LookupNvlOf(top, names).Ok? ==> At(top, names) == Some(Node(LookupNvlOf(top, names).value))
  {
    WalkAt(top, names, |names|);
    assert names[..|names|] == names;
  }

  /** The errors of Lookup and LookupNVL: a string met before the path ends is
      reported with the names that led to it; a missing name with the names
      before it (the missing one left out); a list where Lookup wanted a
      string, and a string where LookupNVL wanted a list, with the whole path. */
  lemma LookupErrors(top: Value, names: seq<string>)
    requires |names| > 0
    ensures var r := LookupOf(top, names);
      && (r.Err? && r.error.IsStringError? ==>
            var p := r.error.namePath;
            |p| < |names| && p == names[..|p|] && At(top, p) == Some(Leaf(r.error.str)))
      && (r.Err? && r.error.UnknownNameError? ==>
            var p := r.error.namePath;
            |p| < |names| && p == names[..|p|] && exists m :: At(top, p) == Some(Node(m)) && names[|p|] !in m)
      && (r.Err? && r.error.NotStringError? ==> r.error.namePath == names && At(top, names) == Some(Node(r.error.nvl)))
    ensures var r := LookupNvlOf(top, names);
      && (r.Err? && r.error.IsStringError? ==>
            var p := r.error.namePath;
            |p| <= |names| && p == names[..|p|] && At(top, p) == Some(Leaf(r.error.str)))
      && (r.Err? && r.error.UnknownNameError? ==>
            var p := r.error.namePath;
            |p| < |names| && p == names[..|p|] && exists m :: At(top, p) == Some(Node(m)) && names[|p|] !in m)
      && !(r.Err? && r.error.NotStringError?)
  {
    WalkAt(top, names, |names|);
    assert names[..|names|] == names;
  }

  /** f.Lookup(names): the loop of (*File).Lookup. */
  method Lookup(f: File, names: seq<string>) returns (r: Result<string, LookupError>)
    requires |names| > 0
    ensures r == LookupOf(f.topValue, names)
  {
    var v := f.topValue;
    for i := 0 to |names|
      invariant WalkTo(f.topValue, names, i) == Reached(v)
    {
      match v {
        case Leaf(s) =>
          WalkStops(f.topValue, names, i + 1, |names|);
          return Err(IsStringError(names[..i], s));
        case Node(m) =>
          if names[i] !in m {
            WalkStops(f.topValue, names, i + 1, |names|);
            return Err(UnknownNameError(names[..i]));
          }
          v := m[names[i]];
      }
    }
    match v {
      case Leaf(s) => return Ok(s);
      case Node(m) => return Err(NotStringError(names, m));
    }
  }

  /** f.HaveString(names): whether Lookup would succeed. */
  method HaveString(f: File, names: seq<string>) returns (b: bool)
    requires |names| > 0
    ensures b <==> LookupOf(f.topValue, names).Ok?
  {
    var v := f.topValue;
    for i := 0 to |names|
      invariant WalkTo(f.topValue, names, i) == Reached(v)
    {
      match v {
        case Leaf(_) =>
          WalkStops(f.topValue, names, i + 1, |names|);
          return false;
        case Node(m) =>
          if names[i] !in m {
            WalkStops(f.topValue, names, i + 1, |names|);
            return false;
          }
          v := m[names[i]];
      }
    }
    return v.Leaf?;
  }

  /** f.LookupNVL(names): the loop of (*File).LookupNVL. */
  method LookupNvl(f: File, names: seq<string>) returns (r: Result<Nvl, LookupError>)
    requires |names| > 0
    ensures r == LookupNvlOf(f.topValue, names)
  {
    var v := f.topValue;
    for i := 0 to |names|
      invariant WalkTo(f.topValue, names, i) == Reached(v)
    {
      match v {
        case Leaf(s) =>
          WalkStops(f.topValue, names, i + 1, |names|);
          return Err(IsStringError(names[..i], s));
        case Node(m) =>
          if names[i] !in m {
            WalkStops(f.topValue, names, i + 1, |names|);
            return Err(UnknownNameError(names[..i]));
          }
          v := m[names[i]];
      }
    }
    match v {
      case Leaf(s) => return Err(IsStringError(names, s));
      case Node(m) => return Ok(m);
    }
  }

  /** f.HaveNVL(names): whether LookupNVL would succeed. */
  method HaveNvl(f: File, names: seq<string>) returns (b: bool)
    requires |names| > 0
    ensures b <==> LookupNvlOf(f.topValue, names).Ok?
  {
    var v := f.topValue;
    for i := 0 to |names|
      invariant WalkTo(f.topValue, names, i) == Reached(v)
    {
      match v {
        case Leaf(_) =>
          WalkStops(f.topValue, names, i + 1, |names|);
          return false;
        case Node(m) =>
          if names[i] !in m {
            WalkStops(f.topValue, names, i + 1, |names|);
            return false;
          }
          v := m[names[i]];
      }
    }
    return v.Node?;
  }

  /*========================= What UnknownNameError says =========================*/

  /** The `→"a"→"b"` text namesPath builds before it drops the first arrow.
      The arrow is one character here, not its three UTF-8 bytes; dropping
      the one character removes exactly what dropping len("→") bytes does. */
  function Arrowed(names: seq<string>): (r: string)
    ensures |r| == QuotedLengths(names) + |names|
  {
    if |names| == 0 then "" else Arrowed(names[..|names| - 1]) + "→" + Quoted(names[|names| - 1])
  }

  /** namesPath(names) in api.go: the names quoted and joined by arrows; None
      where text[len("→"):] slices past the end of the empty text of an
      empty list, which panics. */
  function NamesPathOf(names: seq<string>): (r: Option<string>)
    ensures r.None? <==> |names| == 0
    ensures r.Some? ==> "→" + r.value == Arrowed(names) && Quoted(names[0]) <= r.value
  {
    if |names| == 0 then None
    else
      var a := Arrowed(names);
      ArrowedStarts(names);
      Some(a[1..])
  }

  /** The arrowed text starts with an arrow and the first name quoted. */
  lemma {:induction false} ArrowedStarts(names: seq<string>)
    requires |names| > 0
    ensures |Arrowed(names)| > 0 && Arrowed(names)[0] == '→'
    ensures Quoted(names[0]) <= Arrowed(names)[1..]
    decreases |names|
  {
    if |names| > 1 {
      var init := names[..|names| - 1];
      ArrowedStarts(init);
      assert init[0] == names[0];
      assert Arrowed(names)[..|Arrowed(init)|] == Arrowed(init);
    }
  }

  /** What UnknownNameError.Error() names: the last name of NamePath as the
      unknown one, found at the namesPath text of the names before it; None
      where Error() panics (an index of -1 when NamePath is empty, and
      namesPath of an empty list when only one name is left for the place). */
  function UnknownReported(namePath: seq<string>): (r: Option<(string, string)>)
    ensures r.Some? <==> |namePath| >= 2
    ensures r.Some? ==> r.value.0 == namePath[|namePath| - 1] && NamesPathOf(namePath[..|namePath| - 1]) == Some(r.value.1)
  {
    if |namePath| == 0 then None
    else match NamesPathOf(namePath[..|namePath| - 1])
      case None => None
      case Some(place) => Some((namePath[|namePath| - 1], place))
  }

  /** As written, the missing name is never the one reported: Error() either
      panics or names the last name that WAS found. */
  lemma UnknownNameMisreported(top: Value, names: seq<string>)
    requires |names| > 0 && LookupOf(top, names).Err? && LookupOf(top, names).error.UnknownNameError?
    ensures var p := LookupOf(top, names).error.namePath;
      UnknownReported(p).None? || (|p| < |names| && UnknownReported(p).value.0 == names[|p| - 1])
  {
    LookupErrors(top, names);
  }

  /** A two-name lookup whose second name is missing: Error() panics. */
  lemma UnknownNamePanics()
    ensures var top := Node(map["a" := Node(map[])]);
      LookupOf(top, ["a", "b"]) == Err(UnknownNameError(["a"]))
      && UnknownReported(["a"]).None?
  {
    var top := Node(map["a" := Node(map[])]);
    assert WalkTo(top, ["a", "b"], 1) == Reached(Node(map[]));
    assert ["a", "b"][..1] == ["a"];
  }

  /** The evidently intended lookup: an unknown name is reported with the path
      up to and including the missing name. */
  function LookupFixedOf(top: Value, names: seq<string>): Result<string, LookupError>
    requires |names| > 0
  {
    match WalkTo(top, names, |names|)
    case Reached(v) => (match v case Leaf(s) => Ok(s) case Node(m) => Err(NotStringError(names, m)))
    case StringAt(i, s) => Err(IsStringError(names[..i], s))
    case MissingAt(i) => Err(UnknownNameError(names[..i + 1]))
  }

  /** The evidently intended namesPath: the empty text (the top level) for an
      empty list, otherwise what namesPath gives. */
  function NamesPathFixed(names: seq<string>): (r: string)
    ensures r == "" <==> |names| == 0
    ensures |names| > 0 ==> NamesPathOf(names) == Some(r)
  {
    match NamesPathOf(names)
    case None => ""
    case Some(text) => text
  }

  /** The evidently intended Error(): the last name as the unknown one, at
      the namesPath text of the names before it (empty at the top level). */
  function UnknownReportedFixed(namePath: seq<string>): (r: (string, string))
    requires |namePath| > 0
    ensures r.0 == namePath[|namePath| - 1]
    ensures r.1 == "" <==> |namePath| == 1
    ensures |namePath| >= 2 ==> UnknownReported(namePath) == Some(r)
  {
    (namePath[|namePath| - 1], NamesPathFixed(namePath[..|namePath| - 1]))
  }

  /** With the correction, Error() names exactly the missing name, at the
      text of a path that leads to a list that lacks it; the place is empty
      exactly when the missing name is at the top level. */
  lemma MissingNameReported(top: Value, names: seq<string>)
    requires |names| > 0 && LookupFixedOf(top, names).Err? && LookupFixedOf(top, names).error.UnknownNameError?
    ensures var p := LookupFixedOf(top, names).error.namePath;
      var (missing, place) := UnknownReportedFixed(p);
      && |p| >= 1 && p == names[..|p|] && missing == names[|p| - 1]
      && place == NamesPathFixed(names[..|p| - 1])
      && (place == "" <==> |p| == 1)
      && exists m :: At(top, names[..|p| - 1]) == Some(Node(m)) && missing !in m
  {
    WalkAt(top, names, |names|);
    var w := WalkTo(top, names, |names|);
    var p := names[..w.i + 1];
    assert p[..|p| - 1] == names[..w.i];
  }

  /** The fix changes nothing but the reported path of a missing name. */
  lemma LookupFixedAgrees(top: Value, names: seq<string>)
    requires |names| > 0
    ensures LookupOf(top, names).Ok? <==> LookupFixedOf(top, names).Ok?
    ensures !(LookupOf(top, names).Err? && LookupOf(top, names).error.UnknownNameError?) ==>
      LookupOf(top, names) == LookupFixedOf(top, names)
  {
  }

  /*=============================== FromFile ===============================*/

  /** The errors of FromFile: the CannotError of a file that could not be
      opened, examined or read, a parse failure, or a top name that is not one
      of the expected ones. */
  datatype FileError =
    | CannotError(verb: FileStep, path: string)
    | ParseFailed(failure: VdfFailure)
    | WrongTopNameError(path: string, actualTopName: string, expected: string)

  /** %q of a name (names with quotes, backslashes or unprintable bytes are
      escaped by Go; see README). */
  function Quoted(s: string): (r: string)
    ensures |r| == |s| + 2 && r[0] == '"' && r[|r| - 1] == '"' && r[1..|r| - 1] == s
  {
    "\"" + s + "\""
  }

  /** The `Expected` text: the names quoted and joined by " or ". */
  function ExpectedText(names: seq<string>): (r: string)
    requires |names| > 0
    ensures Quoted(names[0]) <= r
    ensures |names| > 1 ==> r == ExpectedText(names[..|names| - 1]) + " or " + Quoted(names[|names| - 1])
  {
    if |names| == 1 then Quoted(names[0])
    else
      var init := ExpectedText(names[..|names| - 1]);
      assert names[..|names| - 1][0] == names[0];
      init + " or " + Quoted(names[|names| - 1])
  }

  /** The length of the expected text: every name quoted, " or " between them. */
  lemma {:induction false} ExpectedTextLength(names: seq<string>)
    requires |names| > 0
    ensures |ExpectedText(names)| == QuotedLengths(names) + 4 * (|names| - 1)
    decreases |names|
  {
    if |names| > 1 {
      ExpectedTextLength(names[..|names| - 1]);
    }
  }

  function QuotedLengths(names: seq<string>): nat
  {
    if |names| == 0 then 0 else QuotedLengths(names[..|names| - 1]) + |names[|names| - 1]| + 2
  }

  /** The membership test of FromFile: an empty list accepts any name. */
  predicate TopNameAccepted(topName: string, expected: seq<string>)
  {
    |expected| == 0 || topName in expected
  }

  /** FromFile once the file has been opened, examined, read and parsed:
      `parsed` is the step that failed or what parseSimpleVDF made of its
      `size` bytes. */
  function FromParsed(path: string, modTime: int, size: int, parsed: Result<(string, Value), VdfFailure>, expected: seq<string>)
    : (r: Result<File, FileError>)
    ensures r.Ok? <==> parsed.Ok? && TopNameAccepted(parsed.value.0, expected)
    ensures r.Ok? ==> r.value == File(path, modTime, size, parsed.value.0, parsed.value.1)
    ensures parsed.Err? && parsed.error.Unreadable? ==> r == Err(CannotError(parsed.error.step, path))
    ensures parsed.Err? && !parsed.error.Unreadable? ==> r == Err(ParseFailed(parsed.error))
    ensures parsed.Ok? && !TopNameAccepted(parsed.value.0, expected) ==>
      |expected| > 0 && parsed.value.0 !in expected && r == Err(WrongTopNameError(path, parsed.value.0, ExpectedText(expected)))
  {
    match parsed
    case Err(Unreadable(step)) => Err(CannotError(step, path))
    case Err(e) => Err(ParseFailed(e))
    case Ok((topName, topValue)) =>
      if !TopNameAccepted(topName, expected) then
        Err(WrongTopNameError(path, topName, ExpectedText(expected)))
      else Ok(File(path, modTime, size, topName, topValue))
  }

  /** FromFile on the bytes of the file `path`, modified at `modTime`. */
  function FromFile(path: string, modTime: int, data: seq<byte>, expected: seq<string>): (r: Result<File, FileError>)
    ensures r.Ok? ==> r.value.path == path && r.value.size == |data|
  {
    FromParsed(path, modTime, |data|, ParseSimpleVdfF(path, data).0, expected)
  }

}

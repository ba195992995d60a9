/** App numbers (steamfiles/types.go): Steam names an app by a positive
    integer that fits in an int32, and parseAppNum reads one from text. */
module SteamTypes {
  import opened Wrappers
  import opened GoText

  /** The failures of parseAppNum: two file errors, and the panic for a
      number too big for int32. */
  datatype AppNumError =
    | NotAnInteger(path: string, text: string)   // `has app ID %q, need integer`
    | NotPositive(path: string, appNum: int)     // `has app ID %d!?`
    | TooBigPanic(path: string, appNum: int)     // panic: `app ID %d ... too big for int32!`

  predicate IsAppNum(n: int) { 1 <= n <= MaxInt32 }

  /** parseAppNum(text, path) */
  function ParseAppNum(text: string, path: string): (r: Result<int, AppNumError>)
    ensures r.Ok? <==> Atoi(text).Some? && IsAppNum(Atoi(text).value)
    ensures r.Ok? ==> Atoi(text) == Some(r.value)
    ensures r == Err(NotAnInteger(path, text)) <==> Atoi(text).None?
    ensures r.Err? && r.error.TooBigPanic? ==> Atoi(text) == Some(r.error.appNum) && r.error.appNum > MaxInt32
    ensures r.Err? && r.error.NotPositive? ==> Atoi(text) == Some(r.error.appNum) && r.error.appNum <= 0
  {
    match Atoi(text)
    case None => Err(NotAnInteger(path, text))
    case Some(n) =>
      if n > MaxInt32 then Err(TooBigPanic(path, n))
      else if n <= 0 then Err(NotPositive(path, n))
      else Ok(n)
  }

  /** Every app number reads back from its decimal text. */
  lemma ParseAppNumItoa(n: int, path: string)
    requires IsAppNum(n)
    ensures ParseAppNum(Itoa(n), path) == Ok(n)
  {
    AtoiItoa(n);
  }
}

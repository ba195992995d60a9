/** Go strings as byte strings: the conversions from `strconv` the core relies on
    (Itoa, Atoi), Go's byte-wise string order `<`, and sorted string lists. */
module GoText {
  import opened Wrappers

  newtype byte = x: int | 0 <= x < 256

  const MaxInt32: int := 0x7fff_ffff
  const MinInt32: int := -0x8000_0000
  const MinInt64: int := -0x8000_0000_0000_0000
  const MaxInt64: int := 0x7fff_ffff_ffff_ffff

  /** A Go string holds bytes; the model keeps one char per byte. */
  function ByteChar(b: byte): (c: char)
    ensures c as int == b as int
  {
    (b as int) as char
  }

  /** filepath.Join(dir, name) for a clean directory path and a name without
      separators: the two joined by one slash. */
  function PathJoin(dir: string, name: string): string
  {
    dir + "/" + name
  }

  /** string(bs) */
  function BytesToString(bs: seq<byte>): (s: string)
    ensures |s| == |bs|
  {
    if |bs| == 0 then [] else BytesToString(bs[..|bs| - 1]) + [ByteChar(bs[|bs| - 1])]
  }

  /** string(bs) holds the bytes of bs, one char each, in order. */
  lemma {:induction false} BytesToStringChars(bs: seq<byte>)
    ensures forall k :: 0 <= k < |bs| ==> BytesToString(bs)[k] == ByteChar(bs[k])
    decreases |bs|
  {
    if |bs| > 0 {
      BytesToStringChars(bs[..|bs| - 1]);
    }
  }

  /** Converting a byte in front of a slice puts its char in front of the string. */
  lemma BytesToStringCons(b: byte, bs: seq<byte>)
    ensures BytesToString([b] + bs) == [ByteChar(b)] + BytesToString(bs)
  {
    BytesToStringChars([b] + bs);
    BytesToStringChars(bs);
  }

  /*------------------------------ Decimal text ------------------------------*/

  predicate IsDigit(c: char) { '0' <= c <= '9' }

  predicate AllDigits(s: string) { forall i :: 0 <= i < |s| ==> IsDigit(s[i]) }

  function DigitChar(d: nat): (c: char)
    requires d < 10
    ensures IsDigit(c) && c as int - '0' as int == d
  {
    (('0' as int) + d) as char
  }

  /** The decimal digits of `n`, without sign or leading zeros. */
  function Digits(n: nat): (s: string)
    ensures |s| >= 1 && AllDigits(s)
    ensures s[0] == '0' ==> n == 0
    decreases n
  {
    if n < 10 then [DigitChar(n)] else Digits(n / 10) + [DigitChar(n % 10)]
  }

  /** strconv.Itoa */
  function Itoa(n: int): string
  {
    if n < 0 then "-" + Digits(-n) else Digits(n)
  }

  /** The value of a run of decimal digits, most significant first. */
  function DigitsValue(s: string): nat
    requires AllDigits(s)
  {
    if |s| == 0 then 0
    else
      assert IsDigit(s[|s| - 1]);
      DigitsValue(s[..|s| - 1]) * 10 + (s[|s| - 1] as int - '0' as int)
  }

  /** strconv.Atoi in base 10: an optional sign, then at least one digit
      (no underscores), and the value must fit a 64-bit int. */
  function Atoi(s: string): (r: Option<int>)
    ensures r.Some? ==> MinInt64 <= r.value <= MaxInt64
  {
    if |s| == 0 then None
    else
      var negative := s[0] == '-';
      var body := if s[0] == '-' || s[0] == '+' then s[1..] else s;
      if |body| == 0 || !AllDigits(body) then None
      else
        var v: int := DigitsValue(body);
        var n: int := if negative then -v else v;
        if MinInt64 <= n <= MaxInt64 then Some(n) else None
  }

  lemma {:induction false} DigitsRoundTrip(n: nat)
    ensures DigitsValue(Digits(n)) == n
    decreases n
  {
    if n >= 10 {
      DigitsRoundTrip(n / 10);
      var s := Digits(n);
      assert s[..|s| - 1] == Digits(n / 10);
    }
  }

  /** Atoi reads back whatever Itoa writes, for every 64-bit value. */
  lemma AtoiItoa(n: int)
    requires MinInt64 <= n <= MaxInt64
    ensures Atoi(Itoa(n)) == Some(n)
  {
    var m := if n < 0 then -n else n;
    var d := Digits(m);
    DigitsRoundTrip(m);
    assert IsDigit(d[0]);
    if n < 0 {
      assert Itoa(n) == "-" + d;
      assert ("-" + d)[1..] == d;
    } else {
      assert Itoa(n) == d;
    }
  }

  /** Different numbers never print the same: Itoa is injective. */
  lemma ItoaInjective(a: int, b: int)
    requires Itoa(a) == Itoa(b)
    ensures a == b
  {
    ItoaSign(a);
    ItoaSign(b);
    var ma, mb := if a < 0 then -a else a, if b < 0 then -b else b;
    DigitsRoundTrip(ma);
    DigitsRoundTrip(mb);
  }

  /** Itoa writes a minus sign exactly for a negative number, then its digits. */
  lemma ItoaSign(n: int)
    ensures |Itoa(n)| >= 1 && (Itoa(n)[0] == '-' <==> n < 0)
    ensures Itoa(n)[(if n < 0 then 1 else 0)..] == Digits(if n < 0 then -n else n)
  {
    var d := Digits(if n < 0 then -n else n);
    assert IsDigit(d[0]);
    if n < 0 {
      assert ("-" + d)[1..] == d;
    }
  }

  /*--------------------------- Go's string order ----------------------------*/

  /** Go's `a < b` on strings: byte-wise lexicographic order. */
  predicate Less(a: string, b: string)
    decreases |a|
  {
    |b| > 0 && (|a| == 0 || a[0] < b[0] || (a[0] == b[0] && Less(a[1..], b[1..])))
  }

  lemma {:induction false} LessIrreflexive(a: string)
    ensures !Less(a, a)
    decreases |a|
  {
    if |a| > 0 { LessIrreflexive(a[1..]); }
  }

  lemma {:induction false} LessTransitive(a: string, b: string, c: string)
    requires Less(a, b) && Less(b, c)
    ensures Less(a, c)
    decreases |a|
  {
    if |a| > 0 && a[0] == b[0] && b[0] == c[0] {
      LessTransitive(a[1..], b[1..], c[1..]);
    }
  }

  /** Any two different strings are ordered one way or the other. */
  lemma {:induction false} LessTotal(a: string, b: string)
    requires a != b
    ensures Less(a, b) || Less(b, a)
    decreases |a|
  {
    if |a| > 0 && |b| > 0 && a[0] == b[0] {
      assert a[1..] != b[1..] by {
        assert a == [a[0]] + a[1..] && b == [b[0]] + b[1..];
      }
      LessTotal(a[1..], b[1..]);
    }
  }

  lemma {:induction false} LessAsymmetric(a: string, b: string)
    requires Less(a, b)
    ensures !Less(b, a)
  {
    if Less(b, a) {
      LessTransitive(a, b, a);
      LessIrreflexive(a);
    }
  }

  /** `a <= b` in Go's order. */
  predicate LessEq(a: string, b: string) { a == b || Less(a, b) }

  /*-------------------------- Sorted string lists ---------------------------*/

  predicate StrictlySorted(s: seq<string>)
  {
    forall i, j :: 0 <= i < j < |s| ==> Less(s[i], s[j])
  }

  /** Inserts a new string into a strictly sorted list at its place. */
  function InsertSorted(s: seq<string>, x: string): (r: seq<string>)
    requires StrictlySorted(s) && x !in s
    ensures StrictlySorted(r)
    ensures multiset(r) == multiset(s) + multiset{x}
    decreases |s|
  {
    if |s| == 0 then [x]
    else if Less(x, s[0]) then
      SortedCons(x, s);
      [x] + s
    else
      LessTotal(x, s[0]);
      var rest := InsertSorted(s[1..], x);
      assert s == [s[0]] + s[1..];
      HeadBelowInserted(s, x, rest);
      [s[0]] + rest
  }

  /** A head below the first element of a sorted list keeps it sorted. */
  lemma SortedCons(x: string, s: seq<string>)
    requires StrictlySorted(s) && |s| > 0 && Less(x, s[0])
    ensures StrictlySorted([x] + s)
  {
    forall j | 0 < j < |s| ensures Less(x, s[j]) { LessTransitive(x, s[0], s[j]); }
  }

  /** The head of a sorted list stays below whatever the rest becomes once
      `x`, which is above the head, is inserted into it. */
  lemma HeadBelowInserted(s: seq<string>, x: string, rest: seq<string>)
    requires StrictlySorted(s) && |s| > 0 && Less(s[0], x)
    requires StrictlySorted(rest) && multiset(rest) == multiset(s[1..]) + multiset{x}
    ensures StrictlySorted([s[0]] + rest)
  {
    forall k | 0 <= k < |rest| ensures Less(s[0], rest[k]) {
      var y := rest[k];
      assert y in multiset(rest);
      if y != x {
        assert y in multiset(s[1..]);
        var i :| 0 <= i < |s[1..]| && s[1..][i] == y;
        assert s[i + 1] == y;
      }
    }
  }

  /** Go's `<=` is antisymmetric. */
  lemma LessEqAntisymmetric(a: string, b: string)
    requires LessEq(a, b) && LessEq(b, a)
    ensures a == b
  {
    if Less(a, b) { LessAsymmetric(a, b); }
  }

  lemma HeadIsElement(s: seq<string>)
    ensures |s| > 0 ==> s[0] in s
  {
  }

  /** Sorting is unique: two strictly sorted lists with the same elements are equal. */
  lemma {:induction false} SortedUnique(a: seq<string>, b: seq<string>)
    requires StrictlySorted(a) && StrictlySorted(b)
    requires forall x :: x in a <==> x in b
    ensures a == b
    decreases |a|
  {
    if |a| > 0 {
      assert a[0] in b;
      var k :| 0 <= k < |b| && b[k] == a[0];
      assert b[0] in a;
      var m :| 0 <= m < |a| && a[m] == b[0];
      assert LessEq(b[0], b[k]) && LessEq(a[0], a[m]);
      LessEqAntisymmetric(a[0], b[0]);
      forall x | x in a[1..]
        ensures x in b[1..]
      {
        var i :| 1 <= i < |a| && a[i] == x;
        assert Less(a[0], x);
        LessIrreflexive(x);
        assert x in b;
      }
      forall x | x in b[1..]
        ensures x in a[1..]
      {
        var i :| 1 <= i < |b| && b[i] == x;
        assert Less(b[0], x);
        LessIrreflexive(x);
        assert x in a;
      }
      SortedUnique(a[1..], b[1..]);
      assert a == [a[0]] + a[1..] && b == [b[0]] + b[1..];
    } else {
      HeadIsElement(b);
    }
  }
}

/**
 The string operations the plugin takes from Go's standard library: splitting and joining on one
 character, substring search, and base-10 integers of 64-bit width.
 */
module Text {
  import opened Outcomes

  const MIN_INT64: int := -0x8000_0000_0000_0000
  const MAX_INT64: int := 0x7fff_ffff_ffff_ffff

  /** strings.Split for a one-character separator; the result is never empty. */
  function Split(s: string, sep: char): (parts: seq<string>)
    ensures |parts| > 0
  {
    if s == [] then [""]
    else
      var rest := Split(s[1..], sep);
      if s[0] == sep then [""] + rest else [[s[0]] + rest[0]] + rest[1..]
  }

  function Join(parts: seq<string>, sep: char): string
    requires |parts| > 0
  {
    if |parts| == 1 then parts[0] else parts[0] + [sep] + Join(parts[1..], sep)
  }

  lemma {:induction false} SplitOfConcat(a: string, b: string, sep: char)
    ensures Split(a + [sep] + b, sep) == Split(a, sep) + Split(b, sep)
  {
    var whole := a + [sep] + b;
    if a == [] {
      assert whole[1..] == b;
    } else {
      assert whole[1..] == a[1..] + [sep] + b;
      SplitOfConcat(a[1..], b, sep);
    }
  }

  /** Text without the separator is its own only part. */
  lemma {:induction false} SplitWhole(s: string, sep: char)
    requires sep !in s
    ensures Split(s, sep) == [s]
  {
    if s != [] {
      SplitWhole(s[1..], sep);
      assert s == [s[0]] + s[1..];
    }
  }

  lemma {:induction false} SplitPartsHaveNoSeparator(s: string, sep: char)
    ensures forall i :: 0 <= i < |Split(s, sep)| ==> sep !in Split(s, sep)[i]
  {
    if s != [] {
      SplitPartsHaveNoSeparator(s[1..], sep);
    }
  }

  /** A character put before the first part is put before the joined text. */
  lemma JoinOfLongerFirst(c: char, parts: seq<string>, sep: char)
    requires |parts| > 0
    ensures Join([[c] + parts[0]] + parts[1..], sep) == [c] + Join(parts, sep)
  {
    var longer := [[c] + parts[0]] + parts[1..];
    assert longer[1..] == parts[1..];
    if |parts| > 1 {
      var tail := [sep] + Join(parts[1..], sep);
      assert longer[0] + tail == [c] + (parts[0] + tail);
      assert longer[0] + [sep] + Join(longer[1..], sep) == longer[0] + tail;
      assert parts[0] + [sep] + Join(parts[1..], sep) == parts[0] + tail;
    }
  }

  lemma {:induction false} JoinOfSplit(s: string, sep: char)
    ensures Join(Split(s, sep), sep) == s
  {
    if s != [] {
      var rest := Split(s[1..], sep);
      JoinOfSplit(s[1..], sep);
      assert s == [s[0]] + s[1..];
      if s[0] == sep {
        assert ([""] + rest)[1..] == rest;
        assert Join([""] + rest, sep) == "" + [sep] + s[1..];
      } else {
        JoinOfLongerFirst(s[0], rest, sep);
      }
    }
  }

  lemma {:induction false} SplitOfJoin(parts: seq<string>, sep: char)
    requires |parts| > 0
    requires forall i :: 0 <= i < |parts| ==> sep !in parts[i]
    ensures Split(Join(parts, sep), sep) == parts
  {
    SplitWhole(parts[0], sep);
    if |parts| > 1 {
      SplitOfJoin(parts[1..], sep);
      SplitOfConcat(parts[0], Join(parts[1..], sep), sep);
    }
  }

  /** strings.TrimLeft with a one-character cutset. */
  function TrimLeft(s: string, c: char): string {
    if s != [] && s[0] == c then TrimLeft(s[1..], c) else s
  }

  lemma {:induction false} TrimLeftMeaning(s: string, c: char)
    ensures |TrimLeft(s, c)| <= |s|
    ensures var cut := |s| - |TrimLeft(s, c)|;
            s[cut..] == TrimLeft(s, c) && forall i :: 0 <= i < cut ==> s[i] == c
    ensures TrimLeft(s, c) == [] || TrimLeft(s, c)[0] != c
  {
    if s != [] && s[0] == c {
      TrimLeftMeaning(s[1..], c);
      var cut := |s| - |TrimLeft(s, c)|;
      assert s[cut..] == s[1..][cut - 1..];
      forall i | 0 <= i < cut ensures s[i] == c {
        if i > 0 { assert s[i] == s[1..][i - 1]; }
      }
    }
  }

  /** strings.Contains. */
  predicate Contains(s: string, sub: string) {
    exists i | 0 <= i <= |s| :: sub <= s[i..]
  }

  lemma ContainsExactly(s: string, sub: string)
    ensures Contains(s, sub) <==> exists a, b :: s == a + sub + b
  {
    if Contains(s, sub) {
      var i :| 0 <= i <= |s| && sub <= s[i..];
      assert s == s[..i] + sub + s[i + |sub|..];
    }
    forall a, b | s == a + sub + b ensures Contains(s, sub) {
      assert sub <= s[|a|..];
    }
  }

  predicate IsDigit(c: char) {
    '0' <= c <= '9'
  }

  predicate IsNumeral(s: string) {
    s != [] && forall i :: 0 <= i < |s| ==> IsDigit(s[i])
  }

  function NumeralValue(s: string): nat
    requires forall i :: 0 <= i < |s| ==> IsDigit(s[i])
  {
    if s == [] then 0
    else 10 * NumeralValue(s[..|s| - 1]) + DigitValue(s[|s| - 1])
  }

  function DigitValue(c: char): nat
    requires IsDigit(c)
  {
    c as int - '0' as int
  }

  /** strconv.Atoi on a 64-bit platform, and strconv.ParseInt(s, 10, 64): the error is None. */
  function ParseInt(s: string): Option<int> {
    var negative := s != [] && s[0] == '-';
    var digits := if s != [] && (s[0] == '-' || s[0] == '+') then s[1..] else s;
    if !IsNumeral(digits) then None
    else
      var magnitude: int := NumeralValue(digits);
      var n := if negative then -magnitude else magnitude;
      if MIN_INT64 <= n <= MAX_INT64 then Some(n) else None
  }

  /** An integer is read from an optional sign and digits whose value is in range, and from nothing else. */
  lemma ParseIntExactly(s: string, n: int)
    ensures ParseInt(s) == Some(n) <==>
            && MIN_INT64 <= n <= MAX_INT64
            && exists digits :: IsNumeral(digits) &&
                 (if s == "-" + digits then n == 0 - NumeralValue(digits)
                  else (s == digits || s == "+" + digits) && n == NumeralValue(digits))
  {
    var signed := s != [] && (s[0] == '-' || s[0] == '+');
    var digits := if signed then s[1..] else s;
    assert signed ==> s == [s[0]] + digits;
    if ParseInt(s) == Some(n) {
      assert IsNumeral(digits);
    }
    forall other | IsNumeral(other) && (s == "-" + other || s == other || s == "+" + other) ensures other == digits {
      assert IsDigit(other[0]);
    }
  }

  function PrintNat(n: nat): string {
    (if n < 10 then [] else PrintNat(n / 10)) + [('0' as int + n % 10) as char]
  }

  function PrintInt(i: int): string {
    if i < 0 then "-" + PrintNat(-i) else PrintNat(i)
  }

  lemma {:induction false} PrintNatIsNumeral(n: nat)
    ensures IsNumeral(PrintNat(n)) && NumeralValue(PrintNat(n)) == n
  {
    var s := PrintNat(n);
    if n >= 10 {
      PrintNatIsNumeral(n / 10);
      assert s[..|s| - 1] == PrintNat(n / 10);
    } else {
      assert s[..|s| - 1] == [];
    }
  }

  /** Unsigned digits read as their value. */
  lemma ParseOfNumeral(s: string)
    requires IsNumeral(s) && NumeralValue(s) <= MAX_INT64
    ensures ParseInt(s) == Some(NumeralValue(s))
  {
    assert IsDigit(s[0]);
  }

  lemma ParseOfNegative(s: string)
    requires IsNumeral(s) && NumeralValue(s) <= -MIN_INT64
    ensures ParseInt("-" + s) == Some(0 - NumeralValue(s))
  {
    assert ("-" + s)[0] == '-' && ("-" + s)[1..] == s;
  }

  lemma ParseOfPrint(i: int)
    requires MIN_INT64 <= i <= MAX_INT64
    ensures ParseInt(PrintInt(i)) == Some(i)
  {
    hide IsNumeral, ParseInt, PrintNat, NumeralValue;
    if i < 0 {
      PrintNatIsNumeral(-i);
      ParseOfNegative(PrintNat(-i));
    } else {
      PrintNatIsNumeral(i);
      ParseOfNumeral(PrintNat(i));
    }
  }

  lemma NumeralHasNoSlash(s: string)
    requires IsNumeral(s)
    ensures '/' !in s && '/' !in "-" + s
  {
    assert !IsDigit('/');
  }

  /** A printed number has no separator in it and is not empty. */
  lemma PrintIntShape(i: int)
    ensures PrintInt(i) != [] && '/' !in PrintInt(i)
  {
    hide PrintNat, NumeralValue;
    var n := if i < 0 then -i else i;
    PrintNatIsNumeral(n);
    NumeralHasNoSlash(PrintNat(n));
  }
}

/**
 * The few .NET string operations the controllers rely on, over `seq<char>`:
 * white space, Trim, IsNullOrWhiteSpace, StartsWith / Contains, char.IsDigit,
 * ToUpperInvariant, ordinal ordering, Int32.ToString and Int32/Int64.TryParse.
 */
module Text {
  import opened Collections

  const Int32Min: int := -0x8000_0000
  const Int32Max: int := 0x7FFF_FFFF
  const Int64Min: int := -0x8000_0000_0000_0000
  const Int64Max: int := 0x7FFF_FFFF_FFFF_FFFF

  /** The white space that NumberStyles.Integer accepts around a number (U+0009..U+000D, U+0020). */
  predicate IsWhiteSpace(c: char)
  {
    c == ' ' || ('\t' <= c <= '\r')
  }

  /** String.IsNullOrWhiteSpace, with null read as "". */
  predicate IsBlank(s: string)
  {
    forall i :: 0 <= i < |s| ==> IsWhiteSpace(s[i])
  }

  function TrimStart(s: string): (r: string)
    ensures |r| <= |s| && r == s[|s| - |r|..]
    ensures |r| > 0 ==> !IsWhiteSpace(r[0])
    ensures IsBlank(s) <==> r == []
  {
    if |s| > 0 && IsWhiteSpace(s[0]) then TrimStart(s[1..]) else s
  }

  function TrimEnd(s: string): (r: string)
    ensures |r| <= |s| && r == s[..|r|]
    ensures |r| > 0 ==> !IsWhiteSpace(r[|r| - 1])
    ensures IsBlank(s) <==> r == []
  {
    if |s| > 0 && IsWhiteSpace(s[|s| - 1]) then TrimEnd(s[..|s| - 1]) else s
  }

  /** String.Trim: the longest infix of `s` that neither starts nor ends with white space. */
  function Trim(s: string): (r: string)
    ensures |r| <= |s|
    ensures |r| > 0 ==> !IsWhiteSpace(r[0]) && !IsWhiteSpace(r[|r| - 1])
    ensures IsBlank(s) <==> r == []
    ensures |s| > 0 && !IsWhiteSpace(s[0]) && !IsWhiteSpace(s[|s| - 1]) ==> r == s
  {
    TrimEnd(TrimStart(s))
  }

  lemma TrimIdempotent(s: string)
    ensures Trim(Trim(s)) == Trim(s)
  {
    var r := Trim(s);
    if |r| > 0 {
      assert TrimStart(r) == r;
      assert TrimEnd(r) == r;
    }
  }

  /** String.StartsWith(prefix). */
  predicate StartsWith(s: string, prefix: string)
  {
    prefix <= s
  }

  /** String.Contains(sub): `sub` occurs at some position of `s`. */
  predicate Contains(s: string, sub: string)
  {
    sub <= s || (|s| > 0 && Contains(s[1..], sub))
  }

  /** A position at which `sub` occurs in `s`. */
  lemma {:induction false} ContainsAt(s: string, sub: string)
    requires Contains(s, sub)
    ensures exists i :: 0 <= i <= |s| - |sub| && s[i..][..|sub|] == sub
  {
    if sub <= s {
      assert s[0..][..|sub|] == sub;
    } else {
      ContainsAt(s[1..], sub);
      var i :| 0 <= i <= |s[1..]| - |sub| && s[1..][i..][..|sub|] == sub;
      assert s[1..][i..] == s[i + 1..];
    }
  }

  /** String.Split(sep) on one character: the pieces between successive separators, left to right. */
  function SplitChar(s: string, sep: char): (r: seq<string>)
    ensures |r| >= 1
    ensures forall i :: 0 <= i < |r| ==> sep !in r[i]
    decreases |s|
  {
    if |s| == 0 then [""]
    else
      var rest := SplitChar(s[1..], sep);
      if s[0] == sep then [""] + rest
      else [[s[0]] + rest[0]] + rest[1..]
  }

  /** String.Join(sep, parts). */
  function JoinChar(parts: seq<string>, sep: char): string
    requires |parts| >= 1
  {
    if |parts| == 1 then parts[0] else parts[0] + [sep] + JoinChar(parts[1..], sep)
  }

  /** Joining the pieces back with the separator gives the original string. */
  lemma {:induction false} SplitJoin(s: string, sep: char)
    ensures JoinChar(SplitChar(s, sep), sep) == s
    decreases |s|
  {
    if |s| > 0 {
      var rest := SplitChar(s[1..], sep);
      SplitJoin(s[1..], sep);
      if s[0] == sep {
        assert SplitChar(s, sep) == [""] + rest;
        assert ([""] + rest)[1..] == rest;
      } else if |rest| == 1 {
        assert SplitChar(s, sep) == [[s[0]] + rest[0]];
      } else {
        assert SplitChar(s, sep) == [[s[0]] + rest[0]] + rest[1..];
        assert ([[s[0]] + rest[0]] + rest[1..])[1..] == rest[1..];
        assert JoinChar(rest, sep) == rest[0] + [sep] + JoinChar(rest[1..], sep);
      }
    }
  }

  /** A string without the separator is a single piece. */
  lemma {:induction false} SplitWithout(a: string, sep: char)
    requires sep !in a
    ensures SplitChar(a, sep) == [a]
    decreases |a|
  {
    if |a| > 0 {
      assert sep !in a[1..] by { assert forall c :: c in a[1..] ==> c in a; }
      SplitWithout(a[1..], sep);
      assert [a[0]] + a[1..] == a;
    }
  }

  /** The first piece ends at the first separator. */
  lemma {:induction false} SplitAfter(a: string, sep: char, t: string)
    requires sep !in a
    ensures SplitChar(a + [sep] + t, sep) == [a] + SplitChar(t, sep)
    decreases |a|
  {
    var s := a + [sep] + t;
    if |a| == 0 {
      assert s[1..] == t;
    } else {
      assert s[1..] == a[1..] + [sep] + t;
      assert sep !in a[1..] by { assert forall c :: c in a[1..] ==> c in a; }
      SplitAfter(a[1..], sep, t);
      assert [a[0]] + a[1..] == a;
    }
  }

  /** Splitting undoes joining pieces that hold no separator. */
  lemma {:induction false} JoinSplit(parts: seq<string>, sep: char)
    requires |parts| >= 1
    requires forall i :: 0 <= i < |parts| ==> sep !in parts[i]
    ensures SplitChar(JoinChar(parts, sep), sep) == parts
    decreases |parts|
  {
    if |parts| == 1 {
      SplitWithout(parts[0], sep);
    } else {
      JoinSplit(parts[1..], sep);
      SplitAfter(parts[0], sep, JoinChar(parts[1..], sep));
      assert [parts[0]] + parts[1..] == parts;
    }
  }

  /** There is a second piece exactly when the separator occurs. */
  lemma {:induction false} SplitHasSecond(s: string, sep: char)
    ensures |SplitChar(s, sep)| >= 2 <==> sep in s
    decreases |s|
  {
    if |s| > 0 {
      SplitHasSecond(s[1..], sep);
      assert forall c :: c in s <==> c == s[0] || c in s[1..];
    }
  }

  /** char.IsDigit, restricted to the ASCII digits. */
  predicate IsDigit(c: char)
  {
    '0' <= c <= '9'
  }

  predicate AllDigits(s: string)
  {
    forall i :: 0 <= i < |s| ==> IsDigit(s[i])
  }

  /** `new string(s.Where(char.IsDigit).ToArray())`. */
  function DigitsOf(s: string): (r: string)
    ensures AllDigits(r)
    ensures |r| <= |s|
    ensures AllDigits(s) ==> r == s
  {
    if |s| == 0 then ""
    else
      var d := DigitsOf(s[..|s| - 1]);
      if IsDigit(s[|s| - 1]) then d + [s[|s| - 1]] else d
  }

  // ---------------------------------------------------------------------
  // Decimal numerals
  // ---------------------------------------------------------------------

  function DigitValue(c: char): (d: nat)
    requires IsDigit(c)
    ensures d < 10
  {
    (c as int) - ('0' as int)
  }

  function DigitChar(d: nat): (c: char)
    requires d < 10
    ensures IsDigit(c) && DigitValue(c) == d
  {
    ('0' as int + d) as char
  }

  /** The value of a string of decimal digits (leading zeros allowed). */
  function DecimalValue(s: string): (n: nat)
    requires AllDigits(s)
  {
    if |s| == 0 then 0 else DecimalValue(s[..|s| - 1]) * 10 + DigitValue(s[|s| - 1])
  }

  /** A leading zero does not change a numeral's value. */
  lemma {:induction false} DecimalValueLeadingZero(s: string)
    requires AllDigits(s)
    ensures AllDigits("0" + s) && DecimalValue("0" + s) == DecimalValue(s)
  {
    var t := "0" + s;
    if |s| > 0 {
      assert t[..|t| - 1] == "0" + s[..|s| - 1];
      DecimalValueLeadingZero(s[..|s| - 1]);
    } else {
      assert t[..0] == [];
    }
  }

  /** Int32.ToString() for a non-negative value: its shortest decimal numeral. */
  function NatToString(n: nat): (s: string)
    ensures |s| > 0 && AllDigits(s)
    ensures |s| > 1 ==> s[0] != '0'
  {
    if n < 10 then [DigitChar(n)]
    else
      var p := NatToString(n / 10);
      p + [DigitChar(n % 10)]
  }

  lemma {:induction false} DecimalOfNatToString(n: nat)
    ensures DecimalValue(NatToString(n)) == n
  {
    if n >= 10 {
      DecimalOfNatToString(n / 10);
      var s := NatToString(n);
      assert s[..|s| - 1] == NatToString(n / 10);
    }
  }

  /**
   * The parts of NumberStyles.Integer: optional leading white space, an
   * optional '+' or '-', one or more digits, optional trailing white space.
   */
  function SplitNumber(s: string): Option<(bool, string)>
  {
    SplitTrimmed(TrimEnd(TrimStart(s)))
  }

  /** The sign and digits of a numeral already stripped of its surrounding white space. */
  function SplitTrimmed(t: string): Option<(bool, string)>
  {
    if |t| == 0 then None
    else
      var neg := t[0] == '-';
      var body := if t[0] == '-' || t[0] == '+' then t[1..] else t;
      if |body| > 0 && AllDigits(body) then Some((neg, body)) else None
  }

  /**
   * Int32.TryParse / Int64.TryParse under NumberStyles.Integer: the value, or
   * None when the text is not a numeral or the value lies outside [lo, hi].
   */
  function ParseInteger(s: string, lo: int, hi: int): (r: Option<int>)
    ensures r.Some? ==> lo <= r.value <= hi
  {
    match SplitNumber(s)
    case None => None
    case Some((neg, body)) =>
      var v: int := if neg then 0 - (DecimalValue(body) as int) else DecimalValue(body);
      if lo <= v <= hi then Some(v) else None
  }

  /** `int.TryParse(s, out var n) ? n : 0`. */
  function ParseInt32OrZero(s: string): (n: int)
    ensures Int32Min <= n <= Int32Max
    ensures ParseInteger(s, Int32Min, Int32Max).None? ==> n == 0
  {
    match ParseInteger(s, Int32Min, Int32Max)
    case Some(v) => v
    case None => 0
  }

  /** A non-empty run of digits parses to its decimal value when that value is in range. */
  lemma ParseDigits(s: string, lo: int, hi: int)
    requires AllDigits(s)
    ensures ParseInteger(s, lo, hi) == if |s| > 0 && lo <= DecimalValue(s) <= hi then Some(DecimalValue(s) as int) else None
  {
    if |s| > 0 {
      assert !IsWhiteSpace(s[0]) && !IsWhiteSpace(s[|s| - 1]);
      assert TrimStart(s) == s;
      assert TrimEnd(s) == s;
    }
  }

  /** Round trip: a non-negative number's own numeral parses back to it. */
  lemma ParseNatToString(n: nat, lo: int, hi: int)
    requires lo <= n <= hi
    ensures ParseInteger(NatToString(n), lo, hi) == Some(n)
  {
    var s := NatToString(n);
    DecimalOfNatToString(n);
    assert !IsWhiteSpace(s[0]) && !IsWhiteSpace(s[|s| - 1]);
    assert TrimStart(s) == s;
    assert TrimEnd(s) == s;
  }

  // ---------------------------------------------------------------------
  // ToUpperInvariant and ordinal comparison
  // ---------------------------------------------------------------------

  predicate IsLowerAscii(c: char) { 'a' <= c <= 'z' }

  function UpperChar(c: char): (u: char)
    ensures !IsLowerAscii(u)
  {
    if IsLowerAscii(c) then (c as int - 32) as char else c
  }

  /** String.ToUpperInvariant on the ASCII letters. */
  function ToUpper(s: string): (r: string)
    ensures |r| == |s|
    ensures forall i :: 0 <= i < |r| ==> !IsLowerAscii(r[i])
    ensures forall i :: 0 <= i < |s| && !IsLowerAscii(s[i]) ==> r[i] == s[i]
  {
    seq(|s|, i requires 0 <= i < |s| => UpperChar(s[i]))
  }

  lemma ToUpperIdempotent(s: string)
    ensures ToUpper(ToUpper(s)) == ToUpper(s)
  {
  }

  /** String.Equals(a, b, StringComparison.OrdinalIgnoreCase) on the ASCII letters. */
  predicate EqualsIgnoreCase(a: string, b: string)
  {
    |a| == |b| && forall i :: 0 <= i < |a| ==> UpperChar(a[i]) == UpperChar(b[i])
  }

  /** Comparing ignoring case is comparing the upper-cased strings. */
  lemma EqualsIgnoreCaseIsToUpper(a: string, b: string)
    ensures EqualsIgnoreCase(a, b) <==> ToUpper(a) == ToUpper(b)
  {
    if ToUpper(a) == ToUpper(b) {
      forall i | 0 <= i < |a| ensures UpperChar(a[i]) == UpperChar(b[i]) {
        assert ToUpper(a)[i] == ToUpper(b)[i];
      }
    }
  }

  /** A trailing space is white space that the integer parse skips: the value is unchanged. */
  lemma ParseEspacioFinal(s: string, lo: int, hi: int)
    ensures ParseInteger(s + " ", lo, hi) == ParseInteger(s, lo, hi)
  {
    TrimEspacioFinal(s);
    SplitDeTrim(s + " ", s);
    ParseDeSplit(s + " ", s, lo, hi);
  }

  /** The sign and digits depend only on the trimmed text. */
  lemma SplitDeTrim(a: string, b: string)
    requires TrimEnd(TrimStart(a)) == TrimEnd(TrimStart(b))
    ensures SplitNumber(a) == SplitNumber(b)
  {
  }

  /** The parsed value depends only on the sign and digits. */
  lemma ParseDeSplit(a: string, b: string, lo: int, hi: int)
    requires SplitNumber(a) == SplitNumber(b)
    ensures ParseInteger(a, lo, hi) == ParseInteger(b, lo, hi)
  {
  }

  /** Trimming both ends ignores an appended space. */
  lemma TrimEspacioFinal(s: string)
    ensures TrimEnd(TrimStart(s + " ")) == TrimEnd(TrimStart(s))
  {
    var t := s + " ";
    if IsBlank(s) {
      assert IsBlank(t) by {
        forall i | 0 <= i < |t| ensures IsWhiteSpace(t[i]) {
          if i < |s| { assert t[i] == s[i]; }
        }
      }
    } else {
      TrimStartSnoc(s, ' ');
      TrimEndSnocSpace(TrimStart(s));
    }
  }

  /** Right trimming removes an appended space. */
  lemma TrimEndSnocSpace(u: string)
    ensures TrimEnd(u + " ") == TrimEnd(u)
  {
    assert (u + " ")[..|u|] == u;
  }

  /** Left trimming a string that is not blank keeps whatever is appended to it. */
  lemma {:induction false} TrimStartSnoc(s: string, c: char)
    requires !IsBlank(s)
    ensures TrimStart(s + [c]) == TrimStart(s) + [c]
  {
    if IsWhiteSpace(s[0]) {
      assert (s + [c])[1..] == s[1..] + [c];
      assert !IsBlank(s[1..]) by {
        var i :| 0 <= i < |s| && !IsWhiteSpace(s[i]);
        assert s[1..][i - 1] == s[i];
      }
      TrimStartSnoc(s[1..], c);
    }
  }

  // ---------------------------------------------------------------------
  // SQL Server's `=` on strings
  // ---------------------------------------------------------------------

  /** `s` without its trailing spaces: SQL Server pads the shorter operand of `=` with spaces. */
  function SinEspaciosFinales(s: string): (r: string)
    ensures |r| <= |s| && r == s[..|r|]
    ensures |r| > 0 ==> r[|r| - 1] != ' '
    ensures forall i :: |r| <= i < |s| ==> s[i] == ' '
  {
    if |s| > 0 && s[|s| - 1] == ' ' then SinEspaciosFinales(s[..|s| - 1]) else s
  }

  /** What `=` compares under the default case-insensitive collation: no trailing spaces, ASCII letters folded. */
  function ClaveSql(s: string): string
  {
    ToUpper(SinEspaciosFinales(s))
  }

  /** `a = b` as SQL Server evaluates it under the default collation. */
  predicate IgualSql(a: string, b: string)
  {
    ClaveSql(a) == ClaveSql(b)
  }

  /** SQL `=` is a case-insensitive comparison of the strings without their trailing spaces. */
  lemma IgualSqlSii(a: string, b: string)
    ensures IgualSql(a, b) <==> EqualsIgnoreCase(SinEspaciosFinales(a), SinEspaciosFinales(b))
  {
    EqualsIgnoreCaseIsToUpper(SinEspaciosFinales(a), SinEspaciosFinales(b));
  }

  /** A trailing space does not change what SQL `=` sees. */
  lemma EspacioFinalIgnorado(s: string)
    ensures SinEspaciosFinales(s + " ") == SinEspaciosFinales(s)
    ensures IgualSql(s + " ", s)
  {
    assert (s + " ")[..|s|] == s;
  }

  /** SQL `x IN (xs)`: `x` equals some element of `xs` under SQL Server's `=`. */
  predicate EnSql(x: string, xs: seq<string>)
  {
    exists y :: y in xs && IgualSql(x, y)
  }

  /** SQL `IN` accepts every exact member, and also its case and trailing-space variants. */
  lemma EnSqlDeMiembro(x: string, xs: seq<string>)
    ensures x in xs ==> EnSql(x, xs)
    ensures EnSql(x, xs) && (forall y :: y in xs && IgualSql(x, y) ==> x == y) ==> x in xs
  {
  }

  /** Ordinal (code-unit) lexicographic order, used for LINQ OrderBy on strings. */
  predicate StrLess(a: string, b: string)
  {
    if |a| == 0 then |b| > 0
    else if |b| == 0 then false
    else if a[0] != b[0] then a[0] < b[0]
    else StrLess(a[1..], b[1..])
  }

  lemma {:induction false} StrLessIrreflexive(a: string)
    ensures !StrLess(a, a)
  {
    if |a| > 0 { StrLessIrreflexive(a[1..]); }
  }

  lemma {:induction false} StrLessTransitive(a: string, b: string, c: string)
    requires StrLess(a, b) && StrLess(b, c)
    ensures StrLess(a, c)
  {
    if |a| > 0 && |b| > 0 && |c| > 0 && a[0] == b[0] && b[0] == c[0] {
      StrLessTransitive(a[1..], b[1..], c[1..]);
    }
  }

  lemma {:induction false} StrLessTotal(a: string, b: string)
    requires a != b
    ensures StrLess(a, b) || StrLess(b, a)
  {
    if |a| > 0 && |b| > 0 && a[0] == b[0] {
      assert a == [a[0]] + a[1..] && b == [b[0]] + b[1..];
      StrLessTotal(a[1..], b[1..]);
    }
  }

  /** ThenBy on strings: ordinal order of the first component, then of the second. */
  predicate StrPairLess(a: (string, string), b: (string, string))
  {
    StrLess(a.0, b.0) || (a.0 == b.0 && StrLess(a.1, b.1))
  }

  lemma StrPairLessStrict(a: (string, string), b: (string, string), c: (string, string))
    ensures !StrPairLess(a, a)
    ensures StrPairLess(a, b) && StrPairLess(b, c) ==> StrPairLess(a, c)
  {
    StrLessIrreflexive(a.0);
    StrLessIrreflexive(a.1);
    if StrPairLess(a, b) && StrPairLess(b, c) {
      if StrLess(a.0, b.0) && StrLess(b.0, c.0) { StrLessTransitive(a.0, b.0, c.0); }
      if a.0 == b.0 && b.0 == c.0 && StrLess(a.1, b.1) && StrLess(b.1, c.1) { StrLessTransitive(a.1, b.1, c.1); }
    }
  }
}

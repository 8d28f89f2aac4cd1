/** The JavaScript string operations the program relies on, over `seq<char>`:
    `startsWith`, `includes`, `toLowerCase`, `trim`, `split` on one
    character, `replace` of the first occurrence, `parseInt` and number
    interpolation. Case folding and whitespace are modelled for ASCII plus
    the few non-ASCII spaces listed in `IsSpace`. */
module Strings {

  import opened Common

  // ---------------------------------------------------------------------------
  // Prefixes and substrings

  predicate StartsWith(s: string, prefix: string) {
    |prefix| <= |s| && s[..|prefix|] == prefix
  }

  /** `part` occurs in `s` starting at index `i`. */
  predicate OccursAt(s: string, part: string, i: int) {
    0 <= i && i + |part| <= |s| && s[i..i + |part|] == part
  }

  /** `s.includes(part)`. */
  predicate Contains(s: string, part: string) {
    exists i | 0 <= i <= |s| :: OccursAt(s, part, i)
  }

  lemma ContainsMiddle(a: string, b: string, c: string)
    ensures Contains(a + b + c, b)
  {
    assert (a + b + c)[|a|..|a| + |b|] == b;
    assert OccursAt(a + b + c, b, |a|);
  }

  /** The start of a middle part is found in the whole. */
  /** The second of five pieces occurs in their concatenation. */
  lemma ContainsSecondOfFive(a: string, b: string, c: string, d: string, e: string)
    ensures Contains(a + b + c + d + e, b)
  {
    ContainsMiddle(a, b, c + d + e);
    assert a + b + c + d + e == a + b + (c + d + e);
  }

  lemma ContainsMiddleStart(a: string, b: string, c: string, start: string)
    requires StartsWith(b, start)
    ensures Contains(a + b + c, start)
  {
    assert (a + b + c)[|a|..|a| + |start|] == b[..|start|];
    assert OccursAt(a + b + c, start, |a|);
  }

  /** Text found in `s` is still found after more is appended. */
  lemma ContainsExtend(s: string, part: string, t: string)
    requires Contains(s, part)
    ensures Contains(s + t, part)
  {
    var i :| 0 <= i <= |s| && OccursAt(s, part, i);
    assert (s + t)[i..i + |part|] == s[i..i + |part|];
    assert OccursAt(s + t, part, i);
  }

  /** `a || b` on strings: the empty string is the only falsy one. */
  function OrElse(a: string, b: string): (r: string)
    ensures a != "" ==> r == a
    ensures a == "" ==> r == b
    ensures r != "" <==> a != "" || b != ""
  {
    if a != "" then a else b
  }

  lemma StartsWithAppend(a: string, b: string, prefix: string)
    requires StartsWith(a, prefix)
    ensures StartsWith(a + b, prefix)
  {
    assert (a + b)[..|prefix|] == a[..|prefix|];
  }

  // ---------------------------------------------------------------------------
  // Case folding

  function LowerChar(c: char): char {
    if 'A' <= c <= 'Z' then (c as int + 32) as char else c
  }

  /** `s.toLowerCase()` on ASCII letters. */
  function ToLower(s: string): (r: string)
    ensures |r| == |s|
    ensures forall i | 0 <= i < |s| :: r[i] == LowerChar(s[i])
  {
    seq(|s|, i requires 0 <= i < |s| => LowerChar(s[i]))
  }

  // ---------------------------------------------------------------------------
  // Whitespace trimming

  /** The white-space and line-terminator characters `trim` removes: ASCII
      space, tab, line feed, vertical tab, form feed, carriage return,
      no-break space, the line and paragraph separators and the byte-order
      mark. */
  predicate IsSpace(c: char) {
    c == ' ' || c == '\t' || c == '\n' || c == '\r'
    || c as int == 0x0B || c as int == 0x0C || c as int == 0xA0
    || c as int == 0x2028 || c as int == 0x2029 || c as int == 0xFEFF
  }

  /** Drops leading white space; the result is a suffix of `s`. */
  function TrimStart(s: string): (r: string)
    ensures |r| <= |s| && r == s[|s| - |r|..]
    ensures |r| > 0 ==> !IsSpace(r[0])
    ensures |s| > 0 && !IsSpace(s[0]) ==> r == s
    decreases |s|
  {
    if |s| > 0 && IsSpace(s[0]) then TrimStart(s[1..]) else s
  }

  /** Drops trailing white space; the result is a prefix of `s`. */
  function TrimEnd(s: string): (r: string)
    ensures |r| <= |s| && r == s[..|r|]
    ensures |r| > 0 ==> !IsSpace(r[|r| - 1])
    ensures |s| > 0 && !IsSpace(s[|s| - 1]) ==> r == s
    ensures |s| > 0 && !IsSpace(s[0]) ==> |r| > 0
    decreases |s|
  {
    if |s| > 0 && IsSpace(s[|s| - 1]) then TrimEnd(s[..|s| - 1]) else s
  }

  /** `s.trim()`. */
  function Trim(s: string): string {
    TrimEnd(TrimStart(s))
  }

  /** Neither starts nor ends with white space. */
  predicate Trimmed(s: string) {
    |s| == 0 || (!IsSpace(s[0]) && !IsSpace(s[|s| - 1]))
  }

  /** The trimmed text is trimmed, is made of characters of `s`, and trimming
      changes nothing on text that is already trimmed. */
  lemma TrimFacts(s: string)
    ensures Trimmed(Trim(s))
    ensures forall c | c in Trim(s) :: c in s
    ensures Trimmed(s) ==> Trim(s) == s
  {
    var t := TrimStart(s);
    var r := TrimEnd(t);
    if |r| > 0 {
      assert r[0] == t[0];
    }
    forall c | c in r
      ensures c in s
    {
      var i :| 0 <= i < |r| && r[i] == c;
      assert t[i] == c;
      assert s[|s| - |t| + i] == c;
    }
  }

  // ---------------------------------------------------------------------------
  // Splitting on one character and joining back

  /** `s.split(sep)` for a one-character separator: always at least one piece,
      and `""` splits into `[""]`. */
  function Split(s: string, sep: char): (parts: seq<string>)
    ensures |parts| >= 1
    ensures forall p | p in parts :: sep !in p
    decreases |s|
  {
    if |s| == 0 then [""]
    else
      var rest := Split(s[1..], sep);
      if s[0] == sep then [""] + rest
      else [[s[0]] + rest[0]] + rest[1..]
  }

  /** `parts.join(sep)`. */
  function Join(parts: seq<string>, sep: char): string
  {
    if |parts| == 0 then ""
    else if |parts| == 1 then parts[0]
    else parts[0] + [sep] + Join(parts[1..], sep)
  }

  /** Text without the separator is one piece. */
  lemma {:induction false} SplitWithoutSeparator(p: string, sep: char)
    requires sep !in p
    ensures Split(p, sep) == [p]
    decreases |p|
  {
    if |p| > 0 {
      SplitWithoutSeparator(p[1..], sep);
      assert [p[0]] + p[1..] == p;
    }
  }

  /** Splitting `p + sep + t` yields `p` followed by the pieces of `t`. */
  lemma {:induction false} SplitAtFirstSeparator(p: string, sep: char, t: string)
    requires sep !in p
    ensures Split(p + [sep] + t, sep) == [p] + Split(t, sep)
    decreases |p|
  {
    var s := p + [sep] + t;
    if |p| == 0 {
      assert s[0] == sep;
      assert s[1..] == t;
    } else {
      assert s[0] == p[0];
      assert s[1..] == p[1..] + [sep] + t;
      SplitAtFirstSeparator(p[1..], sep, t);
      assert [p[0]] + p[1..] == p;
    }
  }

  /** Splitting a join of separator-free pieces gives the pieces back. */
  lemma {:induction false} SplitJoin(parts: seq<string>, sep: char)
    requires |parts| >= 1
    requires forall p | p in parts :: sep !in p
    ensures Split(Join(parts, sep), sep) == parts
    decreases |parts|
  {
    if |parts| == 1 {
      SplitWithoutSeparator(parts[0], sep);
    } else {
      SplitJoin(parts[1..], sep);
      SplitAtFirstSeparator(parts[0], sep, Join(parts[1..], sep));
      assert [parts[0]] + parts[1..] == parts;
    }
  }

  /** The text before the first `sep`: `s.split(sep)[0]`. It is a prefix of
      `s` holding no separator. */
  function BeforeFirst(s: string, sep: char): (r: string)
    ensures StartsWith(s, r)
    ensures sep !in r
    ensures sep !in s ==> r == s
    decreases |s|
  {
    if |s| == 0 || s[0] == sep then ""
    else [s[0]] + BeforeFirst(s[1..], sep)
  }

  lemma {:induction false} BeforeFirstIsFirstPiece(s: string, sep: char)
    ensures BeforeFirst(s, sep) == Split(s, sep)[0]
    decreases |s|
  {
    if |s| > 0 && s[0] != sep {
      BeforeFirstIsFirstPiece(s[1..], sep);
    }
  }

  // ---------------------------------------------------------------------------
  // Replacing the first occurrence

  /** Index of the first occurrence of `pat` in `s` at or after `from`. */
  function IndexOfFrom(s: string, pat: string, from: nat): (r: Option<nat>)
    ensures r.Some? ==> from <= r.value && OccursAt(s, pat, r.value)
    ensures r.Some? ==> forall j | from <= j < r.value :: !OccursAt(s, pat, j)
    ensures r.None? ==> forall j | from <= j :: !OccursAt(s, pat, j)
    decreases |s| - from
  {
    if from + |pat| > |s| then None
    else if OccursAt(s, pat, from) then Some(from)
    else IndexOfFrom(s, pat, from + 1)
  }

  /** `s.replace(pat, rep)` with a string pattern: only the first occurrence
      is replaced. */
  function ReplaceFirst(s: string, pat: string, rep: string): string
  {
    match IndexOfFrom(s, pat, 0)
    case None => s
    case Some(i) => s[..i] + rep + s[i + |pat|..]
  }

  /** Replacing a leading occurrence removes exactly that prefix. */
  lemma ReplaceLeading(pat: string, rest: string)
    ensures ReplaceFirst(pat + rest, pat, "") == rest
  {
    var s := pat + rest;
    assert OccursAt(s, pat, 0) by { assert s[0..|pat|] == pat; }
    assert IndexOfFrom(s, pat, 0) == Some(0);
    assert s[|pat|..] == rest;
  }

  // ---------------------------------------------------------------------------
  // parseInt and number interpolation

  /** Whether `parseInt` was given radix 10 or no radix (which also accepts a
      `0x`/`0X` hexadecimal prefix). */
  datatype Radix = Auto | Decimal

  /** Value of a digit in bases up to 36; 36 for anything else. */
  function DigitValue(c: char): nat {
    if '0' <= c <= '9' then c as nat - '0' as nat
    else if 'a' <= c <= 'z' then c as nat - 'a' as nat + 10
    else if 'A' <= c <= 'Z' then c as nat - 'A' as nat + 10
    else 36
  }

  /** The longest prefix of `s` made of digits of `base`. */
  function DigitPrefix(s: string, base: nat): (r: string)
    ensures StartsWith(s, r)
    ensures forall c | c in r :: DigitValue(c) < base
    decreases |s|
  {
    if |s| > 0 && DigitValue(s[0]) < base then [s[0]] + DigitPrefix(s[1..], base) else ""
  }

  function DigitsValue(ds: string, base: nat): nat
  {
    if |ds| == 0 then 0 else DigitsValue(ds[..|ds| - 1], base) * base + DigitValue(ds[|ds| - 1])
  }

  /** `parseInt(s)` / `parseInt(s, 10)`: `None` stands for `NaN`, returned when
      no digit follows the optional white space, sign and hex prefix. */
  function ParseInt(s: string, radix: Radix): Option<int> {
    ParseSigned(TrimStart(s), radix)
  }

  /** The sign, then the magnitude. */
  function ParseSigned(t: string, radix: Radix): Option<int> {
    var negative := |t| > 0 && t[0] == '-';
    var u := if |t| > 0 && (t[0] == '-' || t[0] == '+') then t[1..] else t;
    match ParseUnsigned(u, radix)
    case None => None
    case Some(magnitude) => Some(if negative then -(magnitude as int) else magnitude)
  }

  /** The longest run of digits, after a `0x` prefix when the radix is not
      given. */
  function ParseUnsigned(u: string, radix: Radix): Option<nat> {
    var hex := radix == Auto && |u| >= 2 && u[0] == '0' && (u[1] == 'x' || u[1] == 'X');
    var ds := if hex then DigitPrefix(u[2..], 16) else DigitPrefix(u, 10);
    if |ds| == 0 then None
    else Some(if hex then DigitsValue(ds, 16) else DigitsValue(ds, 10))
  }

  function DigitChar(d: nat): char
    requires d < 10
  {
    ('0' as int + d) as char
  }

  /** Decimal digits of `n`, most significant first, without leading zeros. */
  function NatToString(n: nat): (r: string)
    ensures |r| >= 1
    ensures forall c | c in r :: '0' <= c <= '9'
    ensures n >= 1 ==> r[0] != '0'
  {
    if n < 10 then [DigitChar(n)] else NatToString(n / 10) + [DigitChar(n % 10)]
  }

  /** `${n}` for an integer: a minus sign for a negative value, then the
      decimal digits. */
  function IntToString(n: int): (r: string)
    ensures |r| >= 1
    ensures forall c | c in r :: c == '-' || '0' <= c <= '9'
  {
    if n < 0 then "-" + NatToString(-n) else NatToString(n)
  }

  lemma {:induction false} NatToStringValue(n: nat)
    ensures DigitsValue(NatToString(n), 10) == n
  {
    var r := NatToString(n);
    if n >= 10 {
      NatToStringValue(n / 10);
      assert r[..|r| - 1] == NatToString(n / 10);
    }
  }

  lemma {:induction false} DigitPrefixOfDigits(s: string, base: nat)
    requires forall c | c in s :: DigitValue(c) < base
    ensures DigitPrefix(s, base) == s
    decreases |s|
  {
    if |s| > 0 {
      DigitPrefixOfDigits(s[1..], base);
    }
  }

  /** A run of decimal digits reads as its value, in either radix mode. */
  lemma ParseDecimalDigits(digits: string, radix: Radix)
    requires |digits| >= 1 && forall c | c in digits :: '0' <= c <= '9'
    ensures ParseUnsigned(digits, radix) == Some(DigitsValue(digits, 10))
  {
    var hex := radix == Auto && |digits| >= 2 && digits[0] == '0' && (digits[1] == 'x' || digits[1] == 'X');
    assert !hex by {
      if |digits| >= 2 {
        assert digits[1] in digits;
      }
    }
    forall c | c in digits
      ensures DigitValue(c) < 10
    {
    }
    DigitPrefixOfDigits(digits, 10);
  }

  /** An unsigned run of decimal digits reads as its value. */
  lemma ParsePlainDigits(digits: string, m: nat, radix: Radix)
    requires |digits| >= 1 && forall c | c in digits :: '0' <= c <= '9'
    requires DigitsValue(digits, 10) == m
    ensures ParseSigned(digits, radix) == Some(m)
  {
    assert digits[0] in digits;
    ParseDecimalDigits(digits, radix);
  }

  /** A leading minus sign negates whatever magnitude follows it. */
  lemma ParseSignedMinus(u: string, radix: Radix, magnitude: nat)
    requires ParseUnsigned(u, radix) == Some(magnitude)
    ensures ParseSigned("-" + u, radix) == Some(-(magnitude as int))
  {
    assert ("-" + u)[1..] == u;
  }

  /** A minus sign before a run of decimal digits negates its value. */
  lemma ParseNegatedDigits(digits: string, m: nat, radix: Radix)
    requires |digits| >= 1 && forall c | c in digits :: '0' <= c <= '9'
    requires DigitsValue(digits, 10) == m
    ensures ParseSigned("-" + digits, radix) == Some(-(m as int))
  {
    ParseDecimalDigits(digits, radix);
    ParseSignedMinus(digits, radix, m);
  }

  /** Without leading white space, `parseInt` goes straight to the sign. */
  lemma ParseIntNoSpace(s: string, radix: Radix)
    requires |s| > 0 && !IsSpace(s[0])
    ensures ParseInt(s, radix) == ParseSigned(s, radix)
  {
    assert TrimStart(s) == s;
  }

  /** A minus sign and decimal digits, with no white space before them. */
  lemma ParseIntNegatedDigits(digits: string, m: nat, radix: Radix)
    requires |digits| >= 1 && forall c | c in digits :: '0' <= c <= '9'
    requires DigitsValue(digits, 10) == m
    ensures ParseInt("-" + digits, radix) == Some(-(m as int))
  {
    ParseIntNoSpace("-" + digits, radix);
    ParseNegatedDigits(digits, m, radix);
  }

  /** `${n}` for a negative `n` reads back as `n`. */
  lemma ParseNegativeToString(n: int, radix: Radix)
    requires n < 0
    ensures ParseInt(IntToString(n), radix) == Some(n)
  {
    var m: nat := -n;
    var digits := NatToString(m);
    assert digits == NatToString(-n);
    NatToStringValue(m);
    ParseIntNegatedDigits(digits, m, radix);
    assert IntToString(n) == "-" + digits;
  }

  /** `${n}` for a non-negative `n` reads back as `n`. */
  lemma ParseNatToString(n: nat, radix: Radix)
    ensures ParseInt(NatToString(n), radix) == Some(n)
  {
    var digits := NatToString(n);
    assert digits[0] in digits;
    ParseIntNoSpace(digits, radix);
    NatToStringValue(n);
    ParsePlainDigits(digits, n, radix);
  }

  /** Digits of `base` stop at the first character that is not one. */
  lemma {:induction false} DigitPrefixStops(ds: string, rest: string, base: nat)
    requires forall c | c in ds :: DigitValue(c) < base
    requires |rest| > 0 && DigitValue(rest[0]) >= base
    ensures DigitPrefix(ds + rest, base) == ds
    decreases |ds|
  {
    if |ds| == 0 {
      assert ds + rest == rest;
    } else {
      assert (ds + rest)[0] == ds[0] && ds[0] in ds;
      assert (ds + rest)[1..] == ds[1..] + rest;
      DigitPrefixStops(ds[1..], rest, base);
    }
  }

  /** Decimal digits followed by a non-digit read as the digits' value. */
  lemma ParseDigitsThen(digits: string, m: nat, rest: string)
    requires |digits| >= 1 && forall c | c in digits :: '0' <= c <= '9'
    requires DigitsValue(digits, 10) == m
    requires |rest| > 0 && DigitValue(rest[0]) >= 10
    ensures ParseUnsigned(digits + rest, Decimal) == Some(m)
  {
    forall c | c in digits
      ensures DigitValue(c) < 10
    {
    }
    DigitPrefixStops(digits, rest, 10);
  }

  /** Unsigned decimal digits then a non-digit, with nothing before them. */
  lemma ParseIntDigitsThen(digits: string, m: nat, rest: string)
    requires |digits| >= 1 && forall c | c in digits :: '0' <= c <= '9'
    requires DigitsValue(digits, 10) == m
    requires |rest| > 0 && DigitValue(rest[0]) >= 10
    ensures ParseInt(digits + rest, Decimal) == Some(m)
  {
    var t := digits + rest;
    assert t[0] == digits[0] && digits[0] in digits;
    assert '0' <= t[0] <= '9';
    ParseIntNoSpace(t, Decimal);
    ParseDigitsThen(digits, m, rest);
    assert ParseSigned(t, Decimal) == Some(m) by {
      assert !(t[0] == '-' || t[0] == '+');
    }
  }

  /** `parseInt(`${n}` + rest, 10)` for a non-negative `n`. */
  lemma ParseNatToStringThen(n: nat, rest: string)
    requires |rest| > 0 && DigitValue(rest[0]) >= 10
    ensures ParseInt(NatToString(n) + rest, Decimal) == Some(n)
  {
    NatToStringValue(n);
    ParseIntDigitsThen(NatToString(n), n, rest);
  }

  /** A minus sign, decimal digits, then a non-digit. */
  lemma ParseIntMinusDigitsThen(digits: string, m: nat, rest: string)
    requires |digits| >= 1 && forall c | c in digits :: '0' <= c <= '9'
    requires DigitsValue(digits, 10) == m
    requires |rest| > 0 && DigitValue(rest[0]) >= 10
    ensures ParseInt("-" + digits + rest, Decimal) == Some(-(m as int))
  {
    assert "-" + digits + rest == "-" + (digits + rest);
    ParseDigitsThen(digits, m, rest);
    ParseSignedMinus(digits + rest, Decimal, m);
    ParseIntNoSpace("-" + (digits + rest), Decimal);
  }

  /** `parseInt(`${n}` + rest, 10)` for a negative `n`. */
  lemma ParseNegativeToStringThen(n: int, rest: string)
    requires n < 0
    requires |rest| > 0 && DigitValue(rest[0]) >= 10
    ensures ParseInt(IntToString(n) + rest, Decimal) == Some(n)
  {
    var m: nat := -n;
    var digits := NatToString(m);
    assert digits == NatToString(-n);
    NatToStringValue(m);
    ParseIntMinusDigitsThen(digits, m, rest);
    assert IntToString(n) == "-" + digits;
  }

  /** `parseInt` reads an interpolated integer back from the front of a
      longer text, up to the first character that is not a digit. */
  lemma ParseIntToStringThen(n: int, rest: string)
    requires |rest| > 0 && DigitValue(rest[0]) >= 10
    ensures ParseInt(IntToString(n) + rest, Decimal) == Some(n)
  {
    if n < 0 {
      ParseNegativeToStringThen(n, rest);
    } else {
      ParseNatToStringThen(n, rest);
    }
  }

  /** Text that opens with two minus signs, as every `--flag` does, is not a
      number. */
  lemma FlagIsNotANumber(flag: string, radix: Radix)
    requires |flag| >= 2 && flag[0] == '-' && flag[1] == '-'
    ensures ParseInt(flag, radix).None?
  {
    ParseIntNoSpace(flag, radix);
    var u := flag[1..];
    assert u[0] == '-';
    assert DigitPrefix(u, 10) == "";
  }

  /** Reading back an interpolated integer gives the integer, with or without
      an explicit radix. */
  lemma ParseIntToString(n: int, radix: Radix)
    ensures ParseInt(IntToString(n), radix) == Some(n)
  {
    if n < 0 {
      ParseNegativeToString(n, radix);
    } else {
      ParseNatToString(n, radix);
    }
  }
}

/** The JavaScript string operations the match log relies on, written out:
    `trim`, `split` with a string separator, `join`, the removal of every
    double quote, integer-to-text conversion and `Number.parseInt`. */
module Text {
  import opened Sequences

  /** The characters `String.prototype.trim` removes: white space and line
      terminators, including the byte-order mark U+FEFF. */
  predicate IsSpace(c: char)
  {
    || c == '\t' || c == '\n' || c == '\U{000B}' || c == '\U{000C}' || c == '\r'
    || c == ' ' || c == '\U{00A0}' || c == '\U{1680}'
    || ('\U{2000}' <= c <= '\U{200A}')
    || c == '\U{2028}' || c == '\U{2029}' || c == '\U{202F}' || c == '\U{205F}'
    || c == '\U{3000}' || c == '\U{FEFF}'
  }

  function TrimStart(s: string): (r: string)
    ensures |r| <= |s| && r == s[|s| - |r|..]
    ensures r == [] || !IsSpace(r[0])
    ensures forall i :: 0 <= i < |s| - |r| ==> IsSpace(s[i])
  {
    if s != [] && IsSpace(s[0]) then TrimStart(s[1..]) else s
  }

  function TrimEnd(s: string): (r: string)
    ensures |r| <= |s| && r == s[..|r|]
    ensures r == [] || !IsSpace(r[|r| - 1])
    ensures forall i :: |r| <= i < |s| ==> IsSpace(s[i])
  {
    if s != [] && IsSpace(s[|s| - 1]) then TrimEnd(s[..|s| - 1]) else s
  }

  /** `String.prototype.trim`. */
  function Trim(s: string): (r: string)
  {
    TrimEnd(TrimStart(s))
  }

  /** A string is left alone by `trim` exactly when it neither starts nor
      ends with white space; it trims to "" exactly when it is all white space. */
  lemma TrimFacts(s: string)
    ensures Trim(s) == s <==> s == [] || (!IsSpace(s[0]) && !IsSpace(s[|s| - 1]))
    ensures Trim(s) == [] <==> forall i :: 0 <= i < |s| ==> IsSpace(s[i])
  {
    var t := TrimStart(s);
    if s != [] && !IsSpace(s[0]) && !IsSpace(s[|s| - 1]) {
      assert t == s;
    }
    assert t != [] ==> TrimEnd(t) != [] by {
      if t != [] {
        assert !IsSpace(t[0]);
      }
    }
  }

  /** `sep` occurs in `s` starting at index `i`. */
  predicate OccursAt(s: string, sep: string, i: nat)
  {
    i + |sep| <= |s| && s[i..i + |sep|] == sep
  }

  /** The first index at or after `from` where `sep` occurs, or |s| if none. */
  function Find(s: string, sep: string, from: nat): (i: nat)
    requires |sep| > 0 && from <= |s|
    ensures from <= i <= |s|
    ensures i < |s| ==> OccursAt(s, sep, i)
    ensures forall j :: from <= j < i ==> !OccursAt(s, sep, j)
    decreases |s| - from
  {
    if from + |sep| > |s| then |s|
    else if s[from..from + |sep|] == sep then from
    else Find(s, sep, from + 1)
  }

  /** `String.prototype.split` with a non-empty string separator: the pieces
      between the non-overlapping occurrences found from left to right. */
  function Split(s: string, sep: string): (parts: seq<string>)
    requires |sep| > 0
    ensures |parts| >= 1
    decreases |s|
  {
    var i := Find(s, sep, 0);
    if i == |s| then [s] else [s[..i]] + Split(s[i + |sep|..], sep)
  }

  /** `Array.prototype.join`. */
  function Join(parts: seq<string>, sep: string): string
  {
    if parts == [] then ""
    else if |parts| == 1 then parts[0]
    else parts[0] + sep + Join(parts[1..], sep)
  }

  /** A string without any occurrence of the separator is not split. */
  lemma SplitNone(s: string, sep: string)
    requires |sep| > 0
    requires forall j :: 0 <= j <= |s| ==> !OccursAt(s, sep, j)
    ensures Split(s, sep) == [s]
  {
  }

  /** When the first occurrence of `sep` in `x + sep + y` is the one right
      after `x`, splitting peels `x` off. */
  lemma SplitFirst(x: string, sep: string, y: string)
    requires |sep| > 0
    requires forall j :: 0 <= j < |x| ==> !OccursAt(x + sep + y, sep, j)
    ensures Split(x + sep + y, sep) == [x] + Split(y, sep)
  {
    var s := x + sep + y;
    assert s[|x|..|x| + |sep|] == sep;
    assert OccursAt(s, sep, |x|);
    var i := Find(s, sep, 0);
    assert i == |x|;
    assert s[..i] == x;
    assert s[i + |sep|..] == y;
  }

  /** Splitting on one character finds it only where it is. */
  lemma OccursAtChar(s: string, c: char, j: nat)
    ensures OccursAt(s, [c], j) <==> j < |s| && s[j] == c
  {
    if j < |s| {
      assert s[j..j + 1] == [s[j]];
    }
  }

  /** `split` undoes `join` for a one-character separator that no part contains. */
  lemma {:induction false} SplitJoin(parts: seq<string>, c: char)
    requires |parts| >= 1
    requires forall i :: 0 <= i < |parts| ==> c !in parts[i]
    ensures Split(Join(parts, [c]), [c]) == parts
  {
    if |parts| == 1 {
      forall j | 0 <= j <= |parts[0]| ensures !OccursAt(parts[0], [c], j) {
        OccursAtChar(parts[0], c, j);
        if j < |parts[0]| {
          assert parts[0][j] in parts[0];
        }
      }
      SplitNone(parts[0], [c]);
    } else {
      var x, rest := parts[0], Join(parts[1..], [c]);
      forall j | 0 <= j < |x| ensures !OccursAt(x + [c] + rest, [c], j) {
        OccursAtChar(x + [c] + rest, c, j);
        assert (x + [c] + rest)[j] == x[j];
        assert x[j] in x;
      }
      SplitFirst(x, [c], rest);
      SplitJoin(parts[1..], c);
      assert [x] + parts[1..] == parts;
    }
  }

  predicate NotQuote(c: char)
  {
    c != '"'
  }

  /** `replace(/"/g, "")`: every double quote removed. */
  function RemoveQuotes(s: string): (r: string)
  {
    Filter(s, NotQuote)
  }

  lemma RemoveQuotesFacts(s: string)
    ensures '"' !in RemoveQuotes(s)
    ensures '"' !in s ==> RemoveQuotes(s) == s
  {
    FilterMembers(s, NotQuote, '"');
    if '"' !in s {
      FilterAll(s, NotQuote);
    }
  }

  function DigitChar(d: nat): (c: char)
    requires d < 10
    ensures '0' <= c <= '9' && DigitValue(c) == d
  {
    (d + '0' as int) as char
  }

  /** Decimal text of a natural number, without leading zeros. */
  function NatText(n: nat): (r: string)
    ensures |r| >= 1
  {
    if n < 10 then [DigitChar(n)] else NatText(n / 10) + [DigitChar(n % 10)]
  }

  /** Text of an integer as a JavaScript template literal renders it
      (`${n}` for integers of ordinary size). */
  function IntText(n: int): string
  {
    if n < 0 then "-" + NatText(-n) else NatText(n)
  }

  /** Value of a digit in radix up to 36, or 36 for a non-digit. */
  function DigitValue(c: char): (v: nat)
    ensures v <= 36
  {
    if '0' <= c <= '9' then (c - '0') as nat
    else if 'a' <= c <= 'z' then (c - 'a') as nat + 10
    else if 'A' <= c <= 'Z' then (c - 'A') as nat + 10
    else 36
  }

  /** The longest prefix of `s` made of digits of the given radix. */
  function DigitPrefix(s: string, radix: nat): (r: string)
    ensures |r| <= |s|
  {
    if s == [] || DigitValue(s[0]) >= radix then [] else [s[0]] + DigitPrefix(s[1..], radix)
  }

  /** The digit prefix is a prefix of `s`, made of digits of the radix, and
      is followed by a non-digit when it stops short of the end. */
  lemma {:induction false} DigitPrefixFacts(s: string, radix: nat)
    ensures var r := DigitPrefix(s, radix);
            && r == s[..|r|]
            && (forall i :: 0 <= i < |r| ==> DigitValue(r[i]) < radix)
            && (|r| < |s| ==> DigitValue(s[|r|]) >= radix)
  {
    if s != [] && DigitValue(s[0]) < radix {
      DigitPrefixFacts(s[1..], radix);
      var t := DigitPrefix(s[1..], radix);
      var r := [s[0]] + t;
      assert r[1..] == t;
      forall i | 0 <= i < |r| ensures DigitValue(r[i]) < radix {
        if i > 0 { assert r[i] == t[i - 1]; }
      }
      assert r == s[..|r|] by {
        assert s == [s[0]] + s[1..];
      }
      if |r| < |s| {
        assert s[|r|] == s[1..][|t|];
      }
    }
  }

  function DigitsValue(d: string, radix: nat): nat
  {
    if d == [] then 0
    else DigitsValue(d[..|d| - 1], radix) * radix + (if DigitValue(d[|d| - 1]) < 36 then DigitValue(d[|d| - 1]) else 0)
  }

  /** The digits after an optional sign: a "0x"/"0X" prefix selects radix
      16, otherwise radix 10, and the longest run of digits is read; None when
      there is no digit at all. */
  function ParseUnsigned(u: string): Option<nat>
  {
    if |u| >= 2 && u[0] == '0' && (u[1] == 'x' || u[1] == 'X') then
      var h := DigitPrefix(u[2..], 16);
      if h == [] then None else Some(DigitsValue(h, 16))
    else
      var d := DigitPrefix(u, 10);
      if d == [] then None else Some(DigitsValue(d, 10))
  }

  /** `Number.parseInt(s)` with no radix: leading white space skipped, an
      optional sign, then the digits; None stands for NaN. */
  function ParseInt(s: string): Option<int>
  {
    var t := TrimStart(s);
    var negative := t != [] && t[0] == '-';
    var u := if t != [] && (t[0] == '-' || t[0] == '+') then t[1..] else t;
    match ParseUnsigned(u)
    case None => None
    case Some(v) => Some(if negative then -(v as int) else v as int)
  }

  /** `Number.parseInt(s) || 0`: NaN and zero both become 0. */
  function ParseIntOrZero(s: string): int
  {
    match ParseInt(s)
    case None => 0
    case Some(n) => n
  }

  /** The text of a number is made of decimal digits, has no leading
      zero, and reads back as the number. */
  lemma NatTextDigits(n: nat)
    ensures forall i :: 0 <= i < |NatText(n)| ==> '0' <= NatText(n)[i] <= '9'
    ensures n > 0 ==> NatText(n)[0] != '0'
    ensures DigitsValue(NatText(n), 10) == n
  {
    NatTextAllDigits(n);
    NatTextLeading(n);
    NatTextValue(n);
  }

  lemma {:induction false} NatTextAllDigits(n: nat)
    ensures forall i :: 0 <= i < |NatText(n)| ==> '0' <= NatText(n)[i] <= '9'
  {
    if n >= 10 {
      NatTextAllDigits(n / 10);
      var p := NatText(n / 10);
      var r := p + [DigitChar(n % 10)];
      assert NatText(n) == r;
      forall i | 0 <= i < |r| ensures '0' <= r[i] <= '9' {
        if i < |p| { assert r[i] == p[i]; }
      }
    }
  }

  lemma {:induction false} NatTextLeading(n: nat)
    ensures n > 0 ==> NatText(n)[0] != '0'
  {
    if n >= 10 {
      NatTextLeading(n / 10);
      var p := NatText(n / 10);
      assert NatText(n) == p + [DigitChar(n % 10)];
      assert NatText(n)[0] == p[0];
    }
  }

  lemma {:induction false} NatTextValue(n: nat)
    ensures DigitsValue(NatText(n), 10) == n
  {
    if n >= 10 {
      NatTextValue(n / 10);
      var p := NatText(n / 10);
      var r := p + [DigitChar(n % 10)];
      assert NatText(n) == r;
      assert r[..|r| - 1] == p;
      assert DigitsValue(r, 10) == DigitsValue(p, 10) * 10 + n % 10;
    } else {
      var r := [DigitChar(n)];
      assert r[..0] == [];
      assert DigitsValue(r, 10) == DigitsValue([], 10) * 10 + n;
    }
  }

  lemma {:induction false} DigitPrefixAll(s: string, radix: nat)
    requires forall i :: 0 <= i < |s| ==> DigitValue(s[i]) < radix
    ensures DigitPrefix(s, radix) == s
  {
    if s != [] {
      DigitPrefixAll(s[1..], radix);
    }
  }

  lemma ParseUnsignedDigits(u: string)
    requires |u| >= 1 && forall i :: 0 <= i < |u| ==> '0' <= u[i] <= '9'
    ensures ParseUnsigned(u) == Some(DigitsValue(u, 10))
  {
    assert forall i :: 0 <= i < |u| ==> DigitValue(u[i]) < 10;
    DigitPrefixAll(u, 10);
  }

  /** `parseInt` reads back every integer's text. */
  lemma ParseIntText(n: int)
    ensures ParseInt(IntText(n)) == Some(n)
    ensures ParseIntOrZero(IntText(n)) == n
  {
    if n < 0 {
      ParseNegative(-n);
    } else {
      ParseNatural(n);
    }
  }

  /** Text that starts with neither white space nor a sign is read as
      unsigned digits. */
  lemma ParseUnsignedStart(t: string, v: nat)
    requires t != [] && !IsSpace(t[0]) && t[0] != '-' && t[0] != '+'
    requires ParseUnsigned(t) == Some(v)
    ensures ParseInt(t) == Some(v as int)
  {
    assert TrimStart(t) == t;
  }

  /** Text that starts with a minus sign is read as negated digits. */
  lemma ParseMinusStart(t: string, v: nat)
    requires t != [] && t[0] == '-'
    requires ParseUnsigned(t[1..]) == Some(v)
    ensures ParseInt(t) == Some(-(v as int))
  {
    assert !IsSpace(t[0]);
    assert TrimStart(t) == t;
  }

  lemma ParseNatural(m: nat)
    ensures ParseInt(NatText(m)) == Some(m)
  {
    NatTextDigits(m);
    var d := NatText(m);
    ParseUnsignedDigits(d);
    assert '0' <= d[0] <= '9';
    ParseUnsignedStart(d, m);
  }

  lemma ParseNegative(m: nat)
    requires m > 0
    ensures ParseInt("-" + NatText(m)) == Some(-(m as int))
  {
    NatTextDigits(m);
    var d := NatText(m);
    ParseUnsignedDigits(d);
    var t := "-" + d;
    assert t[0] == '-' && t[1..] == d;
    ParseMinusStart(t, m);
  }
}

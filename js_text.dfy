/** The string and number built-ins of JavaScript that the dashboard's parsing code
    relies on: `trim`, `toLowerCase` (over ASCII), `includes`, `split(" ")`,
    `replace(/,/g, "")`, `replace("%", "")`, `parseInt(_, 10)`, `parseFloat` and the
    decimal rendering of integers. */
module JsText {
  import opened Wrappers

  // ---------------------------------------------------------------------------
  // Characters

  /** The characters that `String.prototype.trim` removes and that the regular
      expression class `\s` matches (ECMAScript WhiteSpace and LineTerminator). */
  predicate IsSpace(c: char) {
    c == ' ' || c == '\t' || c == '\n' || c == '\r' || c == '\U{B}' || c == '\U{C}'
    || c == '\U{A0}' || c == '\U{1680}' || ('\U{2000}' <= c <= '\U{200A}')
    || c == '\U{2028}' || c == '\U{2029}' || c == '\U{202F}' || c == '\U{205F}'
    || c == '\U{3000}' || c == '\U{FEFF}'
  }

  predicate IsDigit(c: char) {
    '0' <= c <= '9'
  }

  predicate IsUpper(c: char) {
    'A' <= c <= 'Z'
  }

  function LowerChar(c: char): (r: char)
    ensures !IsUpper(r)
    ensures !IsUpper(c) ==> r == c
  {
    if IsUpper(c) then (c as int + 32) as char else c
  }

  // ---------------------------------------------------------------------------
  // trim, toLowerCase, includes

  function TrimStart(s: string): (r: string)
    ensures |r| <= |s| && r == s[|s| - |r|..]
    ensures r == [] || !IsSpace(r[0])
  {
    if s != [] && IsSpace(s[0]) then TrimStart(s[1..]) else s
  }

  function TrimEnd(s: string): (r: string)
    ensures |r| <= |s| && r == s[..|r|]
    ensures r == [] || !IsSpace(r[|r| - 1])
  {
    if s != [] && IsSpace(s[|s| - 1]) then TrimEnd(s[..|s| - 1]) else s
  }

  /** `s.trim()` */
  function Trim(s: string): string {
    TrimEnd(TrimStart(s))
  }

  /** A string with no white space at all is its own trim. */
  lemma TrimOfSpaceless(s: string)
    requires forall i :: 0 <= i < |s| ==> !IsSpace(s[i])
    ensures Trim(s) == s
  {
  }

  /** `s.toLowerCase()`, for the ASCII letters. */
  function Lower(s: string): (r: string)
    ensures |r| == |s|
    ensures forall i :: 0 <= i < |s| ==> r[i] == LowerChar(s[i])
  {
    seq(|s|, i requires 0 <= i < |s| => LowerChar(s[i]))
  }

  lemma LowerOfLower(s: string)
    requires forall i :: 0 <= i < |s| ==> !IsUpper(s[i])
    ensures Lower(s) == s
  {
  }

  predicate IsPrefix(p: string, s: string) {
    |p| <= |s| && s[..|p|] == p
  }

  /** `s.includes(t)` */
  predicate Contains(s: string, t: string) {
    IsPrefix(t, s) || (s != [] && Contains(s[1..], t))
  }

  /** Every character of a found substring occurs in the string; used to show
      that a string without some character cannot contain a pattern that has it. */
  lemma {:induction false} ContainsChar(s: string, t: string, i: nat)
    requires Contains(s, t) && i < |t|
    ensures t[i] in s
  {
    if IsPrefix(t, s) {
      assert s[i] == t[i];
    } else {
      ContainsChar(s[1..], t, i);
    }
  }

  // ---------------------------------------------------------------------------
  // replace and split

  /** `s.replace(/,/g, "")` */
  function StripCommas(s: string): (r: string)
    ensures |r| <= |s|
  {
    if s == [] then []
    else (if s[0] == ',' then [] else [s[0]]) + StripCommas(s[1..])
  }

  /** A string that holds no comma passes through comma stripping unchanged. */
  lemma {:induction false} StripCommasNoComma(s: string)
    requires ',' !in s
    ensures StripCommas(s) == s
  {
    if s != [] {
      StripCommasNoComma(s[1..]);
    }
  }

  /** Digits, possibly grouped by commas, starting with a digit: "12,345". */
  predicate GroupedDigits(s: string) {
    s != [] && IsDigit(s[0]) && forall i :: 0 <= i < |s| ==> IsDigit(s[i]) || s[i] == ','
  }

  /** Stripping the commas keeps the other characters and no comma, and a
      first character that is not a comma stays first. */
  lemma {:induction false} StripCommasKeeps(s: string)
    ensures forall i :: 0 <= i < |StripCommas(s)| ==> StripCommas(s)[i] in s && StripCommas(s)[i] != ','
    ensures s != [] && s[0] != ',' ==> StripCommas(s) != [] && StripCommas(s)[0] == s[0]
  {
    if s != [] {
      StripCommasKeeps(s[1..]);
      var head := if s[0] == ',' then [] else [s[0]];
      var r, r' := StripCommas(s), StripCommas(s[1..]);
      assert r == head + r';
      forall i | 0 <= i < |r|
        ensures r[i] in s && r[i] != ','
      {
        if i >= |head| {
          assert r[i] == r'[i - |head|];
          assert r'[i - |head|] in s[1..];
        }
      }
    }
  }

  /** Comma-grouped digits lose their separators and leave a bare run of digits. */
  lemma StripCommasGrouped(s: string)
    requires GroupedDigits(s)
    ensures StripCommas(s) != [] && AllDigits(StripCommas(s))
  {
    StripCommasKeeps(s);
    var r := StripCommas(s);
    forall i | 0 <= i < |r|
      ensures IsDigit(r[i])
    {
      var j :| 0 <= j < |s| && s[j] == r[i];
      assert r[i] != ',';
    }
  }

  /** The number that comma-grouped digits spell: "12,345" spells 12345. */
  function GroupedValue(s: string): nat
    requires GroupedDigits(s)
  {
    StripCommasGrouped(s);
    DigitsValue(StripCommas(s))
  }

  /** "12,345" spells 12345. */
  lemma SpelledValue()
    ensures GroupedDigits("12,345") && GroupedValue("12,345") == 12345
  {
    var s := "12,345";
    assert forall i :: 0 <= i < |s| ==> IsDigit(s[i]) || s[i] == ',';
    SeparatorDropped();
    FiveDigits();
  }

  lemma SeparatorDropped()
    ensures StripCommas("12,345") == "12345"
  {
  }

  lemma FiveDigits()
    ensures AllDigits("12345") && DigitsValue("12345") == 12345
  {
    assert DigitsValue("1") == 1;
    assert DigitsValue("12") == 12 by {
      assert "12"[..1] == "1";
    }
    assert DigitsValue("123") == 123 by {
      assert "123"[..2] == "12";
    }
    assert DigitsValue("1234") == 1234 by {
      assert "1234"[..3] == "123";
    }
    assert "12345"[..4] == "1234";
  }

  /** `s.replace(c, "")` for a one-character pattern: only the first occurrence goes. */
  function RemoveFirst(s: string, c: char): (r: string)
    ensures c in s ==> |r| == |s| - 1
    ensures c !in s ==> r == s
  {
    if s == [] then []
    else if s[0] == c then s[1..]
    else [s[0]] + RemoveFirst(s[1..], c)
  }

  /** A string ending in `c`, with no other `c`, loses exactly that ending. */
  lemma {:induction false} RemoveFirstSuffix(k: string, c: char)
    requires c !in k
    ensures RemoveFirst(k + [c], c) == k
  {
    if k != [] {
      assert (k + [c])[1..] == k[1..] + [c];
      RemoveFirstSuffix(k[1..], c);
    }
  }

  /** The index of the first occurrence of `c`. */
  function IndexOf(s: string, c: char): (i: nat)
    requires c in s
    ensures i < |s| && s[i] == c && c !in s[..i]
  {
    if s[0] == c then 0 else 1 + IndexOf(s[1..], c)
  }

  /** `s.split(c)` for a one-character separator. */
  function Split(s: string, c: char): (parts: seq<string>)
    ensures |parts| >= 1
    ensures forall k :: 0 <= k < |parts| ==> c !in parts[k]
    decreases |s|
  {
    if c !in s then [s]
    else
      var i := IndexOf(s, c);
      [s[..i]] + Split(s[i + 1..], c)
  }

  /** `s.split(c).pop()`: what follows the last separator. */
  function LastPart(s: string, c: char): string {
    var parts := Split(s, c);
    parts[|parts| - 1]
  }

  /** Only what follows the first separator decides the last piece. */
  lemma LastPartAfterFirst(s: string, c: char, j: nat)
    requires j < |s| && s[j] == c && c !in s[..j]
    ensures LastPart(s, c) == LastPart(s[j + 1..], c)
  {
    assert IndexOf(s, c) == j;
  }

  /** The last piece of a split is what follows the last separator. */
  lemma {:induction false} SplitLast(d: string, x: string, c: char)
    requires c !in x
    ensures LastPart(d + [c] + x, c) == x
    decreases |d|
  {
    var s := d + [c] + x;
    assert s[|d|] == c;
    if c in d {
      var j := IndexOf(d, c);
      assert s[..j] == d[..j] && s[j] == c;
      LastPartAfterFirst(s, c, j);
      assert s[j + 1..] == d[j + 1..] + [c] + x;
      SplitLast(d[j + 1..], x, c);
    } else {
      assert s[..|d|] == d;
      LastPartAfterFirst(s, c, |d|);
      assert s[|d| + 1..] == x;
      assert Split(x, c) == [x];
    }
  }

  /** `s.replace(pat, "")` for a string pattern: only the first occurrence goes. */
  function RemoveFirstString(s: string, pat: string): string
    decreases |s|
  {
    if IsPrefix(pat, s) then s[|pat|..]
    else if s == [] then []
    else [s[0]] + RemoveFirstString(s[1..], pat)
  }

  /** A string ending in the pattern, with the pattern's first character nowhere
      before it, loses exactly that ending. */
  lemma {:induction false} RemoveFirstStringSuffix(k: string, pat: string)
    requires pat != [] && pat[0] !in k
    ensures RemoveFirstString(k + pat, pat) == k
  {
    if k != [] {
      assert (k + pat)[0] == k[0];
      assert (k + pat)[1..] == k[1..] + pat;
      RemoveFirstStringSuffix(k[1..], pat);
    } else {
      assert k + pat == pat;
    }
  }

  /** Removing a pattern keeps a prefix that cannot hold the pattern's start. */
  lemma {:induction false} RemoveFirstStringKeepsPrefix(p: string, s: string, pat: string)
    requires IsPrefix(p, s) && pat != [] && pat[0] !in p
    ensures IsPrefix(p, RemoveFirstString(s, pat))
  {
    if p != [] {
      assert s[0] == p[0];
      assert IsPrefix(p[1..], s[1..]);
      RemoveFirstStringKeepsPrefix(p[1..], s[1..], pat);
    }
  }

  function Join(parts: seq<string>, c: char): string
    requires |parts| >= 1
  {
    if |parts| == 1 then parts[0] else parts[0] + [c] + Join(parts[1..], c)
  }

  /** Splitting loses nothing: joining the pieces with the separator gives the
      string back. */
  lemma {:induction false} JoinSplit(s: string, c: char)
    ensures Join(Split(s, c), c) == s
    decreases |s|
  {
    if c in s {
      var i := IndexOf(s, c);
      var rest := Split(s[i + 1..], c);
      var parts := Split(s, c);
      assert parts == [s[..i]] + rest;
      assert parts[0] == s[..i] && parts[1..] == rest && |parts| > 1;
      assert Join(parts, c) == s[..i] + [c] + Join(rest, c);
      JoinSplit(s[i + 1..], c);
      assert s == s[..i] + [c] + s[i + 1..];
    }
  }

  // ---------------------------------------------------------------------------
  // Numbers

  function DigitValue(c: char): nat
    requires IsDigit(c)
  {
    c as int - '0' as int
  }

  function DigitChar(d: nat): (c: char)
    requires d < 10
    ensures IsDigit(c) && DigitValue(c) == d
  {
    ('0' as int + d) as char
  }

  /** The longest prefix of ASCII digits. */
  function DigitPrefix(s: string): (ds: string)
    ensures IsPrefix(ds, s)
    ensures forall i :: 0 <= i < |ds| ==> IsDigit(ds[i])
    ensures |ds| < |s| ==> !IsDigit(s[|ds|])
  {
    if s != [] && IsDigit(s[0]) then [s[0]] + DigitPrefix(s[1..]) else []
  }

  predicate AllDigits(s: string) {
    forall i :: 0 <= i < |s| ==> IsDigit(s[i])
  }

  /** The value of a run of decimal digits. */
  function DigitsValue(ds: string): nat
    requires AllDigits(ds)
  {
    if ds == [] then 0 else 10 * DigitsValue(ds[..|ds| - 1]) + DigitValue(ds[|ds| - 1])
  }

  /** The decimal rendering of a natural number, as `String(n)` gives it. */
  function NatToString(n: nat): (s: string)
    ensures s != [] && AllDigits(s)
  {
    if n < 10 then [DigitChar(n)] else NatToString(n / 10) + [DigitChar(n % 10)]
  }

  /** `String(n)` for an integer `n`. */
  function IntToString(n: int): (s: string)
    ensures s != []
  {
    if n < 0 then "-" + NatToString(-n) else NatToString(n)
  }

  lemma {:induction false} DigitsValueOfNatToString(n: nat)
    ensures DigitsValue(NatToString(n)) == n
  {
    if n >= 10 {
      DigitsValueOfNatToString(n / 10);
      var s := NatToString(n / 10) + [DigitChar(n % 10)];
      assert s[..|s| - 1] == NatToString(n / 10);
    }
  }

  lemma DigitPrefixOfDigits(s: string)
    requires AllDigits(s)
    ensures DigitPrefix(s) == s
  {
    if s != [] {
      DigitPrefixOfDigits(s[1..]);
    }
  }

  /** Strips the sign that `parseInt` and `parseFloat` accept; true means negative. */
  function SignAndBody(t: string): (bool, string) {
    if t != [] && t[0] == '-' then (true, t[1..])
    else if t != [] && t[0] == '+' then (false, t[1..])
    else (false, t)
  }

  /** `parseInt(s, 10)`: leading white space and one sign are skipped, then the
      longest run of digits is read; `None` stands for `NaN`. */
  function ParseInt(s: string): Option<int> {
    var (negative, body) := SignAndBody(TrimStart(s));
    var ds := DigitPrefix(body);
    if ds == [] then None
    else Some(if negative then -(DigitsValue(ds) as int) else DigitsValue(ds) as int)
  }

  /** The digits of a natural number survive the skipping of white space and
      sign and are read back in full. */
  lemma NatToStringShape(m: nat)
    ensures TrimStart(NatToString(m)) == NatToString(m)
    ensures SignAndBody(NatToString(m)) == (false, NatToString(m))
    ensures DigitPrefix(NatToString(m)) == NatToString(m)
    ensures DigitsValue(NatToString(m)) == m
  {
    var digits := NatToString(m);
    DigitsValueOfNatToString(m);
    DigitPrefixOfDigits(digits);
    assert digits != [] && IsDigit(digits[0]);
    assert !IsSpace(digits[0]) && digits[0] != '-' && digits[0] != '+';
  }

  /** The rendering of an integer: its sign, then its digits. */
  lemma IntToStringShape(n: int)
    ensures TrimStart(IntToString(n)) == IntToString(n)
    ensures SignAndBody(IntToString(n)) == (n < 0, NatToString(if n < 0 then -n else n))
  {
    if n < 0 {
      var digits := NatToString(-n);
      assert IntToString(n) == "-" + digits;
      assert ("-" + digits)[0] == '-';
      assert ("-" + digits)[1..] == digits;
    } else {
      NatToStringShape(n);
    }
  }

  /** `parseInt` reads back exactly the integer that `String` wrote. */
  lemma ParseIntOfIntToString(n: int)
    ensures ParseInt(IntToString(n)) == Some(n)
  {
    IntToStringShape(n);
    NatToStringShape(if n < 0 then -n else n);
  }

  /** `x * 10 ** e` over the reals, for any integer exponent, one power of ten
      at a time. */
  function Shift(x: real, e: int): real
    decreases if e < 0 then -e else e
  {
    if e == 0 then x
    else if e > 0 then Shift(x * 10.0, e - 1)
    else Shift(x / 10.0, e + 1)
  }

  /** The exponent part `e[+-]digits` that may follow a decimal literal; a marker
      that is not followed by a digit is not part of the number, so it counts as 0. */
  function ExponentOf(rest: string): int {
    if rest != [] && (rest[0] == 'e' || rest[0] == 'E') then
      var (negative, body) := SignAndBody(rest[1..]);
      var ds := DigitPrefix(body);
      if ds == [] then 0
      else if negative then -(DigitsValue(ds) as int) else DigitsValue(ds) as int
    else 0
  }

  /** `parseFloat(s)`: leading white space and one sign are skipped, then the
      longest decimal literal (digits, an optional fraction, an optional exponent)
      is read; `None` stands for `NaN`. */
  function ParseFloat(s: string): Option<real> {
    var (negative, body) := SignAndBody(TrimStart(s));
    var whole := DigitPrefix(body);
    var rest := body[|whole|..];
    var hasDot := rest != [] && rest[0] == '.';
    var fraction := if hasDot then DigitPrefix(rest[1..]) else [];
    if whole == [] && fraction == [] then None
    else
      var after := if hasDot then rest[1 + |fraction|..] else rest;
      var mantissa := DigitsValue(whole) as real + Shift(DigitsValue(fraction) as real, -|fraction|);
      var magnitude := Shift(mantissa, ExponentOf(after));
      Some(if negative then -magnitude else magnitude)
  }

  /** `parseFloat` reads a sign and a bare run of digits as that integer. */
  lemma ParseFloatOfDigits(t: string, negative: bool, ds: string)
    requires TrimStart(t) == t && SignAndBody(t) == (negative, ds)
    requires ds != [] && DigitPrefix(ds) == ds
    ensures ParseFloat(t) == Some(if negative then -(DigitsValue(ds) as real) else DigitsValue(ds) as real)
  {
    assert ds[|ds|..] == [];
    assert DigitPrefix([]) == [] && DigitsValue([]) == 0;
    assert ExponentOf([]) == 0;
    var v := DigitsValue(ds) as real;
    assert Shift(v + Shift(0 as real, -0), 0) == v;
  }

  /** `parseInt` and `parseFloat` read a bare run of digits as its value. */
  lemma DigitsParse(ds: string)
    requires ds != [] && AllDigits(ds)
    ensures ParseInt(ds) == Some(DigitsValue(ds) as int)
    ensures ParseFloat(ds) == Some(DigitsValue(ds) as real)
  {
    assert IsDigit(ds[0]);
    assert TrimStart(ds) == ds;
    assert SignAndBody(ds) == (false, ds);
    DigitPrefixOfDigits(ds);
    ParseFloatOfDigits(ds, false, ds);
  }

  /** `parseFloat` also reads back the integer that `String` wrote. */
  lemma ParseFloatOfIntToString(n: int)
    ensures ParseFloat(IntToString(n)) == Some(n as real)
  {
    var m: nat := if n < 0 then -n else n;
    IntToStringShape(n);
    NatToStringShape(m);
    var digits := NatToString(m);
    ParseFloatOfDigits(IntToString(n), n < 0, digits);
    assert DigitsValue(digits) as real == m as real;
    assert (if n < 0 then -(m as real) else m as real) == n as real;
  }
}

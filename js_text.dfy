/** Models of the JavaScript string built-ins the application relies on:
    `String.prototype.trim`, `String.prototype.toLowerCase`, `parseInt` with
    no radix, and `String.prototype.match` with the pattern "image.*". */
module JsText {
  import opened Wrappers

  /** The white-space and line-terminator characters `trim` and `parseInt` skip:
      tab, vertical tab, form feed, the byte-order mark, every space separator
      of Unicode category Zs (U+0020, U+00A0, U+1680, U+2000 to U+200A, U+202F,
      U+205F, U+3000), and the line terminators LF, CR, U+2028 and U+2029. */
  predicate IsWhitespace(c: char) {
    c == '\t' || c == '\U{000B}' || c == '\U{000C}' || c == '\U{FEFF}'
    || c == ' ' || c == '\U{00A0}' || c == '\U{1680}' || '\U{2000}' <= c <= '\U{200A}'
    || c == '\U{202F}' || c == '\U{205F}' || c == '\U{3000}'
    || c == '\n' || c == '\r' || c == '\U{2028}' || c == '\U{2029}'
  }

  /** `s` without its leading white space. */
  function TrimStart(s: string): string {
    if |s| > 0 && IsWhitespace(s[0]) then TrimStart(s[1..]) else s
  }

  /** `s` without its trailing white space. */
  function TrimEnd(s: string): string {
    if |s| > 0 && IsWhitespace(s[|s| - 1]) then TrimEnd(s[..|s| - 1]) else s
  }

  /** `TrimStart` drops exactly the leading white space: a suffix remains
      that is empty or starts with another character. */
  lemma {:induction false} TrimStartSpec(s: string)
    ensures |TrimStart(s)| <= |s| && TrimStart(s) == s[|s| - |TrimStart(s)|..]
    ensures TrimStart(s) == [] || !IsWhitespace(TrimStart(s)[0])
    ensures forall i :: 0 <= i < |s| - |TrimStart(s)| ==> IsWhitespace(s[i])
  {
    if |s| > 0 && IsWhitespace(s[0]) {
      TrimStartSpec(s[1..]);
    }
  }

  /** `TrimEnd` drops exactly the trailing white space: a prefix remains
      that is empty or ends with another character. */
  lemma {:induction false} TrimEndSpec(s: string)
    ensures |TrimEnd(s)| <= |s| && TrimEnd(s) == s[..|TrimEnd(s)|]
    ensures TrimEnd(s) == [] || !IsWhitespace(TrimEnd(s)[|TrimEnd(s)| - 1])
    ensures forall i :: |TrimEnd(s)| <= i < |s| ==> IsWhitespace(s[i])
  {
    if |s| > 0 && IsWhitespace(s[|s| - 1]) {
      TrimEndSpec(s[..|s| - 1]);
    }
  }

  /** `s.trim()`: the longest infix of `s` that starts and ends with a
      non-white-space character; empty when `s` is all white space. */
  function Trim(s: string): string {
    TrimEnd(TrimStart(s))
  }

  /** The trimmed string is empty exactly when every character is white space,
      which is when JavaScript treats `s.trim()` as falsy. */
  lemma TrimEmptyIff(s: string)
    ensures Trim(s) == [] <==> forall i :: 0 <= i < |s| ==> IsWhitespace(s[i])
  {
    var t := TrimStart(s);
    TrimStartSpec(s);
    TrimEndSpec(t);
    if Trim(s) == [] {
      assert TrimEnd(t) == [];
    } else {
      var r := Trim(s);
      assert r[0] == t[0];
      assert !IsWhitespace(s[|s| - |t|]);
    }
  }

  /** Trimming twice is trimming once. */
  lemma TrimIdempotent(s: string)
    ensures Trim(Trim(s)) == Trim(s)
  {
    var r := Trim(s);
    TrimStartSpec(s);
    TrimEndSpec(TrimStart(s));
    assert TrimStart(r) == r;
    assert TrimEnd(r) == r;
  }

  function LowerChar(c: char): char {
    if 'A' <= c <= 'Z' then (c as int - 'A' as int + 'a' as int) as char else c
  }

  /** Lower-casing maps white space to white space and nothing else to it. */
  lemma LowerCharWhitespace(c: char)
    ensures IsWhitespace(LowerChar(c)) <==> IsWhitespace(c)
  {
  }

  /** `s.toLowerCase()`, for the letters A to Z. */
  function ToLower(s: string): (r: string)
    ensures |r| == |s|
    ensures forall i :: 0 <= i < |s| ==> r[i] == LowerChar(s[i])
  {
    seq(|s|, i requires 0 <= i < |s| => LowerChar(s[i]))
  }

  lemma ToLowerIdempotent(s: string)
    ensures ToLower(ToLower(s)) == ToLower(s)
  {
  }

  /** A word with a leading capital and no other capital letter A to Z is
      lower-cased by lower-casing its first letter. */
  lemma LowerCapitalisedWord(s: string, t: string)
    requires |s| == |t| && |s| > 0 && LowerChar(s[0]) == t[0]
    requires forall i :: 1 <= i < |s| ==> s[i] == t[i] && !('A' <= s[i] <= 'Z')
    ensures ToLower(s) == t
  {
  }

  /** Lower-casing commutes with trimming, since it maps white space to white
      space and nothing else to white space. */
  lemma {:induction false} TrimStartLower(s: string)
    ensures TrimStart(ToLower(s)) == ToLower(TrimStart(s))
  {
    if |s| > 0 {
      LowerCharWhitespace(s[0]);
    }
    if |s| > 0 && IsWhitespace(s[0]) {
      assert ToLower(s)[1..] == ToLower(s[1..]);
      TrimStartLower(s[1..]);
    }
  }

  lemma {:induction false} TrimEndLower(s: string)
    ensures TrimEnd(ToLower(s)) == ToLower(TrimEnd(s))
  {
    if |s| > 0 {
      LowerCharWhitespace(s[|s| - 1]);
    }
    if |s| > 0 && IsWhitespace(s[|s| - 1]) {
      assert ToLower(s)[..|s| - 1] == ToLower(s[..|s| - 1]);
      TrimEndLower(s[..|s| - 1]);
    }
  }

  lemma TrimLower(s: string)
    ensures Trim(ToLower(s)) == ToLower(Trim(s))
  {
    TrimStartLower(s);
    TrimEndLower(TrimStart(s));
  }

  /** Normalising with `toLowerCase().trim()` a second time changes nothing. */
  lemma NormaliseIdempotent(s: string)
    ensures Trim(ToLower(Trim(ToLower(s)))) == Trim(ToLower(s))
  {
    TrimLower(Trim(ToLower(s)));
    TrimIdempotent(ToLower(s));
    ToLowerIdempotent(Trim(ToLower(s)));
    TrimLower(s);
    ToLowerIdempotent(Trim(s));
  }

  /** Lower-casing or trimming before normalising changes nothing. */
  lemma NormaliseAbsorbs(s: string)
    ensures Trim(ToLower(ToLower(s))) == Trim(ToLower(s))
    ensures Trim(ToLower(Trim(s))) == Trim(ToLower(s))
  {
    ToLowerIdempotent(s);
    TrimLower(Trim(s));
    TrimIdempotent(s);
    TrimLower(s);
  }

  // ---------------------------------------------------------------------------
  // parseInt

  predicate IsDigit(c: char) {
    '0' <= c <= '9'
  }

  function DigitValue(c: char): (r: nat)
    requires IsDigit(c)
    ensures r < 10
  {
    c as int - '0' as int
  }

  /** Number of leading decimal digits of `s`. */
  function DigitRun(s: string): (n: nat)
    ensures n <= |s|
    ensures forall i :: 0 <= i < n ==> IsDigit(s[i])
    ensures n < |s| ==> !IsDigit(s[n])
  {
    if |s| > 0 && IsDigit(s[0]) then 1 + DigitRun(s[1..]) else 0
  }

  /** Value of a string of decimal digits, most significant first. */
  function DigitsValue(ds: string): nat
    requires forall i :: 0 <= i < |ds| ==> IsDigit(ds[i])
  {
    if ds == [] then 0 else 10 * DigitsValue(ds[..|ds| - 1]) + DigitValue(ds[|ds| - 1])
  }

  /** What follows an optional leading sign. */
  function Unsigned(t: string): (u: string)
    ensures |u| <= |t| && u == t[|t| - |u|..]
  {
    if |t| > 0 && (t[0] == '+' || t[0] == '-') then t[1..] else t
  }

  /** `parseInt(s)` with no radix: skip leading white space, take an optional
      sign, then the longest run of decimal digits; None stands for NaN (no
      digit at all). Trailing characters after the digits are ignored. */
  function ParseInt(s: string): (r: Option<int>)
    ensures var u := Unsigned(TrimStart(s)); r.None? <==> u == [] || !IsDigit(u[0])
  {
    var t := TrimStart(s);
    var u := Unsigned(t);
    var n := DigitRun(u);
    if n == 0 then None
    else
      var v: int := DigitsValue(u[..n]);
      Some(if t[0] == '-' then -v else v)
  }

  /** The first character is neither white space, a sign nor a digit. */
  predicate StartsWithNonNumeral(s: string) {
    |s| > 0 && !IsWhitespace(s[0]) && s[0] != '+' && s[0] != '-' && !IsDigit(s[0])
  }

  /** `parseInt` is NaN for such a string, whatever follows. */
  lemma ParseIntNaN(s: string)
    requires StartsWithNonNumeral(s)
    ensures ParseInt(s) == None
  {
    assert TrimStart(s) == s;
    assert Unsigned(s) == s;
  }

  /** The decimal numeral of a natural number: the reference `parseInt` inverts. */
  function Numeral(n: nat): (s: string)
    ensures |s| > 0
    ensures forall i :: 0 <= i < |s| ==> IsDigit(s[i])
  {
    if n < 10 then [('0' as int + n) as char] else Numeral(n / 10) + [('0' as int + n % 10) as char]
  }

  lemma {:induction false} NumeralValue(n: nat)
    ensures DigitsValue(Numeral(n)) == n
  {
    var s := Numeral(n);
    if n >= 10 {
      assert s[..|s| - 1] == Numeral(n / 10);
      NumeralValue(n / 10);
    }
  }

  lemma {:induction false} DigitRunOfDigits(ds: string, rest: string)
    requires forall i :: 0 <= i < |ds| ==> IsDigit(ds[i])
    requires rest == [] || !IsDigit(rest[0])
    ensures DigitRun(ds + rest) == |ds|
  {
    if ds != [] {
      assert (ds + rest)[1..] == ds[1..] + rest;
      DigitRunOfDigits(ds[1..], rest);
    }
  }

  /** A string that starts with a digit parses to the value of its leading
      digits. */
  lemma ParseIntOfDigits(s: string)
    requires s != [] && IsDigit(s[0])
    ensures ParseInt(s) == Some(DigitsValue(s[..DigitRun(s)]) as int)
  {
    assert TrimStart(s) == s;
    assert Unsigned(s) == s;
  }

  /** `parseInt` reads back the numeral of any natural number, whatever
      non-digit text follows it ("7 days" parses to 7). */
  lemma ParseIntNumeral(n: nat, rest: string)
    requires rest == [] || !IsDigit(rest[0])
    ensures ParseInt(Numeral(n) + rest) == Some(n)
  {
    var ds := Numeral(n);
    var s := ds + rest;
    assert s[0] == ds[0];
    ParseIntOfDigits(s);
    DigitRunOfDigits(ds, rest);
    assert s[..|ds|] == ds;
    NumeralValue(n);
  }

  /** A leading minus sign negates. */
  lemma ParseIntNegativeNumeral(n: nat)
    ensures ParseInt("-" + Numeral(n)) == Some(-(n as int))
  {
    var ds := Numeral(n);
    var s := "-" + ds;
    assert !IsWhitespace(s[0]);
    assert TrimStart(s) == s;
    assert s[1..] == ds + [];
    DigitRunOfDigits(ds, []);
    assert s[1..][..|ds|] == ds;
    NumeralValue(n);
  }

  // ---------------------------------------------------------------------------
  // String.prototype.match("image.*")

  predicate IsInfixAt(needle: string, s: string, i: nat) {
    i + |needle| <= |s| && s[i..i + |needle|] == needle
  }

  /** `t.match("image.*")` with an unanchored regular expression: it matches
      exactly when "image" occurs somewhere in `t` (".*" may match nothing). */
  ghost predicate MatchesImagePattern(t: string) {
    exists i: nat :: IsInfixAt("image", t, i)
  }

  /** The search the regular-expression engine performs, from position `from`. */
  function FindImage(t: string, from: nat): (r: Option<nat>)
    requires from <= |t|
    ensures r.Some? ==> from <= r.value && IsInfixAt("image", t, r.value)
    ensures r.None? ==> forall i: nat :: from <= i ==> !IsInfixAt("image", t, i)
    decreases |t| - from
  {
    if from + 5 > |t| then None
    else if t[from..from + 5] == "image" then Some(from)
    else FindImage(t, from + 1)
  }

  lemma MatchesImagePatternBySearch(t: string)
    ensures MatchesImagePattern(t) <==> FindImage(t, 0).Some?
  {
    if FindImage(t, 0).Some? {
      assert IsInfixAt("image", t, FindImage(t, 0).value);
    }
  }
}

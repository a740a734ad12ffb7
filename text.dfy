/**
 * Text handling the trackers apply to what the user types: `str.strip()`,
 * `str.lower()` and `int()` on a line of console input.
 */
module Text {
  import opened Wrappers

  /** Python truthiness of an optional text value: missing or empty is false. */
  predicate Truthy(v: Option<string>) {
    v.Some? && v.value != ""
  }

  /** The characters Python's `str.isspace()` accepts, which are what `str.strip()` drops. */
  predicate IsSpace(c: char) {
    c == ' ' || ('\t' <= c <= '\r') || ('\U{1C}' <= c <= '\U{1F}')
    || c == '\U{85}' || c == '\U{A0}' || c == '\U{1680}'
    || ('\U{2000}' <= c <= '\U{200A}') || c == '\U{2028}' || c == '\U{2029}'
    || c == '\U{202F}' || c == '\U{205F}' || c == '\U{3000}'
  }

  /**
   * The whitespace `int()` skips around a number. It turns every non-ASCII
   * `isspace()` character into a space and then skips only the ASCII space
   * and `\t` to `\r`, so unlike `strip()` it keeps U+001C to U+001F.
   */
  predicate IsIntSpace(c: char) {
    IsSpace(c) && !('\U{1C}' <= c <= '\U{1F}')
  }

  /** Which whitespace a trimming step drops: `strip()`'s or `int()`'s. */
  datatype Blanks = StrBlanks | IntBlanks

  predicate IsBlank(k: Blanks, c: char) {
    if k == StrBlanks then IsSpace(c) else IsIntSpace(c)
  }

  predicate AllBlank(k: Blanks, s: string) {
    forall i :: 0 <= i < |s| ==> IsBlank(k, s[i])
  }

  /** The suffix of `s` left after dropping leading whitespace (`s.lstrip()` for `StrBlanks`). */
  function StripStart(k: Blanks, s: string): (r: string)
    ensures |r| <= |s| && r == s[|s| - |r|..]
    ensures AllBlank(k, s[..|s| - |r|])
    ensures r == [] || !IsBlank(k, r[0])
  {
    if s != [] && IsBlank(k, s[0]) then
      var r := StripStart(k, s[1..]);
      assert s[..|s| - |r|] == [s[0]] + s[1..][..|s| - 1 - |r|];
      r
    else s
  }

  /** The prefix of `s` left after dropping trailing whitespace (`s.rstrip()` for `StrBlanks`). */
  function StripEnd(k: Blanks, s: string): (r: string)
    ensures |r| <= |s| && r == s[..|r|]
    ensures AllBlank(k, s[|r|..])
    ensures r == [] || !IsBlank(k, r[|r| - 1])
  {
    if s != [] && IsBlank(k, s[|s| - 1]) then
      var r := StripEnd(k, s[..|s| - 1]);
      assert s[|r|..] == s[..|s| - 1][|r|..] + [s[|s| - 1]];
      r
    else s
  }

  /** `s` without the whitespace of kind `k` at either end. */
  function Trim(k: Blanks, s: string): (r: string)
    ensures |r| <= |s|
    ensures r == [] || (!IsBlank(k, r[0]) && !IsBlank(k, r[|r| - 1]))
  {
    StripEnd(k, StripStart(k, s))
  }

  /** `s.strip()`. */
  function Strip(s: string): (r: string)
    ensures |r| <= |s|
    ensures r == [] || (!IsSpace(r[0]) && !IsSpace(r[|r| - 1]))
  {
    Trim(StrBlanks, s)
  }

  lemma {:induction false} StripStartAfterSpace(k: Blanks, w: string, x: string)
    requires AllBlank(k, w)
    ensures StripStart(k, w + x) == StripStart(k, x)
  {
    if w != [] {
      assert (w + x)[1..] == w[1..] + x;
      StripStartAfterSpace(k, w[1..], x);
    } else {
      assert w + x == x;
    }
  }

  lemma {:induction false} StripEndBeforeSpace(k: Blanks, x: string, w: string)
    requires AllBlank(k, w)
    ensures StripEnd(k, x + w) == StripEnd(k, x)
  {
    if w != [] {
      var n := |x + w|;
      assert (x + w)[..n - 1] == x + w[..|w| - 1];
      StripEndBeforeSpace(k, x, w[..|w| - 1]);
    } else {
      assert x + w == x;
    }
  }

  lemma {:induction false} StripStartOfSpace(k: Blanks, w: string)
    requires AllBlank(k, w)
    ensures StripStart(k, w) == []
  {
    if w != [] {
      StripStartOfSpace(k, w[1..]);
    }
  }

  lemma {:induction false} StripStartBeforeSpace(k: Blanks, x: string, w: string)
    requires AllBlank(k, w)
    ensures StripStart(k, x + w) == if StripStart(k, x) == [] then [] else StripStart(k, x) + w
  {
    if x == [] {
      assert x + w == w;
      StripStartOfSpace(k, w);
    } else if IsBlank(k, x[0]) {
      assert (x + w)[1..] == x[1..] + w;
      StripStartBeforeSpace(k, x[1..], w);
    }
  }

  /** Surrounding whitespace never changes what trimming returns. */
  lemma TrimAfterSpace(k: Blanks, w: string, x: string)
    requires AllBlank(k, w)
    ensures Trim(k, w + x) == Trim(k, x)
  {
    StripStartAfterSpace(k, w, x);
  }

  lemma TrimBeforeSpace(k: Blanks, x: string, w: string)
    requires AllBlank(k, w)
    ensures Trim(k, x + w) == Trim(k, x)
  {
    StripStartBeforeSpace(k, x, w);
    if StripStart(k, x) != [] {
      StripEndBeforeSpace(k, StripStart(k, x), w);
    }
  }

  lemma TrimIgnoresPadding(k: Blanks, w1: string, s: string, w2: string)
    requires AllBlank(k, w1) && AllBlank(k, w2)
    ensures Trim(k, w1 + s + w2) == Trim(k, s)
  {
    TrimBeforeSpace(k, w1 + s, w2);
    TrimAfterSpace(k, w1, s);
  }

  /** Surrounding whitespace never changes what `strip()` returns. */
  lemma StripIgnoresPadding(w1: string, s: string, w2: string)
    requires AllBlank(StrBlanks, w1) && AllBlank(StrBlanks, w2)
    ensures Strip(w1 + s + w2) == Strip(s)
  {
    TrimIgnoresPadding(StrBlanks, w1, s, w2);
  }

  /** Text that neither starts nor ends with whitespace is its own trimming. */
  lemma TrimKeepsTrimmed(k: Blanks, s: string)
    requires s == [] || (!IsBlank(k, s[0]) && !IsBlank(k, s[|s| - 1]))
    ensures Trim(k, s) == s
  {
  }

  /** `str.lower()` on one character; only ASCII letters are folded. */
  function LowerChar(c: char): char {
    if 'A' <= c <= 'Z' then (c as int + 32) as char else c
  }

  /** `s.lower()`: same length, no ASCII capital left, and only ASCII capitals changed. */
  function Lower(s: string): (r: string)
    ensures |r| == |s|
    ensures forall i :: 0 <= i < |r| ==> !('A' <= r[i] <= 'Z')
    ensures forall i :: 0 <= i < |r| && r[i] != s[i] ==>
      'A' <= s[i] <= 'Z' && r[i] as int == s[i] as int + 32
  {
    seq(|s|, i requires 0 <= i < |s| => LowerChar(s[i]))
  }

  /** Lower-casing twice is lower-casing once. */
  lemma LowerIdempotent(s: string)
    ensures Lower(Lower(s)) == Lower(s)
  {
  }

  /** Lower-casing maps whitespace to whitespace and nothing else to whitespace,
      so it commutes with `strip()`. */
  lemma {:induction false} LowerCommutesWithStrip(s: string)
    ensures Lower(Strip(s)) == Strip(Lower(s))
  {
    LowerStripStart(s);
    LowerStripEnd(StripStart(StrBlanks, s));
  }

  lemma LowerCharKeepsSpace(c: char)
    ensures IsSpace(LowerChar(c)) <==> IsSpace(c)
  {
  }

  lemma {:induction false} LowerStripStart(s: string)
    ensures Lower(StripStart(StrBlanks, s)) == StripStart(StrBlanks, Lower(s))
  {
    if s != [] {
      var l := Lower(s);
      assert l[0] == LowerChar(s[0]);
      LowerCharKeepsSpace(s[0]);
      if IsSpace(s[0]) {
        assert l[1..] == Lower(s[1..]);
        assert StripStart(StrBlanks, l) == StripStart(StrBlanks, l[1..]);
        LowerStripStart(s[1..]);
      } else {
        assert StripStart(StrBlanks, l) == l;
      }
    }
  }

  lemma {:induction false} LowerStripEnd(s: string)
    ensures Lower(StripEnd(StrBlanks, s)) == StripEnd(StrBlanks, Lower(s))
  {
    if s != [] {
      var l := Lower(s);
      var n := |s| - 1;
      assert l[n] == LowerChar(s[n]);
      LowerCharKeepsSpace(s[n]);
      if IsSpace(s[n]) {
        assert l[..n] == Lower(s[..n]);
        assert StripEnd(StrBlanks, l) == StripEnd(StrBlanks, l[..n]);
        LowerStripEnd(s[..n]);
      } else {
        assert StripEnd(StrBlanks, l) == l;
      }
    }
  }

  predicate IsDigit(c: char) {
    '0' <= c <= '9'
  }

  predicate DigitsOrSeparators(s: string) {
    forall i :: 0 <= i < |s| ==> IsDigit(s[i]) || s[i] == '_'
  }

  /** The digit part `int()` accepts: decimal digits, with single underscores allowed between two digits. */
  predicate IsDigitGroup(s: string) {
    |s| > 0 && IsDigit(s[0]) && IsDigit(s[|s| - 1]) && DigitsOrSeparators(s) &&
    forall i :: 0 < i < |s| - 1 && s[i] == '_' ==> IsDigit(s[i - 1]) && IsDigit(s[i + 1])
  }

  function DigitValue(c: char): nat
    requires IsDigit(c)
  {
    c as int - '0' as int
  }

  /** The number the digits of `s` spell, underscores skipped. */
  function DigitsValue(s: string): nat
    requires DigitsOrSeparators(s)
  {
    if s == [] then 0
    else if s[|s| - 1] == '_' then DigitsValue(s[..|s| - 1])
    else DigitsValue(s[..|s| - 1]) * 10 + DigitValue(s[|s| - 1])
  }

  /** How many digits `s` holds, underscores not counted. */
  function DigitCount(s: string): nat {
    if s == [] then 0
    else DigitCount(s[..|s| - 1]) + (if IsDigit(s[|s| - 1]) then 1 else 0)
  }

  /** The most digits `int()` converts from text (`sys.get_int_max_str_digits()` by default). */
  const MaxStrDigits := 4300

  /** The number trimmed text spells as `int()` reads it: an optional sign, then a digit group within the digit limit. */
  function ParseTrimmed(t: string): (r: Option<int>)
    ensures t == [] ==> r.None?
    ensures r.Some? && r.value < 0 ==> t[0] == '-'
  {
    var signed := |t| > 0 && (t[0] == '+' || t[0] == '-');
    var digits := if signed then t[1..] else t;
    if IsDigitGroup(digits) && DigitCount(digits) <= MaxStrDigits then
      var v: int := DigitsValue(digits);
      Some(if signed && t[0] == '-' then -v else v)
    else None
  }

  /**
   * `int(line)` in base 10: `None` where Python raises `ValueError`. Blank
   * text never parses, and a negative result always comes from a leading `-`.
   */
  function ParseInt(line: string): (r: Option<int>)
    ensures Trim(IntBlanks, line) == [] ==> r.None?
    ensures r.Some? && r.value < 0 ==> Trim(IntBlanks, line)[0] == '-'
  {
    ParseTrimmed(Trim(IntBlanks, line))
  }

  function DigitChar(d: nat): (c: char)
    requires d < 10
    ensures IsDigit(c) && DigitValue(c) == d
  {
    ('0' as int + d) as char
  }

  /** `str(n)` for a natural number. */
  function Decimal(n: nat): (s: string)
    ensures |s| > 0
    ensures forall i :: 0 <= i < |s| ==> IsDigit(s[i])
  {
    if n < 10 then [DigitChar(n)] else Decimal(n / 10) + [DigitChar(n % 10)]
  }

  function Abs(n: int): nat {
    if n < 0 then -n else n
  }

  /** `str(n)`: what a user types to enter the number `n`. */
  function Show(n: int): string {
    if n < 0 then "-" + Decimal(-n) else Decimal(n)
  }

  /** The digits of `str(n)` spell `n` and are all counted against the digit limit. */
  lemma {:induction false} DecimalValue(n: nat)
    ensures DigitsOrSeparators(Decimal(n))
    ensures DigitsValue(Decimal(n)) == n && DigitCount(Decimal(n)) == |Decimal(n)|
  {
    if n >= 10 {
      var s := Decimal(n);
      assert s[..|s| - 1] == Decimal(n / 10);
      DecimalValue(n / 10);
    }
  }

  /** `str(n)` is an optional `-` and then a digit group, with no whitespace at either end. */
  lemma ShowShape(n: int)
    ensures var s := Show(n); !IsIntSpace(s[0]) && !IsIntSpace(s[|s| - 1])
    ensures IsDigitGroup(Decimal(Abs(n)))
    ensures n < 0 ==> Show(n)[0] == '-' && Show(n)[1..] == Decimal(Abs(n))
    ensures n >= 0 ==> Show(n) == Decimal(Abs(n)) && Show(n)[0] != '-' && Show(n)[0] != '+'
  {
    var d := Decimal(Abs(n));
    assert IsDigit(d[0]) && IsDigit(d[|d| - 1]);
    if n < 0 {
      assert Show(n)[1..] == d;
    }
  }

  /** `int()` ignores the whitespace it skips around the number. */
  lemma ParseIntIgnoresPadding(w1: string, line: string, w2: string)
    requires AllBlank(IntBlanks, w1) && AllBlank(IntBlanks, w2)
    ensures ParseInt(w1 + line + w2) == ParseInt(line)
  {
    TrimIgnoresPadding(IntBlanks, w1, line, w2);
  }

  /** `int()` reads back what `str()` writes, up to the digit limit both share. */
  lemma ParseShow(n: int)
    requires |Decimal(Abs(n))| <= MaxStrDigits
    ensures ParseInt(Show(n)) == Some(n)
  {
    var s := Show(n);
    ShowShape(n);
    DecimalValue(Abs(n));
    TrimKeepsTrimmed(IntBlanks, s);
  }

  /** `int()` reads back what `str()` writes, whatever skipped whitespace surrounds it. */
  lemma ParseShowRoundTrip(w1: string, n: int, w2: string)
    requires AllBlank(IntBlanks, w1) && AllBlank(IntBlanks, w2)
    requires |Decimal(Abs(n))| <= MaxStrDigits
    ensures ParseInt(w1 + Show(n) + w2) == Some(n)
  {
    ParseIntIgnoresPadding(w1, Show(n), w2);
    ParseShow(n);
  }
}

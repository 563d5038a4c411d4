/** The JavaScript string built-ins the application relies on, written out
    over `seq<char>`: decimal conversion (`toString`, `parseInt`),
    `padStart`, `split` on one character, `includes`, `trim` and ASCII case
    mapping.  Each is stated by what it means, and the facts the other
    modules use about them are proved here once. */
module Text {
  import opened Wrappers

  // ---------------------------------------------------------------------
  // Decimal digits
  // ---------------------------------------------------------------------

  predicate IsDigit(c: char) {
    '0' <= c <= '9'
  }

  predicate AllDigits(s: string) {
    forall i :: 0 <= i < |s| ==> IsDigit(s[i])
  }

  function DigitValue(c: char): nat
    requires IsDigit(c)
  {
    (c as int) - ('0' as int)
  }

  function DigitChar(d: nat): (c: char)
    requires d < 10
    ensures IsDigit(c) && DigitValue(c) == d
  {
    ('0' as int + d) as char
  }

  function Pow10(n: nat): (p: nat)
    ensures p >= 1
  {
    if n == 0 then 1 else 10 * Pow10(n - 1)
  }

  /** The number a string of decimal digits denotes, leading zeros allowed. */
  function Value(s: string): nat
    requires AllDigits(s)
  {
    if s == [] then 0 else Value(s[..|s| - 1]) * 10 + DigitValue(s[|s| - 1])
  }

  lemma {:induction false} ValueBound(s: string)
    requires AllDigits(s)
    ensures Value(s) < Pow10(|s|)
  {
    if s != [] {
      ValueBound(s[..|s| - 1]);
    }
  }

  /** Reading digits left to right: the value of `s + t` shifts `s` by the
      length of `t`. */
  lemma {:induction false} ValueAppend(s: string, t: string)
    requires AllDigits(s) && AllDigits(t)
    ensures AllDigits(s + t)
    ensures Value(s + t) == Value(s) * Pow10(|t|) + Value(t)
  {
    if t == [] {
      assert s + t == s;
    } else {
      var t' := t[..|t| - 1];
      assert (s + t)[..|s + t| - 1] == s + t';
      ValueAppend(s, t');
      ShiftStep(Value(s), Value(t'), Pow10(|t'|), DigitValue(t[|t| - 1]));
    }
  }

  lemma ShiftStep(a: int, b: int, p: int, d: int)
    ensures (a * p + b) * 10 + d == a * (10 * p) + (b * 10 + d)
  {
  }

  function Zeros(n: nat): (z: string)
    ensures |z| == n && AllDigits(z)
    ensures forall i :: 0 <= i < n ==> z[i] == '0'
  {
    seq(n, _ => '0')
  }

  lemma {:induction false} ValueZeros(n: nat)
    ensures Value(Zeros(n)) == 0
  {
    if n > 0 {
      assert Zeros(n)[..n - 1] == Zeros(n - 1);
      ValueZeros(n - 1);
    }
  }

  /** `n.toString()` for a non-negative integer: its shortest decimal
      representation. */
  function DecimalString(n: nat): (r: string)
    ensures AllDigits(r) && |r| >= 1
    ensures Value(r) == n
    ensures |r| == 1 || r[0] != '0'
  {
    if n < 10 then [DigitChar(n)]
    else
      var r := DecimalString(n / 10) + [DigitChar(n % 10)];
      assert r[..|r| - 1] == DecimalString(n / 10);
      r
  }

  /** The number of digits of `n` is `k` exactly when `n` lies between
      `10^(k-1)` and `10^k`. */
  lemma {:induction false} DecimalLength(n: nat, k: nat)
    requires 1 <= k
    requires n < Pow10(k)
    requires k == 1 || Pow10(k - 1) <= n
    ensures |DecimalString(n)| == k
  {
    if k > 1 {
      DecimalLength(n / 10, k - 1);
    }
  }

  /** `n.toString()` for any integer. */
  function IntString(n: int): (r: string)
    ensures |r| >= 1
    ensures n >= 0 <==> AllDigits(r)
  {
    if n < 0 then
      var r := "-" + DecimalString(-n);
      assert !IsDigit(r[0]);
      r
    else DecimalString(n)
  }

  /** The longest prefix of `s` made of decimal digits. */
  function LeadingDigits(s: string): (p: string)
    ensures AllDigits(p) && p <= s
    ensures |p| < |s| ==> !IsDigit(s[|p|])
  {
    if s != [] && IsDigit(s[0]) then [s[0]] + LeadingDigits(s[1..]) else []
  }

  /** `parseInt(s, 10)` on a string without leading blanks or sign: the value
      of its leading digits, or `None` (JavaScript's NaN) when it does not
      start with a digit. */
  function ParseInt(s: string): (r: Option<nat>)
    ensures r.None? <==> (s == [] || !IsDigit(s[0]))
  {
    var p := LeadingDigits(s);
    if p == [] then None else Some(Value(p))
  }

  lemma ParseIntDigits(s: string, rest: string)
    requires AllDigits(s) && s != []
    requires rest == [] || !IsDigit(rest[0])
    ensures ParseInt(s + rest) == Some(Value(s))
  {
    LeadingDigitsOf(s, rest);
  }

  lemma {:induction false} LeadingDigitsOf(s: string, rest: string)
    requires AllDigits(s)
    requires rest == [] || !IsDigit(rest[0])
    ensures LeadingDigits(s + rest) == s
  {
    if s != [] {
      assert (s + rest)[1..] == s[1..] + rest;
      LeadingDigitsOf(s[1..], rest);
    }
  }

  // ---------------------------------------------------------------------
  // padStart
  // ---------------------------------------------------------------------

  /** `s.padStart(n, c)`: `s` preceded by as many `c` as it lacks to reach
      length `n`; a string already that long is returned as it is. */
  function PadStart(s: string, n: nat, c: char): (r: string)
    ensures |r| == if |s| >= n then |s| else n
  {
    if |s| >= n then s else seq(n - |s|, _ => c) + s
  }

  /** The padded string ends with `s` and starts with nothing but `c`. */
  lemma PadStartContent(s: string, n: nat, c: char)
    ensures var r := PadStart(s, n, c);
      && r[|r| - |s|..] == s
      && forall i :: 0 <= i < |r| - |s| ==> r[i] == c
  {
  }

  /** Zero-padding a digit string keeps its value. */
  lemma PadZerosValue(s: string, n: nat)
    requires AllDigits(s)
    ensures AllDigits(PadStart(s, n, '0'))
    ensures Value(PadStart(s, n, '0')) == Value(s)
  {
    if |s| < n {
      assert PadStart(s, n, '0') == Zeros(n - |s|) + s;
      ValueAppend(Zeros(n - |s|), s);
      ValueZeros(n - |s|);
    }
  }

  // ---------------------------------------------------------------------
  // split on one character
  // ---------------------------------------------------------------------

  function Count(s: string, c: char): nat {
    if s == [] then 0 else (if s[0] == c then 1 else 0) + Count(s[1..], c)
  }

  lemma {:induction false} CountAbsent(s: string, c: char)
    ensures c !in s <==> Count(s, c) == 0
  {
    if s != [] {
      CountAbsent(s[1..], c);
      assert c in s <==> s[0] == c || c in s[1..];
    }
  }

  /** `s.split(sep)`: the pieces between occurrences of `sep`, one more
      piece than there are separators, none containing the separator. */
  function Split(s: string, sep: char): (parts: seq<string>)
    ensures |parts| == Count(s, sep) + 1
    ensures forall k :: 0 <= k < |parts| ==> sep !in parts[k]
  {
    if s == [] then [[]]
    else
      var rest := Split(s[1..], sep);
      if s[0] == sep then [[]] + rest else [[s[0]] + rest[0]] + rest[1..]
  }

  /** Every piece is made of characters of the string. */
  lemma {:induction false} SplitChars(s: string, sep: char)
    ensures forall k, c :: 0 <= k < |Split(s, sep)| && c in Split(s, sep)[k] ==> c in s
  {
    if s != [] {
      SplitChars(s[1..], sep);
      var parts, rest := Split(s, sep), Split(s[1..], sep);
      forall k, c | 0 <= k < |parts| && c in parts[k] ensures c in s {
        if s[0] == sep {
          if k > 0 {
            assert parts[k] == rest[k - 1];
          }
        } else if k == 0 {
          assert c == s[0] || c in rest[0];
        } else {
          assert parts[k] == rest[k];
        }
        assert c == s[0] || c in s[1..];
      }
    }
  }

  /** `parts.join(sep)`. */
  function Join(parts: seq<string>, sep: char): string
    requires parts != []
  {
    if |parts| == 1 then parts[0] else parts[0] + [sep] + Join(parts[1..], sep)
  }

  /** Splitting loses nothing: joining the pieces back gives the string. */
  lemma {:induction false} JoinSplit(s: string, sep: char)
    ensures Join(Split(s, sep), sep) == s
  {
    if s != [] {
      var rest := Split(s[1..], sep);
      JoinSplit(s[1..], sep);
      if s[0] == sep {
        assert ([[]] + rest)[1..] == rest;
      } else {
        var parts := [[s[0]] + rest[0]] + rest[1..];
        if |rest| > 1 {
          assert parts[1..] == rest[1..];
          assert Join(rest, sep) == rest[0] + [sep] + Join(rest[1..], sep);
        }
      }
    }
  }

  lemma {:induction false} SplitNoSeparator(s: string, sep: char)
    requires sep !in s
    ensures Split(s, sep) == [s]
  {
    if s != [] {
      assert sep !in s[1..];
      SplitNoSeparator(s[1..], sep);
      assert [s[0]] + s[1..] == s;
    }
  }

  /** A string with no separator before the first one splits into that
      prefix and the split of what follows. */
  lemma {:induction false} SplitAfterFirst(a: string, sep: char, b: string)
    requires sep !in a
    ensures Split(a + [sep] + b, sep) == [a] + Split(b, sep)
  {
    if a == [] {
      assert a + [sep] + b == [sep] + b;
      assert ([sep] + b)[1..] == b;
    } else {
      assert (a + [sep] + b)[1..] == a[1..] + [sep] + b;
      assert sep !in a[1..];
      SplitAfterFirst(a[1..], sep, b);
      assert [a[0]] + a[1..] == a;
    }
  }

  // ---------------------------------------------------------------------
  // includes
  // ---------------------------------------------------------------------

  predicate OccursAt(hay: string, needle: string, i: int) {
    0 <= i && i + |needle| <= |hay| && hay[i..i + |needle|] == needle
  }

  /** `hay.includes(needle)`: `needle` occurs in `hay` at some position. */
  predicate Includes(hay: string, needle: string) {
    exists i :: 0 <= i <= |hay| && OccursAt(hay, needle, i)
  }

  lemma IncludesEmpty(hay: string)
    ensures Includes(hay, "")
  {
    assert OccursAt(hay, "", 0);
  }

  // ---------------------------------------------------------------------
  // Case mapping (ASCII letters only)
  // ---------------------------------------------------------------------

  function UpperChar(c: char): char {
    if 'a' <= c <= 'z' then (c as int - 32) as char else c
  }

  function LowerChar(c: char): char {
    if 'A' <= c <= 'Z' then (c as int + 32) as char else c
  }

  /** `s.toUpperCase()`: every lower-case letter replaced by its capital. */
  function ToUpper(s: string): (r: string)
    ensures |r| == |s|
    ensures forall i :: 0 <= i < |s| ==> r[i] == UpperChar(s[i])
  {
    seq(|s|, i requires 0 <= i < |s| => UpperChar(s[i]))
  }

  /** `s.toLowerCase()`: every capital replaced by its lower-case letter. */
  function ToLower(s: string): (r: string)
    ensures |r| == |s|
    ensures forall i :: 0 <= i < |s| ==> r[i] == LowerChar(s[i])
  {
    seq(|s|, i requires 0 <= i < |s| => LowerChar(s[i]))
  }

  // ---------------------------------------------------------------------
  // trim
  // ---------------------------------------------------------------------

  /** ECMAScript's white space and line terminators: what `trim` removes and
      what the regular-expression class `\s` matches. */
  predicate IsSpace(c: char) {
    || c == ' ' || c == '\t' || c == '\n' || c == '\r'
    || c == '\U{B}' || c == '\U{C}' || c == '\U{A0}' || c == '\U{1680}'
    || ('\U{2000}' <= c <= '\U{200A}')
    || c == '\U{2028}' || c == '\U{2029}' || c == '\U{202F}' || c == '\U{205F}'
    || c == '\U{3000}' || c == '\U{FEFF}'
  }

  predicate AllSpace(s: string) {
    forall i :: 0 <= i < |s| ==> IsSpace(s[i])
  }

  function TrimStart(s: string): (r: string)
    ensures r == [] || !IsSpace(r[0])
    ensures |r| <= |s| && r == s[|s| - |r|..]
    ensures AllSpace(s[..|s| - |r|])
  {
    if s != [] && IsSpace(s[0]) then TrimStart(s[1..]) else s
  }

  function TrimEnd(s: string): (r: string)
    ensures r == [] || !IsSpace(r[|r| - 1])
    ensures r <= s
    ensures AllSpace(s[|r|..])
  {
    if s != [] && IsSpace(s[|s| - 1]) then TrimEnd(s[..|s| - 1]) else s
  }

  /** `s.trim()`. */
  function Trim(s: string): (r: string) {
    TrimEnd(TrimStart(s))
  }

  /** A string trims to nothing exactly when it is all white space. */
  lemma TrimEmpty(s: string)
    ensures Trim(s) == [] <==> AllSpace(s)
  {
    var t := TrimStart(s);
    if Trim(s) == [] {
      assert t == [];
      assert s[..|s|] == s;
    }
  }
}

/** The avatar badge: initials taken from a display name and a background
    colour whose hue is a string hash of the user's id (or, lacking one,
    of the name). */
module Avatar {
  import opened Wrappers
  import opened Text
  import opened Seqs

  // ---------------------------------------------------------------------
  // Initials
  // ---------------------------------------------------------------------

  /** The characters of the class `[\s@.]`. */
  predicate IsSeparator(c: char) {
    IsSpace(c) || c == '@' || c == '.'
  }

  predicate NoneIn(s: string, sep: char -> bool) {
    forall i :: 0 <= i < |s| ==> !sep(s[i])
  }

  /** `s` without its leading run of separators. */
  function DropRun(s: string, sep: char -> bool): (r: string)
    ensures |r| <= |s|
    ensures s != [] && sep(s[0]) ==> |r| < |s|
    ensures r == [] || !sep(r[0])
  {
    if s != [] && sep(s[0]) then DropRun(s[1..], sep) else s
  }

  /** The pieces of `s` between runs of separators, the piece being read
      so far being `cur`. */
  function Pieces(s: string, cur: string, sep: char -> bool): (parts: seq<string>)
    ensures |parts| >= 1
    decreases |s|
  {
    if s == [] then [cur]
    else if sep(s[0]) then [cur] + Pieces(DropRun(s, sep), "", sep)
    else Pieces(s[1..], cur + [s[0]], sep)
  }

  /** `s.split(/[\s@.]+/)`.  There is always at least one part, so the
      empty branch of `getInitials` cannot be taken. */
  function SplitRuns(s: string): (parts: seq<string>)
    ensures |parts| >= 1
  {
    Pieces(s, "", IsSeparator)
  }

  /** The parts laid end to end. */
  function Concat(parts: seq<string>): string {
    if parts == [] then "" else parts[0] + Concat(parts[1..])
  }

  /** `s` with every separator taken out. */
  function Unseparated(s: string, sep: char -> bool): (r: string)
    ensures NoneIn(r, sep)
  {
    if s == [] then ""
    else (if sep(s[0]) then "" else [s[0]]) + Unseparated(s[1..], sep)
  }

  /** No part holds a separator. */
  lemma {:induction false} PiecesNoSeparator(s: string, cur: string, sep: char -> bool)
    requires NoneIn(cur, sep)
    ensures forall i :: 0 <= i < |Pieces(s, cur, sep)| ==> NoneIn(Pieces(s, cur, sep)[i], sep)
    decreases |s|
  {
    if s != [] {
      if sep(s[0]) {
        PiecesNoSeparator(DropRun(s, sep), "", sep);
      } else {
        PiecesNoSeparator(s[1..], cur + [s[0]], sep);
      }
    }
  }

  /** Together the parts are the string with its separators taken out. */
  lemma {:induction false} PiecesConcat(s: string, cur: string, sep: char -> bool)
    ensures Concat(Pieces(s, cur, sep)) == cur + Unseparated(s, sep)
    decreases |s|
  {
    if s == [] {
      assert Concat([cur]) == cur + Concat([]);
    } else if sep(s[0]) {
      var rest := DropRun(s, sep);
      PiecesConcat(rest, "", sep);
      DroppedRun(s, sep);
      var ps := Pieces(rest, "", sep);
      assert ([cur] + ps)[1..] == ps;
      assert Concat([cur] + ps) == cur + Concat(ps);
    } else {
      PiecesConcat(s[1..], cur + [s[0]], sep);
      assert cur + [s[0]] + Unseparated(s[1..], sep) == cur + Unseparated(s, sep);
    }
  }

  /** Skipping a run of separators loses nothing that is kept. */
  lemma {:induction false} DroppedRun(s: string, sep: char -> bool)
    ensures Unseparated(DropRun(s, sep), sep) == Unseparated(s, sep)
    decreases |s|
  {
    if s != [] && sep(s[0]) {
      DroppedRun(s[1..], sep);
    }
  }

  /** Every part between the first and the last is non-empty: only a
      separator at the very start or end yields an empty part. */
  lemma {:induction false} InnerPiecesNonEmpty(s: string, cur: string, sep: char -> bool)
    ensures var parts := Pieces(s, cur, sep);
      forall i :: 0 < i < |parts| - 1 ==> parts[i] != ""
    ensures s != [] && !sep(s[0]) ==> Pieces(s, cur, sep)[0] != ""
    decreases |s|
  {
    if s != [] {
      if sep(s[0]) {
        var rest := DropRun(s, sep);
        InnerPiecesNonEmpty(rest, "", sep);
        var ps := Pieces(rest, "", sep);
        assert forall i :: 0 < i < |ps| + 1 ==> ([cur] + ps)[i] == ps[i - 1];
      } else {
        InnerPiecesNonEmpty(s[1..], cur + [s[0]], sep);
        PiecesHead(s[1..], cur + [s[0]], sep);
      }
    }
  }

  /** The first part extends the piece read so far. */
  lemma {:induction false} PiecesHead(s: string, cur: string, sep: char -> bool)
    ensures cur <= Pieces(s, cur, sep)[0]
    decreases |s|
  {
    if s != [] && !sep(s[0]) {
      PiecesHead(s[1..], cur + [s[0]], sep);
    }
  }

  /** A word with no separator is read whole into the current piece. */
  lemma {:induction false} WordPieces(w: string, cur: string, sep: char -> bool)
    requires NoneIn(w, sep)
    ensures Pieces(w, cur, sep) == [cur + w]
    decreases |w|
  {
    if w == [] {
      assert cur + w == cur;
    } else {
      assert !sep(w[0]);
      WordPieces(w[1..], cur + [w[0]], sep);
      assert cur + [w[0]] + w[1..] == cur + w;
    }
  }

  /** A word followed by text starting with a separator ends the piece. */
  lemma {:induction false} WordThenRun(w: string, cur: string, s: string, sep: char -> bool)
    requires NoneIn(w, sep) && s != [] && sep(s[0])
    ensures Pieces(w + s, cur, sep) == [cur + w] + Pieces(DropRun(s, sep), "", sep)
    decreases |w|
  {
    if w == [] {
      assert w + s == s;
      assert cur + w == cur;
    } else {
      assert !sep(w[0]);
      assert (w + s)[0] == w[0];
      assert (w + s)[1..] == w[1..] + s;
      WordThenRun(w[1..], cur + [w[0]], s, sep);
      assert cur + [w[0]] + w[1..] == cur + w;
    }
  }

  /** The first part of a word followed by nothing or a separator is that
      word. */
  lemma WordFirst(w: string, rest: string, sep: char -> bool)
    requires NoneIn(w, sep) && (rest == [] || sep(rest[0]))
    ensures Pieces(w + rest, "", sep)[0] == w
  {
    if rest == [] {
      assert w + rest == w;
      WordPieces(w, "", sep);
    } else {
      WordThenRun(w, "", rest, sep);
    }
  }

  /** `a[0]` of a part: its first character, or `undefined`, which string
      concatenation spells out. */
  function FirstOrUndefined(part: string): string {
    if part == [] then "undefined" else [part[0]]
  }

  /** `getInitials(name)`.  `None` stands for the `TypeError` raised when
      the first two parts are both empty (`undefined + undefined` is a
      number, which has no `toUpperCase`). */
  function Initials(name: string): (r: Option<string>)
    ensures var parts := SplitRuns(Trim(name));
      r.None? <==> |parts| >= 2 && parts[0] == "" && parts[1] == ""
  {
    var parts := SplitRuns(Trim(name));
    if |parts| == 1 then
      Some(ToUpper(parts[0][..if |parts[0]| < 2 then |parts[0]| else 2]))
    else if parts[0] == "" && parts[1] == "" then None
    else Some(ToUpper(FirstOrUndefined(parts[0]) + FirstOrUndefined(parts[1])))
  }

  /** A string with no white space at either end trims to itself. */
  lemma TrimUnchanged(s: string)
    requires s != [] && !IsSpace(s[0]) && !IsSpace(s[|s| - 1])
    ensures Trim(s) == s
  {
  }

  /** A single word gives its first two characters, in capitals. */
  lemma OneWordInitials(w: string)
    requires w != [] && NoneIn(w, IsSeparator)
    ensures Initials(w) == Some(ToUpper(w[..if |w| < 2 then |w| else 2]))
  {
    assert !IsSeparator(w[0]) && !IsSeparator(w[|w| - 1]);
    TrimUnchanged(w);
    WordPieces(w, "", IsSeparator);
    assert "" + w == w;
  }

  /** A word, then a run of separators, then more text: the word is the
      first part, and the second part starts where the run ends. */
  lemma TwoParts(a: string, s: string, sep: char -> bool)
    requires NoneIn(a, sep)
    requires s != [] && sep(s[0]) && DropRun(s, sep) != []
    ensures var parts := Pieces(a + s, "", sep);
      |parts| >= 2 && parts[0] == a && parts[1] != [] && parts[1][0] == DropRun(s, sep)[0]
  {
    WordThenRun(a, "", s, sep);
    assert "" + a == a;
    var b := DropRun(s, sep);
    assert "" + [b[0]] == [b[0]];
    assert Pieces(b, "", sep) == Pieces(b[1..], [b[0]], sep);
    PiecesHead(b[1..], [b[0]], sep);
  }

  /** Two words separated by separators give their first letters, in
      capitals, whatever follows the second word. */
  lemma TwoWordInitials(a: string, s: string)
    requires a != [] && NoneIn(a, IsSeparator)
    requires s != [] && IsSeparator(s[0]) && !IsSpace(s[|s| - 1])
    requires DropRun(s, IsSeparator) != []
    ensures var b := DropRun(s, IsSeparator);
      Initials(a + s) == Some([UpperChar(a[0]), UpperChar(b[0])])
  {
    assert !IsSeparator(a[0]);
    assert (a + s)[0] == a[0] && (a + s)[|a + s| - 1] == s[|s| - 1];
    TrimUnchanged(a + s);
    TwoParts(a, s, IsSeparator);
    var parts := SplitRuns(a + s);
    var pair := FirstOrUndefined(parts[0]) + FirstOrUndefined(parts[1]);
    assert pair == [a[0], parts[1][0]];
    assert ToUpper(pair) == [UpperChar(a[0]), UpperChar(parts[1][0])];
    assert Initials(a + s) == Some(ToUpper(pair));
  }

  // ---------------------------------------------------------------------
  // Colour
  // ---------------------------------------------------------------------

  const Two32: int := 0x1_0000_0000
  const Two31: int := 0x8000_0000

  /** ECMAScript's ToInt32 on an integral number: wrap to 32-bit two's
      complement. */
  function ToInt32(x: int): (r: int)
    ensures -Two31 <= r < Two31
    ensures (r - x) % Two32 == 0
  {
    var m := x % Two32;
    if m >= Two31 then m - Two32 else m
  }

  /** `hash << 5`. */
  function ShiftLeft5(hash: int): (r: int)
    ensures -Two31 <= r < Two31
  {
    ToInt32(ToInt32(hash) * 32)
  }

  /** One step of the hash: `charCode + ((hash << 5) - hash)`.  The
      subtraction and the addition are on numbers, not 32-bit integers. */
  function HashStep(hash: int, c: char): int {
    c as int + (ShiftLeft5(hash) - hash)
  }

  /** The hash of `s`, the characters taken from the first. */
  function HashOf(s: string): int {
    if s == [] then 0 else HashStep(HashOf(s[..|s| - 1]), s[|s| - 1])
  }

  /** The hash loop of `getColor`. */
  method Hash(str: string) returns (hash: int)
    ensures hash == HashOf(str)
  {
    hash := 0;
    for i := 0 to |str|
      invariant hash == HashOf(str[..i])
    {
      assert str[..i + 1][..i] == str[..i];
      hash := str[i] as int + (ShiftLeft5(hash) - hash);
    }
    assert str[..|str|] == str;
  }

  /** The hash grows by less than `2^31 + 2^21` a character, so for any
      string shorter than `2^21` characters it stays below `2^53` and the
      unbounded integers here are exactly the numbers the engine computes. */
  lemma {:induction false} HashBound(s: string)
    ensures -(|s| * (Two31 + 0x20_0000)) <= HashOf(s) <= |s| * (Two31 + 0x20_0000)
  {
    if s != [] {
      HashBound(s[..|s| - 1]);
      assert s[|s| - 1] as int < 0x20_0000;
    }
  }

  /** `Math.abs(hash) % 360`: a hue in `[0, 360)`. */
  function Hue(hash: int): (h: nat)
    ensures h < 360
    ensures (if hash < 0 then -hash else hash) - h == 360 * ((if hash < 0 then -hash else hash) / 360)
  {
    (if hash < 0 then -hash else hash) % 360
  }

  /** `hsl(h, 55%, 60%)`. */
  function HslText(h: nat): string {
    "hsl(" + DecimalString(h) + ", 55%, 60%)"
  }

  /** `getColor(str)`. */
  method GetColor(str: string) returns (color: string)
    ensures exists h :: 0 <= h < 360 && color == HslText(h)
    ensures color == HslText(Hue(HashOf(str)))
  {
    var hash := Hash(str);
    var h := Hue(hash);
    color := HslText(h);
  }

  /** An empty seed has hash 0 and so hue 0. */
  lemma EmptySeedHue()
    ensures HashOf("") == 0 && Hue(HashOf("")) == 0
    ensures HslText(Hue(HashOf(""))) == "hsl(0, 55%, 60%)"
  {
    assert DecimalString(0) == "0";
  }

  /** `id || name`: the id when it is present and non-empty, else the name. */
  function Seed(id: Option<string>, name: string): (seed: string)
    ensures id.Some? && id.value != "" ==> seed == id.value
    ensures id.None? || id.value == "" ==> seed == name
  {
    if id.Some? && id.value != "" then id.value else name
  }

  /** Users with an id keep their colour when their name changes. */
  lemma ColourFollowsId(id: string, name1: string, name2: string)
    requires id != ""
    ensures Hue(HashOf(Seed(Some(id), name1))) == Hue(HashOf(Seed(Some(id), name2)))
  {
  }
}

/**
 * The handful of Python `str` operations the core relies on, written over
 * `seq<char>`: `in`, `startswith`, `endswith`, `replace`, `split(sep)[0]`,
 * `split('/')[-1]`, `rstrip(chars)`, `strip()`, `str(int)`, iteration over a
 * file's lines and the ordering
 * SQLite's BINARY collation gives to text.
 */
module Text {

  /** `s.startswith(p)` */
  predicate StartsWith(s: string, p: string) {
    |p| <= |s| && s[..|p|] == p
  }

  /** `s.endswith(p)` */
  predicate EndsWith(s: string, p: string) {
    |p| <= |s| && s[|s| - |p|..] == p
  }

  /** `t in s`: `t` occurs in `s` at some position. */
  predicate Contains(s: string, t: string)
    decreases |s|
  {
    StartsWith(s, t) || (|s| > 0 && Contains(s[1..], t))
  }

  /** Whatever is put in front of a string keeps its substrings. */
  lemma {:induction false} ContainsAfterPrefix(p: string, s: string, t: string)
    requires Contains(s, t)
    ensures Contains(p + s, t)
    decreases |p|
  {
    if p == [] {
      assert p + s == s;
    } else {
      assert (p + s)[1..] == p[1..] + s;
      ContainsAfterPrefix(p[1..], s, t);
    }
  }

  /** A string that starts with `t` contains it, whatever follows. */
  lemma ContainsWhenStartsWith(s: string, t: string)
    requires StartsWith(s, t)
    ensures Contains(s, t)
  {
  }

  /** `s.replace(target, repl)` for a non-empty `target`: every occurrence, scanning left to right. */
  function ReplaceAll(s: string, target: string, repl: string): string
    requires |target| > 0
    decreases |s|
  {
    if |s| == 0 then ""
    else if StartsWith(s, target) then repl + ReplaceAll(s[|target|..], target, repl)
    else [s[0]] + ReplaceAll(s[1..], target, repl)
  }

  /** A string in which `target` does not occur is left as it is. */
  lemma {:induction false} ReplaceAllKeepsUntouched(s: string, target: string, repl: string)
    requires |target| > 0 && !Contains(s, target)
    ensures ReplaceAll(s, target, repl) == s
    decreases |s|
  {
    if |s| > 0 {
      ReplaceAllKeepsUntouched(s[1..], target, repl);
    }
  }

  /** `s.split(t)[0]`: the text before the first occurrence of `t` (all of `s` if none). */
  function BeforeFirst(s: string, t: string): (r: string)
    requires |t| > 0
    ensures StartsWith(s, r)
    decreases |s|
  {
    if |s| == 0 || StartsWith(s, t) then ""
    else [s[0]] + BeforeFirst(s[1..], t)
  }

  /** `s.split(sep)[-1]`: the text after the last `sep` (all of `s` if none). */
  function LastSegment(s: string, sep: char): (r: string)
    ensures EndsWith(s, r) && sep !in r
    decreases |s|
  {
    if |s| == 0 || s[|s| - 1] == sep then ""
    else LastSegment(s[..|s| - 1], sep) + [s[|s| - 1]]
  }

  /** `s.rstrip(chars)`: drops trailing characters that belong to the SET `chars`. */
  function RStripChars(s: string, chars: set<char>): (r: string)
    ensures StartsWith(s, r)
    ensures |r| > 0 ==> r[|r| - 1] !in chars
    ensures forall i :: |r| <= i < |s| ==> s[i] in chars
    decreases |s|
  {
    if |s| > 0 && s[|s| - 1] in chars then RStripChars(s[..|s| - 1], chars) else s
  }

  /**
   * The characters `str.strip()` removes: those `str.isspace()` accepts, the
   * ASCII controls '\t' to '\r' and 0x1C to 0x1F, the space, NEL, NO-BREAK
   * SPACE and the Unicode space and line/paragraph separators.
   */
  const Whitespace: set<char> := {
    '\t', '\n', '\U{B}', '\U{C}', '\r', '\U{1C}', '\U{1D}', '\U{1E}', '\U{1F}', ' ',
    '\U{85}', '\U{A0}', '\U{1680}', '\U{2000}', '\U{2001}', '\U{2002}', '\U{2003}',
    '\U{2004}', '\U{2005}', '\U{2006}', '\U{2007}', '\U{2008}', '\U{2009}', '\U{200A}',
    '\U{2028}', '\U{2029}', '\U{202F}', '\U{205F}', '\U{3000}'}

  /** `s.lstrip(chars)`: drops leading characters that belong to the SET `chars`. */
  function LStripChars(s: string, chars: set<char>): (r: string)
    ensures EndsWith(s, r)
    ensures |r| > 0 ==> r[0] !in chars
    ensures forall i :: 0 <= i < |s| - |r| ==> s[i] in chars
    decreases |s|
  {
    if |s| > 0 && s[0] in chars then LStripChars(s[1..], chars) else s
  }

  /** `s.strip()` */
  function Strip(s: string): string {
    LStripChars(RStripChars(s, Whitespace), Whitespace)
  }

  /** A string that neither starts nor ends with whitespace is its own `strip()`. */
  lemma StripTrimmed(s: string)
    requires |s| > 0 ==> s[0] !in Whitespace && s[|s| - 1] !in Whitespace
    ensures Strip(s) == s
  {
  }

  /**
   * What a text-mode read of a file holding `s` delivers (Python's default
   * universal newlines): "\r\n" and a lone '\r' each become '\n'.
   */
  function Translate(s: string): (t: string)
    ensures '\r' !in t
    ensures |t| <= |s|
    decreases |s|
  {
    if s == [] then []
    else if s[0] == '\r' then "\n" + Translate(if |s| > 1 && s[1] == '\n' then s[2..] else s[1..])
    else [s[0]] + Translate(s[1..])
  }

  /** Text without '\r' reads back unchanged. */
  lemma {:induction false} TranslatePlain(s: string)
    requires '\r' !in s
    ensures Translate(s) == s
    decreases |s|
  {
    if s != [] {
      TranslatePlain(s[1..]);
    }
  }

  /** Translating text that does not end in '\r' can be done piece by piece: no "\r\n" straddles the seam. */
  lemma {:induction false} TranslateAppend(s: string, u: string)
    requires s == [] || s[|s| - 1] != '\r'
    ensures Translate(s + u) == Translate(s) + Translate(u)
    decreases |s|
  {
    if s == [] {
      assert s + u == u;
    } else if s[0] == '\r' {
      assert |s| > 1 && (s + u)[1] == s[1];
      var k := if s[1] == '\n' then 2 else 1;
      assert (s + u)[k..] == s[k..] + u;
      TranslateAppend(s[k..], u);
    } else {
      assert (s + u)[1..] == s[1..] + u;
      TranslateAppend(s[1..], u);
    }
  }

  /** A text ending in a line terminator ('\n' or '\r') reads back ending in '\n'. */
  lemma {:induction false} TranslateEndsLine(s: string)
    requires s != [] && (s[|s| - 1] == '\n' || s[|s| - 1] == '\r')
    ensures Translate(s) != [] && Translate(s)[|Translate(s)| - 1] == '\n'
    decreases |s|
  {
    var k := if s[0] == '\r' && |s| > 1 && s[1] == '\n' then 2 else 1;
    var head := if s[0] == '\r' then "\n" else [s[0]];
    assert Translate(s) == head + Translate(s[k..]);
    if k < |s| {
      var r := s[k..];
      assert r[|r| - 1] == s[|s| - 1];
      TranslateEndsLine(r);
    } else {
      assert s[k..] == [];
    }
  }

  /**
   * Length of the first line of `s`, a text as a text-mode read delivers it
   * (see `Translate`): up to and including the first '\n', or all of `s`.
   */
  function LineEnd(s: string): (k: nat)
    ensures s != [] ==> 1 <= k <= |s|
    ensures s == [] ==> k == 0
    ensures forall i :: 0 <= i < k - 1 ==> s[i] != '\n'
    ensures k < |s| ==> s[k - 1] == '\n'
    decreases |s|
  {
    if s == [] then 0 else if s[0] == '\n' then 1 else 1 + LineEnd(s[1..])
  }

  /** `list(f)` for a text file whose translated text is `s`: every line keeps its '\n'; a last line without one still counts. */
  function Lines(s: string): (ls: seq<string>)
    ensures |ls| <= |s|
    ensures s != [] ==> |ls| > 0 && ls[0] == s[..LineEnd(s)]
    decreases |s|
  {
    if s == [] then [] else [s[..LineEnd(s)]] + Lines(s[LineEnd(s)..])
  }

  /** The file a sequence of `write(x + '\n')` calls produces. */
  function Unlines(xs: seq<string>): (s: string)
    ensures |s| >= |xs|
    ensures xs != [] ==> EndsWith(s, "\n")
    decreases |xs|
  {
    if xs == [] then "" else xs[0] + "\n" + Unlines(xs[1..])
  }

  /** A file that is empty or ends with '\n': appending to it starts a new line. */
  predicate EndsLine(s: string) {
    s == [] || s[|s| - 1] == '\n'
  }

  /** Writing one newline-free line to a file whose lines are all terminated adds exactly that line. */
  lemma {:induction false} LinesAppend(s: string, x: string)
    requires EndsLine(s) && '\n' !in x
    ensures Lines(s + x + "\n") == Lines(s) + [x + "\n"]
    ensures EndsLine(s + x + "\n")
  {
    var u := x + "\n";
    assert s + x + "\n" == s + u;
    NoNewlineLineEnd(x);
    assert u[..LineEnd(u)] == u && u[LineEnd(u)..] == [];
    assert Lines(u) == [u[..LineEnd(u)]] + Lines(u[LineEnd(u)..]);
    LinesAppendLine(s, u);
  }

  /** Appending a complete line `u` to a file whose lines are all terminated. */
  lemma {:induction false} LinesAppendLine(s: string, u: string)
    requires EndsLine(s) && Lines(u) == [u] && u != [] && u[LineEnd(u) - 1] == '\n'
    ensures Lines(s + u) == Lines(s) + [u]
    decreases |s|
  {
    if s == [] {
      assert s + u == u;
    } else {
      var k := LineEnd(s);
      var rest := s[k..];
      assert EndsLine(rest) by {
        if rest != [] {
          assert rest[|rest| - 1] == s[|s| - 1];
        }
      }
      LinesSplit(s, u);
      LinesAppendLine(rest, u);
      assert Lines(s + u) == [s[..k]] + (Lines(rest) + [u]);
    }
  }

  /** A first line that ends with '\n' is cut off the same way whatever follows the text. */
  lemma LinesSplit(s: string, u: string)
    requires s != [] && EndsLine(s)
    ensures Lines(s + u) == [s[..LineEnd(s)]] + Lines(s[LineEnd(s)..] + u)
    ensures Lines(s) == [s[..LineEnd(s)]] + Lines(s[LineEnd(s)..])
  {
    var k := LineEnd(s);
    assert s[k - 1] == '\n';
    LineEndOfPrefix(s, u);
    assert (s + u)[..k] == s[..k];
    assert (s + u)[k..] == s[k..] + u;
  }

  /** A newline-free `x` followed by '\n' is a single line. */
  lemma {:induction false} NoNewlineLineEnd(x: string)
    requires '\n' !in x
    ensures LineEnd(x + "\n") == |x| + 1
    decreases |x|
  {
    if x != [] {
      assert (x + "\n")[1..] == x[1..] + "\n";
      NoNewlineLineEnd(x[1..]);
    }
  }

  /** Text written after a completed first line does not change where that line ends. */
  lemma {:induction false} LineEndOfPrefix(s: string, u: string)
    requires s != [] && s[LineEnd(s) - 1] == '\n'
    ensures LineEnd(s + u) == LineEnd(s)
    decreases |s|
  {
    if s[0] != '\n' {
      assert (s + u)[1..] == s[1..] + u;
      LineEndOfPrefix(s[1..], u);
    }
  }

  /** A newline-free line written before `rest` reads back as the first line. */
  lemma LinesCons(x: string, rest: string)
    requires '\n' !in x
    ensures Lines(x + "\n" + rest) == [x + "\n"] + Lines(rest)
  {
    var s := x + "\n" + rest;
    NoNewlineLineEnd(x);
    LineEndOfPrefix(x + "\n", rest);
    assert s == (x + "\n") + rest;
    assert s[..|x| + 1] == x + "\n";
    assert s[|x| + 1..] == rest;
  }

  /** Reading back the file that `Unlines` writes gives the written lines, each with its '\n'. */
  lemma {:induction false} LinesOfUnlines(xs: seq<string>)
    requires forall i :: 0 <= i < |xs| ==> '\n' !in xs[i]
    ensures |Lines(Unlines(xs))| == |xs|
    ensures forall i :: 0 <= i < |xs| ==> Lines(Unlines(xs))[i] == xs[i] + "\n"
    decreases |xs|
  {
    if xs != [] {
      var rest := xs[1..];
      assert forall i :: 0 <= i < |rest| ==> rest[i] == xs[i + 1];
      LinesOfUnlines(rest);
      LinesCons(xs[0], Unlines(rest));
      var ls := Lines(Unlines(xs));
      assert ls == [xs[0] + "\n"] + Lines(Unlines(rest));
      forall i | 0 <= i < |xs|
        ensures ls[i] == xs[i] + "\n"
      {
        if i > 0 {
          assert ls[i] == Lines(Unlines(rest))[i - 1];
        }
      }
    }
  }

  /** `strip()` also removes the line terminator, so a stored line reads back as what was written. */
  lemma StripLine(x: string)
    ensures Strip(x + "\n") == Strip(x)
  {
    var u := x + "\n";
    assert u[|u| - 1] == '\n' && '\n' in Whitespace;
    assert u[..|u| - 1] == x;
    assert RStripChars(u, Whitespace) == RStripChars(x, Whitespace);
  }

  function DigitChar(d: nat): (c: char)
    requires d < 10
    ensures '0' <= c <= '9' && c as int - '0' as int == d
  {
    (d + '0' as int) as char
  }

  /** `str(n)` for a natural number: its decimal digits, no sign, no leading zero. */
  function NatToString(n: nat): (r: string)
    ensures |r| >= 1 && (forall i :: 0 <= i < |r| ==> '0' <= r[i] <= '9')
    ensures |r| > 1 ==> r[0] != '0'
    decreases n
  {
    if n < 10 then [DigitChar(n)] else NatToString(n / 10) + [DigitChar(n % 10)]
  }

  /** Reads back a string of decimal digits. */
  function ParseNat(s: string): nat
    requires forall i :: 0 <= i < |s| ==> '0' <= s[i] <= '9'
    decreases |s|
  {
    if |s| == 0 then 0 else 10 * ParseNat(s[..|s| - 1]) + (s[|s| - 1] as int - '0' as int)
  }

  /** `str` of a natural number can be read back: the rendering loses nothing. */
  lemma {:induction false} NatToStringRoundTrip(n: nat)
    ensures ParseNat(NatToString(n)) == n
    decreases n
  {
    if n >= 10 {
      var r := NatToString(n);
      assert r[..|r| - 1] == NatToString(n / 10);
      NatToStringRoundTrip(n / 10);
    }
  }

  /** Different numbers render differently. */
  lemma NatToStringInjective(m: nat, n: nat)
    requires NatToString(m) == NatToString(n)
    ensures m == n
  {
    NatToStringRoundTrip(m);
    NatToStringRoundTrip(n);
  }

  /** `str(i)` for any integer: a minus sign before the digits of a negative number. */
  function IntToString(i: int): (r: string)
    ensures |r| >= 1 && '\n' !in r && ',' !in r
  {
    if i < 0 then "-" + NatToString(-i) else NatToString(i)
  }

  /** Lexicographic order on code points, which is the order of SQLite's BINARY collation on UTF-8. */
  predicate TextLess(a: string, b: string)
    decreases |a|
  {
    if |a| == 0 then |b| > 0
    else |b| > 0 && (a[0] < b[0] || (a[0] == b[0] && TextLess(a[1..], b[1..])))
  }

  lemma {:induction false} TextLessIrreflexive(a: string)
    ensures !TextLess(a, a)
    decreases |a|
  {
    if |a| > 0 {
      TextLessIrreflexive(a[1..]);
    }
  }

  lemma {:induction false} TextLessTransitive(a: string, b: string, c: string)
    requires TextLess(a, b) && TextLess(b, c)
    ensures TextLess(a, c)
    decreases |a|
  {
    if |a| > 0 && a[0] == b[0] && b[0] == c[0] {
      TextLessTransitive(a[1..], b[1..], c[1..]);
    }
  }

  lemma {:induction false} TextLessTotal(a: string, b: string)
    requires a != b
    ensures TextLess(a, b) || TextLess(b, a)
    decreases |a|
  {
    if |a| > 0 && |b| > 0 && a[0] == b[0] {
      assert a == [a[0]] + a[1..] && b == [b[0]] + b[1..];
      TextLessTotal(a[1..], b[1..]);
    }
  }
}

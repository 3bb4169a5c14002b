/**
 * The handful of Python `str` operations the collector relies on, over
 * `string` (a sequence of code points): `split(sep)`, `' '.join`, `lstrip`/
 * `rstrip`/`strip`, `splitlines()`, `split()` and an ASCII `lower()`.
 */
module Text {

  /** `str.isspace()`: the characters `strip()`, `split()`, `int()` and `float()` treat as white space. */
  predicate IsSpace(c: char) {
    c == ' ' || c == '\t' || c == '\n' || c == '\r' || c == '\U{0B}' || c == '\U{0C}' ||
    ('\U{1C}' <= c <= '\U{1F}') || c == '\U{85}' || c == '\U{A0}' || c == '\U{1680}' ||
    ('\U{2000}' <= c <= '\U{200A}') || c == '\U{2028}' || c == '\U{2029}' ||
    c == '\U{202F}' || c == '\U{205F}' || c == '\U{3000}'
  }

  /** The line boundaries of `str.splitlines()` (`\r\n` also counts as one boundary). */
  predicate IsLineBreak(c: char) {
    c == '\n' || c == '\r' || c == '\U{0B}' || c == '\U{0C}' || c == '\U{1C}' || c == '\U{1D}' ||
    c == '\U{1E}' || c == '\U{85}' || c == '\U{2028}' || c == '\U{2029}'
  }

  predicate SingleLine(s: string) {
    forall k :: 0 <= k < |s| ==> !IsLineBreak(s[k])
  }

  // ---------------------------------------------------------------- split / join

  /** `s.split(sep)` for a one-character separator: every occurrence splits and empty fields are kept. */
  function Split(s: string, sep: char): (parts: seq<string>)
    ensures |parts| >= 1
    ensures forall i :: 0 <= i < |parts| ==> sep !in parts[i]
  {
    if |s| == 0 then [""]
    else
      var rest := Split(s[1..], sep);
      if s[0] == sep then [""] + rest else [[s[0]] + rest[0]] + rest[1..]
  }

  /** `sep.join(parts)`. */
  function Join(sep: string, parts: seq<string>): string {
    if |parts| == 0 then ""
    else if |parts| == 1 then parts[0]
    else parts[0] + sep + Join(sep, parts[1..])
  }

  lemma JoinConsHead(sep: string, c: char, x: string, rest: seq<string>)
    ensures Join(sep, [[c] + x] + rest) == [c] + Join(sep, [x] + rest)
  {
    assert ([[c] + x] + rest)[1..] == rest;
    assert ([x] + rest)[1..] == rest;
  }

  /** Joining the fields of a split with the same separator gives the string back. */
  lemma {:induction false} JoinSplit(s: string, sep: char)
    ensures Join([sep], Split(s, sep)) == s
  {
    if |s| > 0 {
      var rest := Split(s[1..], sep);
      JoinSplit(s[1..], sep);
      if s[0] == sep {
        assert ([""] + rest)[1..] == rest;
      } else {
        assert rest == [rest[0]] + rest[1..];
        JoinConsHead([sep], s[0], rest[0], rest[1..]);
      }
    }
  }

  lemma {:induction false} SplitWithoutSeparator(s: string, sep: char)
    requires sep !in s
    ensures Split(s, sep) == [s]
  {
    if |s| > 0 {
      SplitWithoutSeparator(s[1..], sep);
      assert [s[0]] + s[1..] == s;
    }
  }

  lemma {:induction false} SplitAtFirstSeparator(a: string, sep: char, b: string)
    requires sep !in a
    ensures Split(a + [sep] + b, sep) == [a] + Split(b, sep)
  {
    if |a| == 0 {
      assert (a + [sep] + b)[1..] == b;
    } else {
      assert (a + [sep] + b)[1..] == a[1..] + [sep] + b;
      SplitAtFirstSeparator(a[1..], sep, b);
      assert [a[0]] + a[1..] == a;
    }
  }

  /** Splitting a join of separator-free fields gives the fields back. */
  lemma {:induction false} SplitJoin(parts: seq<string>, sep: char)
    requires |parts| >= 1
    requires forall i :: 0 <= i < |parts| ==> sep !in parts[i]
    ensures Split(Join([sep], parts), sep) == parts
  {
    if |parts| == 1 {
      SplitWithoutSeparator(parts[0], sep);
    } else {
      SplitJoin(parts[1..], sep);
      SplitAtFirstSeparator(parts[0], sep, Join([sep], parts[1..]));
      assert [parts[0]] + parts[1..] == parts;
    }
  }

  /** The number of occurrences of `c` in `s`. */
  function Count(s: string, c: char): nat {
    if |s| == 0 then 0 else (if s[0] == c then 1 else 0) + Count(s[1..], c)
  }

  /** A split yields one more field than there are separators. */
  lemma {:induction false} SplitCount(s: string, sep: char)
    ensures |Split(s, sep)| == Count(s, sep) + 1
  {
    if |s| > 0 {
      SplitCount(s[1..], sep);
    }
  }

  /** `s.startswith(prefix)`. */
  predicate StartsWith(s: string, prefix: string) {
    |prefix| <= |s| && s[..|prefix|] == prefix
  }

  /** `s.split(sep)[-1]`. */
  function LastField(s: string, sep: char): string {
    var parts := Split(s, sep);
    parts[|parts| - 1]
  }

  /** The last field is a separator-free suffix of `s`, either all of `s` or preceded by the separator. */
  lemma {:induction false} JoinSnoc(sep: string, ps: seq<string>, x: string)
    requires |ps| >= 1
    ensures Join(sep, ps + [x]) == Join(sep, ps) + sep + x
  {
    if |ps| > 1 {
      assert (ps + [x])[1..] == ps[1..] + [x];
      JoinSnoc(sep, ps[1..], x);
    }
  }

  lemma LastFieldIsSuffix(s: string, sep: char)
    ensures var f := LastField(s, sep);
      sep !in f && |f| <= |s| && s[|s| - |f|..] == f && (|f| == |s| || s[|s| - |f| - 1] == sep)
  {
    var parts := Split(s, sep);
    var n := |parts|;
    JoinSplit(s, sep);
    if n > 1 {
      assert parts == parts[..n - 1] + [parts[n - 1]];
      JoinSnoc([sep], parts[..n - 1], parts[n - 1]);
    }
  }

  /** Whatever precedes the last separator, the last field is what follows it. */
  lemma {:induction false} LastFieldAfterSeparator(a: string, sep: char, id: string)
    requires sep !in id
    ensures |Split(a + [sep] + id, sep)| >= 2
    ensures LastField(a + [sep] + id, sep) == id
    decreases |a|
  {
    var s := a + [sep] + id;
    if |a| == 0 {
      assert s == [] + [sep] + id;
      SplitAtFirstSeparator([], sep, id);
      SplitWithoutSeparator(id, sep);
    } else {
      assert s[1..] == a[1..] + [sep] + id;
      LastFieldAfterSeparator(a[1..], sep, id);
    }
  }

  /** `line.split(' ')`: the first field and the rest joined back with spaces. */
  function SplitFirstSpace(line: string): (string, string) {
    var fields := Split(line, ' ');
    (fields[0], Join(" ", fields[1..]))
  }

  /** The first field is the text before the first space; what follows that space is the rest, unchanged. */
  lemma SplitFirstSpaceReassembles(line: string)
    ensures var (key, rest) := SplitFirstSpace(line);
      ' ' !in key && (if ' ' in line then line == key + " " + rest else key == line && rest == "")
  {
    var fields := Split(line, ' ');
    JoinSplit(line, ' ');
    if |fields| == 1 {
      assert Join(" ", fields) == fields[0];
    } else {
      assert Join(" ", fields) == fields[0] + " " + Join(" ", fields[1..]);
    }
  }

  /** A first field without a space is read back, with everything after the space that ends it. */
  lemma SplitFirstSpaceOf(key: string, rest: string)
    requires ' ' !in key
    ensures SplitFirstSpace(key + " " + rest) == (key, rest)
  {
    var fields := Split(key + " " + rest, ' ');
    SplitAtFirstSeparator(key, ' ', rest);
    assert fields[1..] == Split(rest, ' ');
    JoinSplit(rest, ' ');
  }

  // ---------------------------------------------------------------- strip

  /** The longest suffix of `s` that does not start with a character satisfying `p`. */
  function DropWhile(s: string, p: char -> bool): (r: string)
    ensures |r| <= |s| && r == s[|s| - |r|..]
    ensures forall i :: 0 <= i < |s| - |r| ==> p(s[i])
    ensures |r| > 0 ==> !p(r[0])
  {
    if |s| > 0 && p(s[0]) then DropWhile(s[1..], p) else s
  }

  /** The longest prefix of `s` that does not end with a character satisfying `p`. */
  function DropWhileEnd(s: string, p: char -> bool): (r: string)
    ensures |r| <= |s| && r == s[..|r|]
    ensures forall i :: |r| <= i < |s| ==> p(s[i])
    ensures |r| > 0 ==> !p(r[|r| - 1])
  {
    if |s| > 0 && p(s[|s| - 1]) then DropWhileEnd(s[..|s| - 1], p) else s
  }

  predicate IsQuote(c: char) { c == '"' }

  /** `value.lstrip('"').rstrip('"')`. */
  function StripQuotes(s: string): string {
    DropWhileEnd(DropWhile(s, IsQuote), IsQuote)
  }

  /** `s.strip()`. */
  function StripSpace(s: string): string {
    DropWhileEnd(DropWhile(s, IsSpace), IsSpace)
  }

  /** Stripping leaves no quote at either end. */
  lemma StripQuotesEnds(s: string)
    ensures var r := StripQuotes(s); |r| > 0 ==> r[0] != '"' && r[|r| - 1] != '"'
  {
    KeepsFirst(DropWhile(s, IsQuote), IsQuote);
  }

  /** Dropping from the end keeps the first character of what it leaves. */
  lemma KeepsFirst(l: string, p: char -> bool)
    ensures var r := DropWhileEnd(l, p); |r| > 0 ==> r[0] == l[0]
  {
    var r := DropWhileEnd(l, p);
    assert r == l[..|r|];
  }

  /** `r` is `s[i..j]`, and everything of `s` outside `i..j` is a quote. */
  predicate BetweenQuotes(s: string, r: string, i: int, j: int) {
    && 0 <= i <= j <= |s| && r == s[i..j]
    && (forall k :: 0 <= k < i ==> s[k] == '"')
    && (forall k :: j <= k < |s| ==> s[k] == '"')
  }

  lemma SuffixPrefix(s: string, i: int, n: int)
    requires 0 <= i && 0 <= n && i + n <= |s|
    ensures s[i..][..n] == s[i..i + n]
  {
  }

  /** Stripping removes only quotes, and only from the ends. */
  lemma StripQuotesRemovesOnlyQuotes(s: string)
    ensures exists i, j :: BetweenQuotes(s, StripQuotes(s), i, j)
  {
    var l := DropWhile(s, IsQuote);
    var r := DropWhileEnd(l, IsQuote);
    var i := |s| - |l|;
    var j := i + |r|;
    SuffixPrefix(s, i, |r|);
    assert r == s[i..j];
    forall k | 0 <= k < i ensures s[k] == '"' {
      assert IsQuote(s[k]);
    }
    forall k | j <= k < |s| ensures s[k] == '"' {
      assert IsQuote(l[k - i]);
    }
    assert StripQuotes(s) == r;
    assert BetweenQuotes(s, StripQuotes(s), i, j);
  }

  lemma StripSpaceOfTrimmed(s: string)
    requires |s| > 0 && !IsSpace(s[0]) && !IsSpace(s[|s| - 1])
    ensures StripSpace(s) == s
  {
    assert DropWhile(s, IsSpace) == s;
  }

  // ---------------------------------------------------------------- lines and words

  function LineEnd(s: string): (i: nat)
    ensures i <= |s|
    ensures forall k :: 0 <= k < i ==> !IsLineBreak(s[k])
    ensures i < |s| ==> IsLineBreak(s[i])
  {
    if |s| == 0 || IsLineBreak(s[0]) then 0 else 1 + LineEnd(s[1..])
  }

  /** `s.splitlines()`: no empty line after a final boundary, `\r\n` is one boundary. */
  function SplitLines(s: string): (lines: seq<string>)
    ensures forall i :: 0 <= i < |lines| ==> SingleLine(lines[i])
    decreases |s|
  {
    if |s| == 0 then []
    else
      var i := LineEnd(s);
      if i == |s| then [s]
      else
        var width := if s[i] == '\r' && i + 1 < |s| && s[i + 1] == '\n' then 2 else 1;
        [s[..i]] + SplitLines(s[i + width..])
  }

  /** Each line followed by a newline, as a process writes its output. */
  function Unlines(lines: seq<string>): string {
    if |lines| == 0 then "" else lines[0] + "\n" + Unlines(lines[1..])
  }

  lemma {:induction false} LineEndOfLine(a: string, b: string)
    requires SingleLine(a)
    ensures LineEnd(a + "\n" + b) == |a|
  {
    if |a| > 0 {
      assert (a + "\n" + b)[1..] == a[1..] + "\n" + b;
      LineEndOfLine(a[1..], b);
    }
  }

  /** `splitlines()` recovers the lines that were written one per line. */
  lemma {:induction false} SplitLinesUnlines(lines: seq<string>)
    requires forall i :: 0 <= i < |lines| ==> SingleLine(lines[i])
    ensures SplitLines(Unlines(lines)) == lines
  {
    if |lines| > 0 {
      var s := Unlines(lines);
      LineEndOfLine(lines[0], Unlines(lines[1..]));
      assert s[..|lines[0]|] == lines[0];
      assert s[|lines[0]| + 1..] == Unlines(lines[1..]);
      SplitLinesUnlines(lines[1..]);
      assert [lines[0]] + lines[1..] == lines;
    }
  }

  function WordEnd(s: string): (i: nat)
    ensures i <= |s|
    ensures forall k :: 0 <= k < i ==> !IsSpace(s[k])
    ensures i < |s| ==> IsSpace(s[i])
  {
    if |s| == 0 || IsSpace(s[0]) then 0 else 1 + WordEnd(s[1..])
  }

  /** `s.split()`: runs of white space separate words; no word is empty. */
  function Words(s: string): (words: seq<string>)
    ensures forall i :: 0 <= i < |words| ==> |words[i]| > 0 && forall k :: 0 <= k < |words[i]| ==> !IsSpace(words[i][k])
    decreases |s|
  {
    if |s| == 0 then []
    else if IsSpace(s[0]) then Words(s[1..])
    else
      var i := WordEnd(s);
      [s[..i]] + Words(s[i..])
  }

  // ---------------------------------------------------------------- case

  function LowerChar(c: char): char {
    if 'A' <= c <= 'Z' then (c as int + 32) as char else c
  }

  /** `s.lower()` on ASCII letters. */
  function Lower(s: string): (r: string)
    ensures |r| == |s|
    ensures forall i :: 0 <= i < |s| ==> r[i] == LowerChar(s[i])
  {
    if |s| == 0 then "" else [LowerChar(s[0])] + Lower(s[1..])
  }
}

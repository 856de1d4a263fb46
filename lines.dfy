/** Python's `str.splitlines()` and `str.strip()`, and the normal form that
    `normalize_whitespace` (src/exchange_changelog/loaders/utils.py) and
    `strip_empty_lines` (src/exchange_changelog/scraper.py) both produce:
    split into lines, strip every line, drop the blank ones, join with "\n".

    A line break is one of the characters `str.splitlines` breaks on
    (LF, CR, VT, FF, FS, GS, RS, NEL, LINE SEPARATOR, PARAGRAPH SEPARATOR),
    with CR LF counting as one break. Whitespace is the set `str.isspace`
    accepts, which `str.strip()` removes; every line break is whitespace. */
module Lines {
  import opened Strings

  predicate IsLineBreak(c: char)
  {
    c == '\n' || c == '\r' || c == '\U{B}' || c == '\U{C}'
    || c == '\U{1C}' || c == '\U{1D}' || c == '\U{1E}'
    || c == '\U{85}' || c == '\U{2028}' || c == '\U{2029}'
  }

  predicate IsSpace(c: char)
  {
    ('\t' <= c <= '\r') || ('\U{1C}' <= c <= ' ')
    || c == '\U{85}' || c == '\U{A0}' || c == '\U{1680}'
    || ('\U{2000}' <= c <= '\U{200A}')
    || c == '\U{2028}' || c == '\U{2029}' || c == '\U{202F}'
    || c == '\U{205F}' || c == '\U{3000}'
  }

  lemma LineBreakIsSpace(c: char)
    ensures IsLineBreak(c) ==> IsSpace(c)
  {
  }

  predicate NoBreak(s: string)
  {
    forall i :: 0 <= i < |s| ==> !IsLineBreak(s[i])
  }

  /** `s.splitlines()`: the text between breaks; a final piece is kept only
      when it is not empty, so "a\n" gives ["a"] and "" gives []. */
  function SplitLines(s: string): seq<string>
  {
    SplitFrom(s, "")
  }

  /** Splitting the rest `s` of a text whose current, unfinished line is `cur`. */
  function SplitFrom(s: string, cur: string): seq<string>
    decreases |s|
  {
    if s == [] then (if cur == [] then [] else [cur])
    else if IsLineBreak(s[0]) then
      [cur] + SplitFrom(if s[0] == '\r' && |s| > 1 && s[1] == '\n' then s[2..] else s[1..], "")
    else SplitFrom(s[1..], cur + [s[0]])
  }

  function TrimLeft(s: string): string
  {
    if s != [] && IsSpace(s[0]) then TrimLeft(s[1..]) else s
  }

  function TrimRight(s: string): string
  {
    if s != [] && IsSpace(s[|s| - 1]) then TrimRight(s[..|s| - 1]) else s
  }

  /** `s.strip()`. */
  function Strip(s: string): string
  {
    TrimRight(TrimLeft(s))
  }

  /** A line as the normal form keeps it: not blank, no break inside, no
      whitespace at either end. */
  predicate IsNormalLine(l: string)
  {
    l != [] && NoBreak(l) && !IsSpace(l[0]) && !IsSpace(l[|l| - 1])
  }

  /** The loop body of both normalisers: each line stripped, blank ones dropped. */
  function Kept(lines: seq<string>): seq<string>
  {
    if lines == [] then []
    else Kept(lines[..|lines| - 1])
         + (if Strip(lines[|lines| - 1]) != "" then [Strip(lines[|lines| - 1])] else [])
  }

  /** The text `normalize_whitespace` and `strip_empty_lines` return. */
  function Normalize(text: string): string
  {
    Join(Kept(SplitLines(text)), "\n")
  }

  /** A text in normal form: the "\n"-join of its own lines, each a normal line. */
  predicate IsNormalForm(r: string)
  {
    r == Join(SplitLines(r), "\n")
    && forall k :: 0 <= k < |SplitLines(r)| ==> IsNormalLine(SplitLines(r)[k])
  }

  // ---------------------------------------------------------------------
  // Splitting

  lemma {:induction false} SplitFromNoBreak(s: string, cur: string)
    requires NoBreak(cur)
    ensures forall k :: 0 <= k < |SplitFrom(s, cur)| ==> NoBreak(SplitFrom(s, cur)[k])
    decreases |s|
  {
    if s == [] {
    } else if IsLineBreak(s[0]) {
      var rest := if s[0] == '\r' && |s| > 1 && s[1] == '\n' then s[2..] else s[1..];
      SplitFromNoBreak(rest, "");
    } else {
      SplitFromNoBreak(s[1..], cur + [s[0]]);
    }
  }

  /** No line that `splitlines` returns contains a break. */
  lemma SplitLinesNoBreak(s: string)
    ensures forall k :: 0 <= k < |SplitLines(s)| ==> NoBreak(SplitLines(s)[k])
  {
    SplitFromNoBreak(s, "");
  }

  lemma {:induction false} SplitFromSkipsLine(l: string, rest: string, cur: string)
    requires NoBreak(l)
    ensures SplitFrom(l + rest, cur) == SplitFrom(rest, cur + l)
    decreases |l|
  {
    if l != [] {
      assert (l + rest)[1..] == l[1..] + rest;
      SplitFromSkipsLine(l[1..], rest, cur + [l[0]]);
      assert cur + [l[0]] + l[1..] == cur + l;
    } else {
      assert l + rest == rest;
      assert cur + l == cur;
    }
  }

  /** Splitting a "\n"-join of non-empty, break-free lines gives the lines back. */
  lemma {:induction false} SplitJoin(ls: seq<string>)
    requires forall k :: 0 <= k < |ls| ==> ls[k] != [] && NoBreak(ls[k])
    ensures SplitLines(Join(ls, "\n")) == ls
  {
    if |ls| == 1 {
      SplitFromSkipsLine(ls[0], "", "");
      assert ls[0] + "" == ls[0];
    } else if |ls| > 1 {
      var j := Join(ls[1..], "\n");
      assert Join(ls, "\n") == ls[0] + ("\n" + j);
      SplitFromSkipsLine(ls[0], "\n" + j, "");
      assert "" + ls[0] == ls[0];
      assert ("\n" + j)[1..] == j;
      SplitJoin(ls[1..]);
    }
  }

  // ---------------------------------------------------------------------
  // Stripping

  lemma {:induction false} TrimLeftIsSuffix(s: string)
    ensures exists i :: 0 <= i <= |s| && TrimLeft(s) == s[i..]
    ensures TrimLeft(s) == [] || !IsSpace(TrimLeft(s)[0])
  {
    if s != [] && IsSpace(s[0]) {
      TrimLeftIsSuffix(s[1..]);
      var i :| 0 <= i <= |s[1..]| && TrimLeft(s[1..]) == s[1..][i..];
      assert s[1..][i..] == s[i + 1..];
    } else {
      assert s == s[0..];
    }
  }

  lemma {:induction false} TrimRightIsPrefix(s: string)
    ensures exists j :: 0 <= j <= |s| && TrimRight(s) == s[..j]
    ensures TrimRight(s) == [] || !IsSpace(TrimRight(s)[|TrimRight(s)| - 1])
    ensures s != [] && !IsSpace(s[0]) ==> TrimRight(s) != [] && TrimRight(s)[0] == s[0]
  {
    if s != [] && IsSpace(s[|s| - 1]) {
      TrimRightIsPrefix(s[..|s| - 1]);
      var j :| 0 <= j <= |s[..|s| - 1]| && TrimRight(s[..|s| - 1]) == s[..|s| - 1][..j];
      assert s[..|s| - 1][..j] == s[..j];
    } else {
      assert s == s[..|s|];
    }
  }

  /** `strip` returns a piece of its argument with no whitespace at either end. */
  lemma StripIsTrimmedPiece(s: string)
    ensures exists i, j :: 0 <= i <= j <= |s| && Strip(s) == s[i..j]
    ensures Strip(s) == [] || (!IsSpace(Strip(s)[0]) && !IsSpace(Strip(s)[|Strip(s)| - 1]))
  {
    TrimLeftIsSuffix(s);
    var i :| 0 <= i <= |s| && TrimLeft(s) == s[i..];
    TrimRightIsPrefix(s[i..]);
    var j :| 0 <= j <= |s[i..]| && TrimRight(s[i..]) == s[i..][..j];
    assert s[i..][..j] == s[i..i + j];
  }

  lemma StripNoBreak(s: string)
    requires NoBreak(s)
    ensures NoBreak(Strip(s))
  {
    StripIsTrimmedPiece(s);
    var i, j :| 0 <= i <= j <= |s| && Strip(s) == s[i..j];
    assert forall k :: 0 <= k < j - i ==> Strip(s)[k] == s[i + k];
  }

  /** A line with no whitespace at either end is its own strip. */
  lemma StripNormalLine(l: string)
    requires IsNormalLine(l)
    ensures Strip(l) == l
  {
  }

  // ---------------------------------------------------------------------
  // Keeping

  lemma {:induction false} KeptConcat(a: seq<string>, b: seq<string>)
    ensures Kept(a + b) == Kept(a) + Kept(b)
    decreases |b|
  {
    if b == [] {
      assert a + b == a;
    } else {
      var b' := b[..|b| - 1];
      assert (a + b)[..|a + b| - 1] == a + b';
      KeptConcat(a, b');
    }
  }

  /** Every line the normalisers keep is a normal line when its source had no break. */
  lemma {:induction false} KeptAreNormal(lines: seq<string>)
    requires forall k :: 0 <= k < |lines| ==> NoBreak(lines[k])
    ensures forall k :: 0 <= k < |Kept(lines)| ==> IsNormalLine(Kept(lines)[k])
  {
    if lines != [] {
      KeptAreNormal(lines[..|lines| - 1]);
      var last := lines[|lines| - 1];
      StripIsTrimmedPiece(last);
      StripNoBreak(last);
    }
  }

  /** Keeping normal lines changes nothing. */
  lemma {:induction false} KeptOfNormal(lines: seq<string>)
    requires forall k :: 0 <= k < |lines| ==> IsNormalLine(lines[k])
    ensures Kept(lines) == lines
  {
    if lines != [] {
      KeptOfNormal(lines[..|lines| - 1]);
      StripNormalLine(lines[|lines| - 1]);
    }
  }

  // ---------------------------------------------------------------------
  // The normal form

  /** The lines of the output are exactly the stripped, non-blank input
      lines, in input order; each is a normal line. */
  lemma NormalizeLines(text: string)
    ensures SplitLines(Normalize(text)) == Kept(SplitLines(text))
    ensures forall k :: 0 <= k < |Kept(SplitLines(text))| ==> IsNormalLine(Kept(SplitLines(text))[k])
  {
    SplitLinesNoBreak(text);
    KeptAreNormal(SplitLines(text));
    SplitJoin(Kept(SplitLines(text)));
  }

  /** The output is in normal form: no blank line, no padded line, no
      trailing newline. */
  lemma NormalizeIsNormalForm(text: string)
    ensures IsNormalForm(Normalize(text))
  {
    NormalizeLines(text);
  }

  /** A normal-form text is left unchanged. */
  lemma NormalFormIsFixed(r: string)
    requires IsNormalForm(r)
    ensures Normalize(r) == r
  {
    KeptOfNormal(SplitLines(r));
  }

  /** Normalising twice is normalising once. */
  lemma NormalizeIdempotent(text: string)
    ensures Normalize(Normalize(text)) == Normalize(text)
  {
    NormalizeIsNormalForm(text);
    NormalFormIsFixed(Normalize(text));
  }

  /** A normal-form text never ends in a newline and is empty exactly when
      it has no lines. */
  lemma NormalFormEnds(r: string)
    requires IsNormalForm(r)
    ensures r == "" <==> SplitLines(r) == []
    ensures r != "" ==> !IsSpace(r[|r| - 1])
  {
    var ls := SplitLines(r);
    if ls != [] {
      JoinEndsWithLast(ls, "\n");
      assert r[|r| - 1] == ls[|ls| - 1][|ls[|ls| - 1]| - 1];
    }
  }
}

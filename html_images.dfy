/** exchange_changelog/html.py: `remove_base64_image`, a `re.sub` with the
    pattern `!\[.*?\]\(data:image\/.*?;base64,.*?\)` and an empty
    replacement. The regular expression is written out as a matcher with
    Python's backtracking order: each lazy `.*?` first tries the rest of
    the pattern and only then takes one more character, and `.` matches
    every character except a line feed.

    The matcher is written over the three literal pieces of the pattern,
    held in a `Pieces` value; `Base64Image` holds the ones the source
    uses, and the general lemmas ask only for the few facts about those
    pieces that their proofs need (`Shaped`). */
module HtmlImages {
  import opened Wrappers
  import opened Strings
  import opened Seqs

  /** The literal pieces of `!\[` `.*?` `\]\(data:image\/` `.*?`
      `;base64,` `.*?\)`. */
  datatype Pieces = Pieces(open: string, target: string, mark: string)

  const Base64Image: Pieces := Pieces("![", "](data:image/", ";base64,")

  /** What the proofs need of the pieces: each starts with the character
      that the text around it is checked against, and none holds a line
      feed. */
  predicate Shaped(p: Pieces)
  {
    && p.open != [] && p.open[0] == '!'
    && p.target != [] && p.target[0] == ']'
    && p.mark != [] && p.mark[0] == ';'
    && '\n' !in p.open && '\n' !in p.target && '\n' !in p.mark
  }

  lemma Base64ImageShaped()
    ensures Shaped(Base64Image)
  {
  }

  /** `piece` occurs in `s` starting at index `i`, stated character by
      character. */
  predicate PieceAt(s: string, i: int, piece: string)
  {
    0 <= i && i + |piece| <= |s| && forall x :: i <= x < i + |piece| ==> s[x] == piece[x - i]
  }

  /** No line feed in `s[a..b]`. */
  predicate NoNewline(s: string, a: int, b: int)
    requires 0 <= a <= b <= |s|
  {
    forall k :: a <= k < b ==> s[k] != '\n'
  }

  /** `.*?\)` from index `j`: the end of the span up to the first `)`,
      unless a line feed or the end of the text comes first. */
  function CloseParen(s: string, j: nat): (r: Option<nat>)
    requires j <= |s|
    decreases |s| - j
    ensures r.Some? ==> j < r.value <= |s| && s[r.value - 1] == ')'
  {
    if j == |s| || s[j] == '\n' then None
    else if s[j] == ')' then Some(j + 1)
    else CloseParen(s, j + 1)
  }

  /** `.*?;base64,.*?\)` from index `j`. */
  function MarkPart(p: Pieces, s: string, j: nat): (r: Option<nat>)
    requires j <= |s|
    decreases |s| - j
    ensures r.Some? ==> j < r.value <= |s|
  {
    if PieceAt(s, j, p.mark) && CloseParen(s, j + |p.mark|).Some? then
      CloseParen(s, j + |p.mark|)
    else if j == |s| || s[j] == '\n' then None
    else MarkPart(p, s, j + 1)
  }

  /** `.*?\]\(data:image\/.*?;base64,.*?\)` from index `j`. */
  function TargetPart(p: Pieces, s: string, j: nat): (r: Option<nat>)
    requires j <= |s|
    decreases |s| - j
    ensures r.Some? ==> j < r.value <= |s|
  {
    if PieceAt(s, j, p.target) && MarkPart(p, s, j + |p.target|).Some? then
      MarkPart(p, s, j + |p.target|)
    else if j == |s| || s[j] == '\n' then None
    else TargetPart(p, s, j + 1)
  }

  /** The end of the pattern's match starting at index `i`, if any. */
  function MatchAt(p: Pieces, s: string, i: nat): (r: Option<nat>)
    requires i <= |s|
    ensures r.Some? ==> i < r.value <= |s| && PieceAt(s, i, p.open)
  {
    if PieceAt(s, i, p.open) then TargetPart(p, s, i + |p.open|) else None
  }

  /** `re.sub(pattern, "", s[i..])` scanning from index `i`: a match is
      dropped and the scan resumes after it; otherwise the character is
      kept and the scan moves on by one. */
  function RemoveFrom(p: Pieces, s: string, i: nat): (r: string)
    requires i <= |s|
    decreases |s| - i
    ensures |r| <= |s| - i
  {
    if i == |s| then ""
    else match MatchAt(p, s, i)
      case Some(e) => RemoveFrom(p, s, e)
      case None => [s[i]] + RemoveFrom(p, s, i + 1)
  }

  /** `remove_base64_image`. */
  function RemoveBase64Image(text: string): (r: string)
    ensures |r| <= |text|
  {
    RemoveFrom(Base64Image, text, 0)
  }

  // ---------------------------------------------------------------------
  // Nothing is added and no line is joined

  lemma {:induction false} CloseParenNoNewline(s: string, j: nat)
    requires j <= |s|
    decreases |s| - j
    ensures CloseParen(s, j).Some? ==> NoNewline(s, j, CloseParen(s, j).value)
  {
    if j < |s| && s[j] != '\n' && s[j] != ')' {
      CloseParenNoNewline(s, j + 1);
    }
  }

  /** A literal piece without line feeds leaves none in the text it
      occurs in. */
  lemma PieceNoNewline(s: string, j: nat, piece: string)
    requires PieceAt(s, j, piece) && '\n' !in piece
    ensures NoNewline(s, j, j + |piece|)
  {
    forall k | j <= k < j + |piece|
      ensures s[k] != '\n'
    {
      assert piece[k - j] in piece;
    }
  }

  lemma {:induction false} MarkPartNoNewline(p: Pieces, s: string, j: nat)
    requires Shaped(p) && j <= |s|
    decreases |s| - j
    ensures MarkPart(p, s, j).Some? ==> NoNewline(s, j, MarkPart(p, s, j).value)
  {
    if PieceAt(s, j, p.mark) && CloseParen(s, j + |p.mark|).Some? {
      CloseParenNoNewline(s, j + |p.mark|);
      PieceNoNewline(s, j, p.mark);
    } else if j < |s| && s[j] != '\n' {
      MarkPartNoNewline(p, s, j + 1);
    }
  }

  lemma {:induction false} TargetPartNoNewline(p: Pieces, s: string, j: nat)
    requires Shaped(p) && j <= |s|
    decreases |s| - j
    ensures TargetPart(p, s, j).Some? ==> NoNewline(s, j, TargetPart(p, s, j).value)
  {
    if PieceAt(s, j, p.target) && MarkPart(p, s, j + |p.target|).Some? {
      MarkPartNoNewline(p, s, j + |p.target|);
      PieceNoNewline(s, j, p.target);
    } else if j < |s| && s[j] != '\n' {
      TargetPartNoNewline(p, s, j + 1);
    }
  }

  /** A match never spans a line feed, because `.` does not match one. */
  lemma MatchNoNewline(p: Pieces, s: string, i: nat)
    requires Shaped(p) && i <= |s|
    ensures MatchAt(p, s, i).Some? ==> NoNewline(s, i, MatchAt(p, s, i).value)
  {
    if PieceAt(s, i, p.open) {
      TargetPartNoNewline(p, s, i + |p.open|);
      PieceNoNewline(s, i, p.open);
    }
  }

  /** The characters from `i` on are those of `s[i..e]` and those from `e` on. */
  lemma MultisetDropSplit(s: string, i: nat, e: nat)
    requires i <= e <= |s|
    ensures multiset(s[i..]) == multiset(s[i..e]) + multiset(s[e..])
  {
    assert s[i..] == s[i..e] + s[e..];
  }

  /** The characters from `i` on are `s[i]` and those from `i + 1` on. */
  lemma MultisetDropFirst(s: string, i: nat)
    requires i < |s|
    ensures multiset(s[i..]) == multiset{s[i]} + multiset(s[i + 1..])
  {
    assert s[i..] == [s[i]] + s[i + 1..];
  }

  /** A span without line feeds counts none. */
  lemma NoNewlineCount(s: string, i: nat, e: nat)
    requires i <= e <= |s| && NoNewline(s, i, e)
    ensures multiset(s[i..e])['\n'] == 0
  {
    assert '\n' !in s[i..e];
  }

  lemma {:induction false} RemoveFromSubset(p: Pieces, s: string, i: nat)
    requires i <= |s|
    decreases |s| - i
    ensures multiset(RemoveFrom(p, s, i)) <= multiset(s[i..])
  {
    if i < |s| {
      var m := MatchAt(p, s, i);
      if m.Some? {
        var e := m.value;
        RemoveFromSubset(p, s, e);
        MultisetDropSplit(s, i, e);
      } else {
        RemoveFromSubset(p, s, i + 1);
        MultisetDropFirst(s, i);
      }
    }
  }

  lemma {:induction false} RemoveFromNewlines(p: Pieces, s: string, i: nat)
    requires Shaped(p) && i <= |s|
    decreases |s| - i
    ensures multiset(RemoveFrom(p, s, i))['\n'] == multiset(s[i..])['\n']
  {
    if i < |s| {
      var m := MatchAt(p, s, i);
      if m.Some? {
        var e := m.value;
        RemoveFromNewlines(p, s, e);
        MultisetDropSplit(s, i, e);
        MatchNoNewline(p, s, i);
        NoNewlineCount(s, i, e);
      } else {
        RemoveFromNewlines(p, s, i + 1);
        MultisetDropFirst(s, i);
      }
    }
  }

  /** The result only loses characters: its multiset of characters is
      contained in the input's, and every line feed survives, because no
      match spans a line feed. */
  lemma RemoveKeepsLines(text: string)
    ensures multiset(RemoveBase64Image(text)) <= multiset(text)
    ensures multiset(RemoveBase64Image(text))['\n'] == multiset(text)['\n']
  {
    Base64ImageShaped();
    RemoveFromSubset(Base64Image, text, 0);
    RemoveFromNewlines(Base64Image, text, 0);
    assert text[0..] == text;
  }

  /** The characters `RemoveFrom` keeps, scanning from `i`, sit at
      increasing positions of `s` from `i` on. */
  lemma {:induction false} RemoveFromEmbeds(p: Pieces, s: string, i: nat) returns (idx: seq<int>)
    requires i <= |s|
    decreases |s| - i
    ensures Embeds(idx, RemoveFrom(p, s, i), s)
    ensures forall k :: 0 <= k < |idx| ==> i <= idx[k]
  {
    if i == |s| {
      idx := [];
    } else {
      var m := MatchAt(p, s, i);
      if m.Some? {
        idx := RemoveFromEmbeds(p, s, m.value);
      } else {
        var rest := RemoveFromEmbeds(p, s, i + 1);
        idx := [i] + rest;
        var r := RemoveFrom(p, s, i + 1);
        assert RemoveFrom(p, s, i) == [s[i]] + r;
        assert forall k :: 1 <= k < |idx| ==> idx[k] == rest[k - 1];
      }
    }
  }

  /** The result is the input with some pieces deleted: the kept characters
      appear in the input in the same order. */
  lemma RemoveIsSubsequence(text: string)
    ensures IsSubsequence(RemoveBase64Image(text), text)
  {
    var idx := RemoveFromEmbeds(Base64Image, text, 0);
  }

  // ---------------------------------------------------------------------
  // Text without a match is returned unchanged

  lemma {:induction false} NoMatchUnchangedFrom(p: Pieces, s: string, i: nat)
    requires i <= |s|
    requires forall j :: i <= j < |s| ==> MatchAt(p, s, j).None?
    decreases |s| - i
    ensures RemoveFrom(p, s, i) == s[i..]
  {
    if i < |s| {
      NoMatchUnchangedFrom(p, s, i + 1);
      assert s[i..] == [s[i]] + s[i + 1..];
    }
  }

  /** When the pattern matches nowhere the text comes back as it was. */
  lemma NoMatchUnchanged(text: string)
    requires forall j :: 0 <= j < |text| ==> MatchAt(Base64Image, text, j).None?
    ensures RemoveBase64Image(text) == text
  {
    NoMatchUnchangedFrom(Base64Image, text, 0);
    assert text[0..] == text;
  }

  lemma {:induction false} NoMarkNoMarkPart(p: Pieces, s: string, j: nat)
    requires j <= |s|
    requires forall k :: j <= k < |s| ==> !PieceAt(s, k, p.mark)
    decreases |s| - j
    ensures MarkPart(p, s, j).None?
  {
    if j < |s| && s[j] != '\n' {
      NoMarkNoMarkPart(p, s, j + 1);
    }
  }

  lemma {:induction false} NoMarkNoTargetPart(p: Pieces, s: string, j: nat)
    requires j <= |s|
    requires forall k :: j <= k < |s| ==> !PieceAt(s, k, p.mark)
    decreases |s| - j
    ensures TargetPart(p, s, j).None?
  {
    if PieceAt(s, j, p.target) {
      NoMarkNoMarkPart(p, s, j + |p.target|);
    }
    if j < |s| && s[j] != '\n' {
      NoMarkNoTargetPart(p, s, j + 1);
    }
  }

  /** Text without `![`, such as plain prose, is returned unchanged. */
  lemma NoImageOpenUnchanged(text: string)
    requires forall j :: 0 <= j < |text| ==> !PieceAt(text, j, Base64Image.open)
    ensures RemoveBase64Image(text) == text
  {
    NoMatchUnchanged(text);
  }

  /** Text without `;base64,`, such as an ordinary image link, is returned
      unchanged. */
  lemma NoBase64Unchanged(text: string)
    requires forall j :: 0 <= j < |text| ==> !PieceAt(text, j, Base64Image.mark)
    ensures RemoveBase64Image(text) == text
  {
    forall j | 0 <= j < |text|
      ensures MatchAt(Base64Image, text, j).None?
    {
      if PieceAt(text, j, Base64Image.open) {
        NoMarkNoTargetPart(Base64Image, text, j + |Base64Image.open|);
      }
    }
    NoMatchUnchanged(text);
  }

  // ---------------------------------------------------------------------
  // An embedded image is deleted and the text around it is kept

  /** A markdown image whose target is a base64 `data:image/` URL. */
  function ImageLink(p: Pieces, alt: string, mime: string, data: string): string
  {
    p.open + (alt + (p.target + (mime + (p.mark + (data + ")")))))
  }

  /** The parts of an image link the lazy groups can skip over without
      stopping early: no line feed, and no `]`, `;` or `)` that could end
      the alt text, the subtype or the data too soon. */
  predicate PlainImage(alt: string, mime: string, data: string)
  {
    && '\n' !in alt && ']' !in alt
    && '\n' !in mime && ';' !in mime
    && '\n' !in data && ')' !in data
  }

  /** `piece + rest` at `j` means `piece` at `j` and `rest` right after. */
  lemma OccursAfter(s: string, j: nat, piece: string, rest: string)
    requires PieceAt(s, j, piece + rest)
    ensures PieceAt(s, j, piece)
    ensures PieceAt(s, j + |piece|, rest)
  {
    forall x | j + |piece| <= x < j + |piece| + |rest|
      ensures s[x] == rest[x - (j + |piece|)]
    {
      assert s[x] == (piece + rest)[x - j];
    }
  }

  /** Neither `c` nor a line feed occurs in `s[j..k]`. */
  predicate Avoids(s: string, j: int, k: int, c: char)
    requires 0 <= j <= k <= |s|
  {
    forall x :: j <= x < k ==> s[x] != c && s[x] != '\n'
  }

  lemma PieceAvoids(s: string, j: nat, t: string, c: char)
    requires PieceAt(s, j, t) && c !in t && '\n' !in t
    ensures Avoids(s, j, j + |t|, c)
  {
    forall x | j <= x < j + |t|
      ensures s[x] != c && s[x] != '\n'
    {
      assert t[x - j] in t;
    }
  }

  /** A piece cannot occur where the text holds a different first
      character. */
  lemma NotPieceAt(s: string, j: nat, t: string)
    requires j < |s| && t != [] && s[j] != t[0]
    ensures !PieceAt(s, j, t)
  {
  }

  /** The lazy `.*?\)` stops at the first `)`. */
  lemma {:induction false} CloseParenOver(s: string, j: nat, k: nat)
    requires j <= k < |s| && Avoids(s, j, k, ')') && s[k] == ')'
    decreases k - j
    ensures CloseParen(s, j) == Some(k + 1)
  {
    if j < k {
      CloseParenOver(s, j + 1, k);
    }
  }

  /** The lazy group before `;base64,` skips characters other than `;`. */
  lemma {:induction false} MarkPartOver(p: Pieces, s: string, j: nat, k: nat, e: nat)
    requires Shaped(p) && j <= k <= |s| && Avoids(s, j, k, ';')
    requires PieceAt(s, k, p.mark) && CloseParen(s, k + |p.mark|) == Some(e)
    decreases k - j
    ensures MarkPart(p, s, j) == Some(e)
  {
    if j < k {
      NotPieceAt(s, j, p.mark);
      MarkPartOver(p, s, j + 1, k, e);
    }
  }

  /** The lazy alt-text group skips characters other than `]`. */
  lemma {:induction false} TargetPartOver(p: Pieces, s: string, j: nat, k: nat, e: nat)
    requires Shaped(p) && j <= k <= |s| && Avoids(s, j, k, ']')
    requires PieceAt(s, k, p.target) && MarkPart(p, s, k + |p.target|) == Some(e)
    decreases k - j
    ensures TargetPart(p, s, j) == Some(e)
  {
    if j < k {
      NotPieceAt(s, j, p.target);
      TargetPartOver(p, s, j + 1, k, e);
    }
  }

  /** A link laid out piece by piece from index `i`: the pieces at their
      positions `k1`..`k6`, the free-text groups free of the character that
      would stop them early. */
  lemma MatchLaidOut(p: Pieces, s: string, i: nat, k1: nat, k2: nat, k3: nat, k4: nat, k5: nat, k6: nat)
    requires Shaped(p) && i <= k1 <= k2 <= k3 <= k4 <= k5 <= k6 < |s|
    requires PieceAt(s, i, p.open) && k1 == i + |p.open|
    requires Avoids(s, k1, k2, ']') && PieceAt(s, k2, p.target) && k3 == k2 + |p.target|
    requires Avoids(s, k3, k4, ';') && PieceAt(s, k4, p.mark) && k5 == k4 + |p.mark|
    requires Avoids(s, k5, k6, ')') && s[k6] == ')'
    ensures MatchAt(p, s, i) == Some(k6 + 1)
  {
    CloseParenOver(s, k5, k6);
    MarkPartOver(p, s, k3, k4, k6 + 1);
    TargetPartOver(p, s, k1, k2, k6 + 1);
  }

  /** The seven pieces of `a + (b + (c + (d + (e + (f + g)))))` at `i`,
      each at its place `i`, `k1`, ..., `k6`. */
  lemma SevenPieces(s: string, i: nat, a: string, b: string, c: string, d: string, e: string, f: string, g: string,
                    k1: nat, k2: nat, k3: nat, k4: nat, k5: nat, k6: nat)
    requires PieceAt(s, i, a + (b + (c + (d + (e + (f + g))))))
    requires k1 == i + |a| && k2 == k1 + |b| && k3 == k2 + |c| && k4 == k3 + |d| && k5 == k4 + |e| && k6 == k5 + |f|
    ensures PieceAt(s, i, a) && PieceAt(s, k1, b) && PieceAt(s, k2, c) && PieceAt(s, k3, d)
    ensures PieceAt(s, k4, e) && PieceAt(s, k5, f) && PieceAt(s, k6, g)
  {
    OccursAfter(s, i, a, b + (c + (d + (e + (f + g)))));
    OccursAfter(s, k1, b, c + (d + (e + (f + g))));
    OccursAfter(s, k2, c, d + (e + (f + g)));
    OccursAfter(s, k3, d, e + (f + g));
    OccursAfter(s, k4, e, f + g);
    OccursAfter(s, k5, f, g);
  }

  /** The pattern matches an image link exactly: the match starting at the
      link ends where the link ends. */
  lemma MatchImageAt(p: Pieces, s: string, i: nat, alt: string, mime: string, data: string)
    requires Shaped(p) && PlainImage(alt, mime, data)
    requires PieceAt(s, i, ImageLink(p, alt, mime, data))
    ensures MatchAt(p, s, i) == Some(i + |ImageLink(p, alt, mime, data)|)
  {
    var k1 := i + |p.open|;
    var k2 := k1 + |alt|;
    var k3 := k2 + |p.target|;
    var k4 := k3 + |mime|;
    var k5 := k4 + |p.mark|;
    var k6 := k5 + |data|;
    SevenPieces(s, i, p.open, alt, p.target, mime, p.mark, data, ")", k1, k2, k3, k4, k5, k6);
    assert s[k6] == ')';
    PieceAvoids(s, k1, alt, ']');
    PieceAvoids(s, k3, mime, ';');
    PieceAvoids(s, k5, data, ')');
    MatchLaidOut(p, s, i, k1, k2, k3, k4, k5, k6);
  }

  /** The whole link is deleted and the scan resumes right after it, at
      index `e`. */
  lemma DeleteImageAt(p: Pieces, s: string, i: nat, alt: string, mime: string, data: string, e: nat)
    requires Shaped(p) && PlainImage(alt, mime, data)
    requires PieceAt(s, i, ImageLink(p, alt, mime, data)) && e == i + |ImageLink(p, alt, mime, data)|
    ensures RemoveFrom(p, s, i) == RemoveFrom(p, s, e)
  {
    MatchImageAt(p, s, i, alt, mime, data);
  }

  /** A character other than `!` cannot start a match and is kept. */
  lemma KeepPlainChar(p: Pieces, s: string, i: nat)
    requires Shaped(p) && i < |s| && s[i] != '!'
    ensures RemoveFrom(p, s, i) == [s[i]] + RemoveFrom(p, s, i + 1)
  {
    assert !PieceAt(s, i, p.open);
  }

  /** A piece at `i` is its first character at `i` and the rest of it
      right after; a character missing from the piece is missing from its
      rest. */
  lemma PieceAtRest(s: string, i: nat, t: string, c: char)
    requires PieceAt(s, i, t) && t != [] && c !in t
    ensures s[i] == t[0] && PieceAt(s, i + 1, t[1..]) && c !in t[1..]
    ensures t == [t[0]] + t[1..]
  {
    forall x | i + 1 <= x < i + 1 + |t[1..]|
      ensures s[x] == t[1..][x - (i + 1)]
    {
      assert s[x] == t[x - i];
    }
    assert forall x :: x in t[1..] ==> x in t;
  }

  /** Text without `!` is kept as it is, character by character, and the
      scan goes on at index `e`, right after it. */
  lemma {:induction false} KeepPlainText(p: Pieces, s: string, i: nat, t: string, e: nat)
    requires Shaped(p) && PieceAt(s, i, t) && '!' !in t && e == i + |t|
    decreases |t|
    ensures RemoveFrom(p, s, i) == t + RemoveFrom(p, s, e)
  {
    if t != [] {
      var rest := t[1..];
      PieceAtRest(s, i, t, '!');
      KeepPlainChar(p, s, i);
      KeepPlainText(p, s, i + 1, rest, e);
      AppendAssoc([t[0]], rest, RemoveFrom(p, s, e));
    }
  }

  /** From index `i`: text without `!`, an image, more text without `!`.
      The image goes, both pieces of text are kept and the scan goes on at
      `k3`, where the second piece ends. */
  lemma DeleteBetween(p: Pieces, s: string, i: nat, before: string, alt: string, mime: string, data: string,
                      after: string, k1: nat, k2: nat, k3: nat)
    requires Shaped(p) && PlainImage(alt, mime, data) && '!' !in before && '!' !in after
    requires PieceAt(s, i, before) && k1 == i + |before|
    requires PieceAt(s, k1, ImageLink(p, alt, mime, data)) && k2 == k1 + |ImageLink(p, alt, mime, data)|
    requires PieceAt(s, k2, after) && k3 == k2 + |after|
    ensures RemoveFrom(p, s, i) == before + (after + RemoveFrom(p, s, k3))
  {
    KeepPlainText(p, s, i, before, k1);
    DeleteImageAt(p, s, k1, alt, mime, data, k2);
    KeepPlainText(p, s, k2, after, k3);
  }

  /** The pieces of `s == a + (b + c)` at their places `0`, `k1`, `k2`. */
  lemma ThreeParts(s: string, a: string, b: string, c: string, k1: nat, k2: nat)
    requires s == a + (b + c) && k1 == |a| && k2 == k1 + |b|
    ensures PieceAt(s, 0, a) && PieceAt(s, k1, b) && PieceAt(s, k2, c) && |s| == k2 + |c|
  {
  }

  /** One image between two pieces of text: the image goes and the text
      around it is kept verbatim. */
  lemma DeleteOneImageWith(p: Pieces, before: string, alt: string, mime: string, data: string, after: string)
    requires Shaped(p) && PlainImage(alt, mime, data)
    requires '!' !in before && '!' !in after
    ensures RemoveFrom(p, before + (ImageLink(p, alt, mime, data) + after), 0) == before + after
  {
    var link := ImageLink(p, alt, mime, data);
    var s := before + (link + after);
    ThreeParts(s, before, link, after, |before|, |before| + |link|);
    DeleteBetween(p, s, 0, before, alt, mime, data, after, |before|, |before| + |link|, |s|);
    assert after + "" == after;
  }

  lemma DeleteOneImage(before: string, alt: string, mime: string, data: string, after: string)
    requires PlainImage(alt, mime, data)
    requires '!' !in before && '!' !in after
    ensures RemoveBase64Image(before + (ImageLink(Base64Image, alt, mime, data) + after)) == before + after
  {
    Base64ImageShaped();
    DeleteOneImageWith(Base64Image, before, alt, mime, data, after);
  }

  /** The pieces of `s == a + (b + (c + d))` at their places `0`, `k1`,
      `k2`, `k3`. */
  lemma FourParts(s: string, a: string, b: string, c: string, d: string, k1: nat, k2: nat, k3: nat)
    requires s == a + (b + (c + d)) && k1 == |a| && k2 == k1 + |b| && k3 == k2 + |c|
    ensures PieceAt(s, 0, a) && PieceAt(s, k1, b) && PieceAt(s, k2, c) && PieceAt(s, k3, d)
    ensures |s| == k3 + |d|
  {
  }

  /** Two images, each deleted on its own; the text before and between
      them is kept. */
  lemma DeleteTwoImagesWith(p: Pieces, t1: string, alt1: string, mime1: string, data1: string,
                            t2: string, alt2: string, mime2: string, data2: string)
    requires Shaped(p) && PlainImage(alt1, mime1, data1) && PlainImage(alt2, mime2, data2)
    requires '!' !in t1 && '!' !in t2
    ensures RemoveFrom(p, t1 + (ImageLink(p, alt1, mime1, data1) + (t2 + ImageLink(p, alt2, mime2, data2))), 0)
         == t1 + t2
  {
    var l1 := ImageLink(p, alt1, mime1, data1);
    var l2 := ImageLink(p, alt2, mime2, data2);
    var s := t1 + (l1 + (t2 + l2));
    var k1 := |t1|;
    var k2 := k1 + |l1|;
    var k3 := k2 + |t2|;
    FourParts(s, t1, l1, t2, l2, k1, k2, k3);
    DeleteBetween(p, s, 0, t1, alt1, mime1, data1, t2, k1, k2, k3);
    DeleteImageAt(p, s, k3, alt2, mime2, data2, |s|);
    assert t2 + "" == t2;
  }

  lemma DeleteTwoImages(t1: string, alt1: string, mime1: string, data1: string,
                        t2: string, alt2: string, mime2: string, data2: string)
    requires PlainImage(alt1, mime1, data1) && PlainImage(alt2, mime2, data2)
    requires '!' !in t1 && '!' !in t2
    ensures RemoveBase64Image(t1 + (ImageLink(Base64Image, alt1, mime1, data1)
                              + (t2 + ImageLink(Base64Image, alt2, mime2, data2)))) == t1 + t2
  {
    Base64ImageShaped();
    DeleteTwoImagesWith(Base64Image, t1, alt1, mime1, data1, t2, alt2, mime2, data2);
  }
}

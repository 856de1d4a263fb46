/** String helpers shared by the renderers: Python's `sep.join(parts)`,
    plain concatenation of a list of pieces, prefixes, suffixes and the
    position at which each joined part lands. */
module Strings {

  /** Python's `sep.join(parts)`. */
  function Join(parts: seq<string>, sep: string): string
  {
    if |parts| == 0 then ""
    else if |parts| == 1 then parts[0]
    else parts[0] + sep + Join(parts[1..], sep)
  }

  /** Python's `"".join(parts)`, the result of `s += piece` over the pieces. */
  function Concat(parts: seq<string>): string
  {
    if parts == [] then "" else Concat(parts[..|parts| - 1]) + parts[|parts| - 1]
  }

  predicate StartsWith(s: string, prefix: string)
  {
    |prefix| <= |s| && s[..|prefix|] == prefix
  }

  predicate EndsWith(s: string, suffix: string)
  {
    |suffix| <= |s| && s[|s| - |suffix|..] == suffix
  }

  /** `part` occurs in `s` starting at index `i`. */
  predicate OccursAt(s: string, i: int, part: string)
  {
    0 <= i && i + |part| <= |s| && s[i..i + |part|] == part
  }

  /** Where the `k`-th part starts inside `Join(parts, sep)`. */
  function Offset(parts: seq<string>, sep: string, k: nat): nat
    requires k <= |parts|
  {
    if k == 0 then 0 else |parts[0]| + |sep| + Offset(parts[1..], sep, k - 1)
  }

  /** Every part of a join appears at its offset. */
  lemma {:induction false} JoinAt(parts: seq<string>, sep: string, k: nat)
    requires k < |parts|
    ensures OccursAt(Join(parts, sep), Offset(parts, sep, k), parts[k])
  {
    if k > 0 {
      JoinAt(parts[1..], sep, k - 1);
      var rest := Join(parts[1..], sep);
      var o := Offset(parts[1..], sep, k - 1);
      assert Join(parts, sep) == parts[0] + sep + rest;
      assert Join(parts, sep)[|parts[0]| + |sep| + o..|parts[0]| + |sep| + o + |parts[k]|]
          == rest[o..o + |parts[k]|];
    }
  }

  /** Later parts start after earlier parts and the separator between them. */
  lemma {:induction false} OffsetGrows(parts: seq<string>, sep: string, i: nat, j: nat)
    requires i < j < |parts|
    ensures Offset(parts, sep, i) + |parts[i]| + |sep| <= Offset(parts, sep, j)
  {
    if i > 0 {
      OffsetGrows(parts[1..], sep, i - 1, j - 1);
    } else if j > 1 {
      OffsetGrows(parts[1..], sep, 0, j - 1);
    }
  }

  /** Joining a non-empty list starts with its first part. */
  lemma {:induction false} JoinStartsWithFirst(parts: seq<string>, sep: string)
    requires |parts| > 0
    ensures StartsWith(Join(parts, sep), parts[0])
  {
    JoinAt(parts, sep, 0);
  }

  /** Joining a non-empty list ends with its last part. */
  lemma {:induction false} JoinEndsWithLast(parts: seq<string>, sep: string)
    requires |parts| > 0
    ensures EndsWith(Join(parts, sep), parts[|parts| - 1])
  {
    if |parts| > 1 {
      JoinEndsWithLast(parts[1..], sep);
      assert parts[1..][|parts| - 2] == parts[|parts| - 1];
    }
  }

  /** Concatenation regroups freely. */
  lemma AppendAssoc<T>(a: seq<T>, b: seq<T>, c: seq<T>)
    ensures a + b + c == a + (b + c)
  {
  }

  /** `a + b + c` starts with `a`, and what follows `a` is `b + c`. */
  lemma PrefixSplit(a: string, b: string, c: string)
    ensures StartsWith(a + b + c, a)
    ensures (a + b + c)[|a|..] == b + c
  {
    assert (a + b + c)[..|a|] == a;
  }

  /** A text built as `tag + a + b + c + d` starts with `tag`. */
  lemma StartsWithFirstPiece(s: string, tag: string, a: string, b: string, c: string, d: string)
    requires s == tag + a + b + c + d
    ensures StartsWith(s, tag)
  {
    assert s[..|tag|] == tag;
  }

  /** `p` occurs in `a + (b + (p + c))` right after `a + b`. */
  lemma OccursInMiddle(a: string, b: string, p: string, c: string)
    ensures OccursAt(a + (b + (p + c)), |a| + |b|, p)
  {
    var s := a + (b + (p + c));
    assert s[|a| + |b|..|a| + |b| + |p|] == p;
  }

  /** Two pieces that are each empty or end in a newline concatenate to
      one that is empty or ends in a newline. */
  lemma AppendEndsInNewline(a: string, b: string)
    requires a == "" || EndsWith(a, "\n")
    requires b == "" || EndsWith(b, "\n")
    ensures a + b == "" || EndsWith(a + b, "\n")
  {
    if b != "" {
      assert (a + b)[|a + b| - 1] == b[|b| - 1];
    } else {
      assert a + b == a;
    }
  }

  /** A text made of an optional header, then two more pieces, starts
      with `tag` exactly when the header is there, given that the header
      starts with `tag` and each piece that can come first otherwise starts
      with a different character. */
  lemma ConcatOptionalHeader(s: string, h: string, mid: string, tail: string,
                             hasHeader: bool, header: string, tag: string)
    requires s == h + mid + tail && tag != ""
    requires h == (if hasHeader then header else "") && StartsWith(header, tag)
    requires mid != "" ==> mid[0] != tag[0]
    requires mid == "" && tail != "" ==> tail[0] != tag[0]
    ensures StartsWith(s, tag) <==> hasHeader
    ensures hasHeader ==> StartsWith(s, header)
  {
    if hasHeader {
      assert s[..|header|] == header;
      assert s[..|tag|] == header[..|tag|];
    } else if mid != "" {
      assert s[0] == mid[0];
    } else if tail != "" {
      assert s[0] == tail[0];
    } else {
      assert s == "";
    }
  }

  /** A join `s` of blocks starts with `tag` exactly when its first block
      is the header, given that the header starts with `tag` and any other
      first block starts with a different character. */
  lemma JoinHeader(s: string, lines: seq<string>, sep: string, hasHeader: bool, header: string, tag: string)
    requires s == Join(lines, sep) && tag != ""
    requires hasHeader ==> lines != [] && lines[0] == header && StartsWith(header, tag)
    requires !hasHeader ==> lines == [] || (lines[0] != "" && lines[0][0] != tag[0])
    ensures StartsWith(s, tag) <==> hasHeader
    ensures hasHeader ==> StartsWith(s, header)
  {
    if lines != [] {
      JoinStartsWithFirst(lines, sep);
      if !hasHeader {
        assert s[0] == lines[0][0];
      } else {
        assert s[..|tag|] == header[..|tag|];
      }
    }
  }

  /** A join of an optional header block, then the other blocks, starts
      with `tag` exactly when the header is there, given that the header
      starts with `tag` and each of the two kinds of block that can come
      first otherwise starts with a different character. */
  lemma JoinOptionalHeader(s: string, lines: seq<string>, head: seq<string>, mid: seq<string>, tail: seq<string>,
                           sep: string, hasHeader: bool, header: string, tag: string)
    requires s == Join(lines, sep) && lines == head + mid + tail && tag != ""
    requires head == (if hasHeader then [header] else []) && StartsWith(header, tag)
    requires mid != [] ==> mid[0] != "" && mid[0][0] != tag[0]
    requires mid == [] && tail != [] ==> tail[0] != "" && tail[0][0] != tag[0]
    ensures StartsWith(s, tag) <==> hasHeader
    ensures hasHeader ==> StartsWith(s, header)
  {
    if hasHeader {
      assert lines[0] == header;
    } else if mid != [] {
      assert lines[0] == mid[0];
    } else if tail != [] {
      assert lines[0] == tail[0];
    } else {
      assert lines == [];
    }
    JoinHeader(s, lines, sep, hasHeader, header, tag);
  }

  /** A sequence is what comes before its `k`-th element, that element,
      and what comes after. */
  lemma SplitAround<T>(s: seq<T>, k: nat)
    requires k < |s|
    ensures s == s[..k] + [s[k]] + s[k + 1..]
  {
  }

  /** Concatenating `pre + [x] + rest` puts `x` between the two. */
  lemma ConcatThree(parts: seq<string>, pre: seq<string>, x: string, rest: seq<string>)
    requires parts == pre + [x] + rest
    ensures Concat(parts) == Concat(pre) + (x + Concat(rest))
  {
    ConcatSplit(pre + [x], rest);
    ConcatAppend(pre, x);
    AppendAssoc(Concat(pre), x, Concat(rest));
  }

  /** A concatenation splits around its `k`-th piece. */
  lemma ConcatAround(parts: seq<string>, k: nat)
    requires k < |parts|
    ensures Concat(parts) == Concat(parts[..k]) + (parts[k] + Concat(parts[k + 1..]))
  {
    SplitAround(parts, k);
    ConcatThree(parts, parts[..k], parts[k], parts[k + 1..]);
  }

  /** After a prefix `h`, each piece of a concatenation sits right after
      the pieces before it. */
  lemma ConcatOccurs(h: string, parts: seq<string>, k: nat)
    requires k < |parts|
    ensures OccursAt(h + Concat(parts), |h| + |Concat(parts[..k])|, parts[k])
  {
    ConcatAround(parts, k);
    OccursInMiddle(h, Concat(parts[..k]), parts[k], Concat(parts[k + 1..]));
  }

  /** Occurrence is preserved by replacing text, position and part with
      equal ones (a step the solver otherwise takes slowly). */
  lemma OccursAtEqual(s: string, i: int, part: string, s': string, i': int, part': string)
    requires OccursAt(s, i, part)
    requires s == s' && i == i' && part == part'
    ensures OccursAt(s', i', part')
  {
  }

  lemma ConcatOne(x: string)
    ensures Concat([x]) == x
  {
    assert Concat([x]) == Concat([]) + x;
  }

  lemma ConcatAppend(parts: seq<string>, last: string)
    ensures Concat(parts + [last]) == Concat(parts) + last
  {
    assert (parts + [last])[..|parts|] == parts;
  }

  lemma {:induction false} ConcatSplit(a: seq<string>, b: seq<string>)
    ensures Concat(a + b) == Concat(a) + Concat(b)
  {
    if b == [] {
      assert a + b == a;
    } else {
      var b' := b[..|b| - 1];
      assert a + b == (a + b') + [b[|b| - 1]];
      ConcatSplit(a, b');
      ConcatAppend(a + b', b[|b| - 1]);
      ConcatAppend(b', b[|b| - 1]);
      assert b' + [b[|b| - 1]] == b;
    }
  }

  /** A concatenation starts with its first non-skipped piece. */
  lemma ConcatStartsWith(first: string, rest: seq<string>)
    ensures StartsWith(Concat([first] + rest), first)
  {
    ConcatSplit([first], rest);
    assert Concat([first]) == Concat([]) + first;
  }

  /** The concatenation of pieces that all end in `suffix` ends in it too. */
  lemma ConcatEndsWith(parts: seq<string>, suffix: string)
    requires |parts| > 0
    requires EndsWith(parts[|parts| - 1], suffix)
    ensures EndsWith(Concat(parts), suffix)
  {
  }

  /** An occurrence inside an occurrence. */
  lemma OccursWithin(s: string, i: int, inner: string, j: int, part: string)
    requires OccursAt(s, i, inner) && OccursAt(inner, j, part)
    ensures OccursAt(s, i + j, part)
  {
    forall x | 0 <= x < |part|
      ensures s[i + j + x] == part[x]
    {
      assert part[x] == inner[j..j + |part|][x] == inner[j + x];
      assert inner[j + x] == s[i..i + |inner|][j + x];
    }
    assert s[i + j..i + j + |part|] == part;
  }

  /** In a join whose `i`-th part is itself a join, the `k`-th inner part
      lands at the outer offset plus the inner offset. */
  lemma NestedJoinAt(s: string, outer: seq<string>, sep: string, i: nat, inner: seq<string>, innerSep: string, k: nat)
    requires s == Join(outer, sep) && i < |outer| && k < |inner|
    requires outer[i] == Join(inner, innerSep)
    ensures OccursAt(s, Offset(outer, sep, i) + Offset(inner, innerSep, k), inner[k])
  {
    JoinAt(outer, sep, i);
    JoinAt(inner, innerSep, k);
    OccursWithin(s, Offset(outer, sep, i), outer[i], Offset(inner, innerSep, k), inner[k]);
  }

  /** The k-th of the blocks after `pre` sits at its offset `i` in the
      join `s` of `lines`, and the next block starts later. */
  lemma BlockInJoin(s: string, lines: seq<string>, pre: seq<string>, blocks: seq<string>, sep: string,
                    i: nat, k: nat, part: string)
    requires sep != "" && k < |blocks| && lines == pre + blocks && s == Join(lines, sep)
    requires i == |pre| + k && part == blocks[k]
    ensures OccursAt(s, Offset(lines, sep, i), part)
    ensures k + 1 < |blocks| ==> Offset(lines, sep, i) < Offset(lines, sep, i + 1)
  {
    assert lines[i] == part;
    JoinAt(lines, sep, i);
    if k + 1 < |blocks| {
      OffsetGrows(lines, sep, i, i + 1);
    }
  }
}

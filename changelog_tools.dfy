/** exchange_changelog/tools/changelog.py: dated changelog entries, their
    rendering with one `## date` heading per run of equal dates, and the
    recency filter that builds a new list. */
module ToolsChangelog {
  import opened Wrappers
  import opened Strings
  import opened Dates
  import opened Recency

  datatype ChangeLog = ChangeLog(date: string, markdownContent: string, keywords: seq<string>)

  function ChangeLogDate(c: ChangeLog): string
  {
    c.date
  }

  const HeadingMark: string := "## "
  const KeywordsLabel: string := "Keywords: "

  /** Item `k` is preceded by a heading when it is the first item or its
      date differs from the date of the item before it. */
  predicate HeadingBefore(items: seq<ChangeLog>, k: nat)
    requires k < |items|
  {
    k == 0 || items[k - 1].date != items[k].date
  }

  /** The pieces one item contributes: an optional heading, its content and
      an optional keywords piece. */
  function ItemPieces(item: ChangeLog, heading: bool): seq<string>
  {
    (if heading then [HeadingMark + item.date] else [])
    + [item.markdownContent]
    + (if item.keywords != [] then [KeywordsLabel + Join(item.keywords, ", ")] else [])
  }

  /** The `result` list `pritty_repr` builds. */
  function Pieces(items: seq<ChangeLog>): seq<string>
  {
    if items == [] then []
    else Pieces(items[..|items| - 1]) + ItemPieces(items[|items| - 1], HeadingBefore(items, |items| - 1))
  }

  /** What `ChangeLogList.pritty_repr` returns. */
  function Render(items: seq<ChangeLog>): string
  {
    Join(Pieces(items), "\n\n")
  }

  lemma PiecesStep(items: seq<ChangeLog>, k: nat)
    requires k < |items|
    ensures Pieces(items[..k + 1]) == Pieces(items[..k]) + ItemPieces(items[k], HeadingBefore(items, k))
  {
    assert items[..k + 1][..k] == items[..k];
  }

  /** `ChangeLogList.pritty_repr`: walks the items remembering the last
      date that got a heading (`None` before the first item). */
  method PrittyRepr(items: seq<ChangeLog>) returns (r: string)
    ensures r == Render(items)
  {
    var result: seq<string> := [];
    var prevDate: Option<string> := None;
    for k := 0 to |items|
      invariant result == Pieces(items[..k])
      invariant prevDate == (if k == 0 then None else Some(items[k - 1].date))
    {
      PiecesStep(items, k);
      var item := items[k];
      var heading := false;
      if prevDate != Some(item.date) {
        prevDate := Some(item.date);
        result := result + [HeadingMark + item.date];
        heading := true;
      }
      result := result + [item.markdownContent];
      if item.keywords != [] {
        result := result + [KeywordsLabel + Join(item.keywords, ", ")];
      }
      assert heading == HeadingBefore(items, k);
    }
    assert items[..|items|] == items;
    r := Join(result, "\n\n");
  }

  /** `select_recent_changelogs`: a new list holding the items whose date
      parses and is on or after `today - num_days`, in order. The argument
      is a value and stays as it was. */
  method SelectRecentChangelogs(items: seq<ChangeLog>, numDays: int, today: Date) returns (r: seq<ChangeLog>)
    requires CutoffInRange(today, numDays)
    ensures r == SelectRecent(items, ChangeLogDate, today, numDays)
  {
    r := [];
    for i := 0 to |items|
      invariant r == SelectRecent(items[..i], ChangeLogDate, today, numDays)
    {
      assert items[..i + 1][..i] == items[..i];
      if IsRecent(items[i].date, today, numDays) {
        r := r + [items[i]];
      }
    }
    assert items[..|items|] == items;
  }

  // ---------------------------------------------------------------------
  // Properties of the rendering

  /** An item's pieces: the heading comes first exactly when asked for,
      the content follows it, and the keywords piece comes last exactly
      when there are keywords. */
  lemma ItemPiecesShape(item: ChangeLog, heading: bool)
    ensures var p := ItemPieces(item, heading);
      && |p| == (if heading then 1 else 0) + 1 + (if item.keywords != [] then 1 else 0)
      && (heading ==> p[0] == HeadingMark + item.date)
      && p[if heading then 1 else 0] == item.markdownContent
      && (item.keywords != [] ==> p[|p| - 1] == KeywordsLabel + Join(item.keywords, ", "))
  {
  }

  /** The first item always gets a heading, so a non-empty list renders
      starting with `## ` and its first date. */
  lemma FirstItemHeading(items: seq<ChangeLog>)
    requires items != []
    ensures Pieces(items) != [] && Pieces(items)[0] == HeadingMark + items[0].date
    ensures StartsWith(Render(items), HeadingMark + items[0].date)
  {
    FirstPiece(items);
    JoinStartsWithFirst(Pieces(items), "\n\n");
  }

  lemma {:induction false} FirstPiece(items: seq<ChangeLog>)
    requires items != []
    ensures Pieces(items) != [] && Pieces(items)[0] == HeadingMark + items[0].date
  {
    var init := items[..|items| - 1];
    if init != [] {
      FirstPiece(init);
      assert init[0] == items[0];
    }
  }

  /** An empty list renders as the empty string, and only an empty list
      does (the first heading is never empty). */
  lemma RenderEmptyIff(items: seq<ChangeLog>)
    ensures Render(items) == "" <==> items == []
  {
    if items != [] {
      FirstItemHeading(items);
    }
  }

  /** The pieces of the first `m` items begin the pieces of the whole list. */
  lemma {:induction false} PiecesPrefix(items: seq<ChangeLog>, m: nat)
    requires m <= |items|
    ensures |Pieces(items[..m])| <= |Pieces(items)|
    ensures Pieces(items)[..|Pieces(items[..m])|] == Pieces(items[..m])
  {
    if m == |items| {
      assert items[..m] == items;
    } else {
      var init := items[..|items| - 1];
      PiecesPrefix(init, m);
      assert init[..m] == items[..m];
      var p := Pieces(items[..m]);
      assert Pieces(items)[..|Pieces(init)|] == Pieces(init);
      assert Pieces(items)[..|p|] == Pieces(init)[..|p|];
    }
  }

  /** Item `k` contributes its pieces right after those of the items
      before it: a heading exactly when `HeadingBefore(items, k)`, then its
      content, then a keywords piece exactly when it has keywords. */
  lemma ItemPiecesAt(items: seq<ChangeLog>, k: nat)
    requires k < |items|
    ensures var at := |Pieces(items[..k])|;
      var p := ItemPieces(items[k], HeadingBefore(items, k));
      && at + |p| <= |Pieces(items)|
      && Pieces(items)[at..at + |p|] == p
  {
    PiecesStep(items, k);
    PiecesPrefix(items, k + 1);
    SliceOfPrefix(Pieces(items), Pieces(items[..k + 1]), Pieces(items[..k]),
                  ItemPieces(items[k], HeadingBefore(items, k)));
  }

  /** If `front + middle` begins `whole`, `middle` sits in `whole` right after `front`. */
  lemma SliceOfPrefix<T>(whole: seq<T>, prefix: seq<T>, front: seq<T>, middle: seq<T>)
    requires prefix == front + middle
    requires |prefix| <= |whole| && whole[..|prefix|] == prefix
    ensures |front| + |middle| <= |whole|
    ensures whole[|front|..|front| + |middle|] == middle
  {
    assert whole[|front|..|front| + |middle|] == prefix[|front|..];
  }

  /** Consecutive items with the same date share one heading. */
  lemma SameDateOneHeading(d: string, a: string, b: string)
    ensures Pieces([ChangeLog(d, a, []), ChangeLog(d, b, [])]) == [HeadingMark + d, a, b]
  {
    var items := [ChangeLog(d, a, []), ChangeLog(d, b, [])];
    assert items[..1] == [ChangeLog(d, a, [])];
    assert items[..1][..0] == [];
    assert Pieces(items[..1]) == [HeadingMark + d, a];
    assert !HeadingBefore(items, 1);
    assert ItemPieces(items[1], false) == [b];
  }

  /** Headings group only consecutive runs: a date that comes back after a
      different date gets a second heading. */
  lemma ReturningDateHeadedAgain(d1: string, d2: string, a: string, b: string, c: string)
    requires d1 != d2
    ensures Pieces([ChangeLog(d1, a, []), ChangeLog(d2, b, []), ChangeLog(d1, c, [])])
         == [HeadingMark + d1, a, HeadingMark + d2, b, HeadingMark + d1, c]
  {
    var items := [ChangeLog(d1, a, []), ChangeLog(d2, b, []), ChangeLog(d1, c, [])];
    assert items[..2] == [ChangeLog(d1, a, []), ChangeLog(d2, b, [])];
    assert items[..2][..1] == [ChangeLog(d1, a, [])];
    assert items[..2][..1][..0] == [];
    assert Pieces(items[..2][..1]) == [HeadingMark + d1, a];
    assert HeadingBefore(items[..2], 1);
    assert Pieces(items[..2]) == [HeadingMark + d1, a] + [HeadingMark + d2, b];
    assert HeadingBefore(items, 2);
    assert ItemPieces(items[2], true) == [HeadingMark + d1, c];
  }

  /** A keywords piece follows an item's content exactly when the item has
      keywords; with the item on its own, the render is its heading, its
      content and then `Keywords: a, b`. */
  lemma KeywordsPiece(d: string, a: string, kw: seq<string>)
    ensures kw != [] ==> Pieces([ChangeLog(d, a, kw)]) == [HeadingMark + d, a, KeywordsLabel + Join(kw, ", ")]
    ensures kw == [] ==> Pieces([ChangeLog(d, a, kw)]) == [HeadingMark + d, a]
  {
    assert [ChangeLog(d, a, kw)][..0] == [];
  }
}

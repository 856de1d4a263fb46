/** exchange_changelog/changelog.py: the earlier changelog records, their
    plain-text `pretty_repr` renderings and the in-place recency filter. */
module LegacyChangelog {
  import opened Strings
  import opened Dates
  import opened Recency

  /** `Category(str, Enum)` with lowercase, space-separated values. */
  datatype Category =
    | BreakingChanges | NewFeatures | Deprecations
    | BugFixes | PerformanceImprovements | SecurityUpdates

  function CategoryValue(c: Category): string
  {
    match c
    case BreakingChanges => "breaking changes"
    case NewFeatures => "new features"
    case Deprecations => "deprecations"
    case BugFixes => "bug fixes"
    case PerformanceImprovements => "performance improvements"
    case SecurityUpdates => "security updates"
  }

  /** The string values of a list of categories, which is what
      `", ".join(categories)` joins since each member is a `str`. */
  function CategoryValues(cs: seq<Category>): (r: seq<string>)
    ensures |r| == |cs|
  {
    if cs == [] then [] else [CategoryValue(cs[0])] + CategoryValues(cs[1..])
  }

  /** The pieces of the `# [name](url)` header line. */
  const HeaderOpen: string := "# ["
  const HeaderMid: string := "]("
  const HeaderClose: string := ")\n"
  const UpcomingTitleLine: string := "*Upcoming Changes*\n"
  const KeywordsLabel: string := "Keywords: "
  const CategoriesLabel: string := "Categories: "

  datatype Change = Change(date: string, markdownContent: string, keywords: seq<string>, categories: seq<Category>)

  datatype UpcomingChange = UpcomingChange(markdownContent: string, categories: seq<Category>)

  function ChangeDate(c: Change): string
  {
    c.date
  }

  /** The `Keywords:` line, or nothing when there are no keywords. */
  function KeywordsLine(keywords: seq<string>): string
  {
    if keywords != [] then KeywordsLabel + Join(keywords, ", ") + "\n" else ""
  }

  /** The `Categories:` line, or nothing when there are no categories. */
  function CategoriesLine(categories: seq<Category>): string
  {
    if categories != [] then CategoriesLabel + Join(CategoryValues(categories), ", ") + "\n" else ""
  }

  /** The first two lines of a change: its date in asterisks, then its content. */
  function ChangeHead(c: Change): string
  {
    "*" + c.date + "*\n" + c.markdownContent + "\n"
  }

  /** What `Change.pretty_repr` returns. */
  function ChangeText(c: Change): string
  {
    ChangeHead(c) + KeywordsLine(c.keywords) + CategoriesLine(c.categories)
  }

  /** What `UpcomingChange.pretty_repr` returns. */
  function UpcomingText(u: UpcomingChange): string
  {
    u.markdownContent + "\n" + CategoriesLine(u.categories)
  }

  /** `Change.pretty_repr`: builds the text line by line. */
  method ChangePrettyRepr(c: Change) returns (s: string)
    ensures s == ChangeText(c)
  {
    s := "*" + c.date + "*\n";
    s := s + c.markdownContent + "\n";
    if c.keywords != [] {
      s := s + (KeywordsLabel + Join(c.keywords, ", ") + "\n");
    }
    if c.categories != [] {
      s := s + (CategoriesLabel + Join(CategoryValues(c.categories), ", ") + "\n");
    }
  }

  /** `UpcomingChange.pretty_repr`. */
  method UpcomingPrettyRepr(u: UpcomingChange) returns (s: string)
    ensures s == UpcomingText(u)
  {
    s := u.markdownContent + "\n";
    if u.categories != [] {
      s := s + (CategoriesLabel + Join(CategoryValues(u.categories), ", ") + "\n");
    }
  }

  lemma KeywordsLineShape(keywords: seq<string>)
    ensures KeywordsLine(keywords) == "" <==> keywords == []
    ensures keywords != [] ==> StartsWith(KeywordsLine(keywords), KeywordsLabel)
    ensures keywords != [] ==> EndsWith(KeywordsLine(keywords), "\n")
  {
    if keywords != [] {
      PrefixSplit(KeywordsLabel, Join(keywords, ", "), "\n");
    }
  }

  lemma CategoriesLineShape(categories: seq<Category>)
    ensures CategoriesLine(categories) == "" <==> categories == []
    ensures categories != [] ==> StartsWith(CategoriesLine(categories), CategoriesLabel)
    ensures categories != [] ==> EndsWith(CategoriesLine(categories), "\n")
  {
    if categories != [] {
      PrefixSplit(CategoriesLabel, Join(CategoryValues(categories), ", "), "\n");
    }
  }

  lemma ChangeHeadShape(c: Change)
    ensures ChangeHead(c) == "*" + c.date + "*\n" + c.markdownContent + "\n"
    ensures ChangeHead(c)[0] == '*'
    ensures EndsWith(ChangeHead(c), "\n")
  {
  }

  /** Text that is empty or starts a categories line does not start a
      keywords line. */
  lemma NotKeywords(x: string)
    requires x == "" || StartsWith(x, CategoriesLabel)
    ensures !StartsWith(x, KeywordsLabel)
  {
    if x != "" {
      assert x[0] == 'C';
    }
  }

  /** A change renders as `*date*`, its content, then the keywords line
      exactly when it has keywords, then the categories line exactly when
      it has categories; the text always ends in a newline. */
  lemma ChangeTextLayout(c: Change)
    ensures StartsWith(ChangeText(c), "*" + c.date + "*\n" + c.markdownContent + "\n")
    ensures EndsWith(ChangeText(c), "\n")
    ensures StartsWith(ChangeText(c)[|ChangeHead(c)|..], KeywordsLabel) <==> c.keywords != []
    ensures StartsWith(ChangeText(c)[|ChangeHead(c)| + |KeywordsLine(c.keywords)|..], CategoriesLabel)
            <==> c.categories != []
  {
    var head := ChangeHead(c);
    var kw := KeywordsLine(c.keywords);
    var cat := CategoriesLine(c.categories);
    ChangeHeadShape(c);
    KeywordsLineShape(c.keywords);
    CategoriesLineShape(c.categories);
    PrefixSplit(head, kw, cat);
    PrefixSplit(head + kw, cat, "");
    assert head + kw + cat + "" == ChangeText(c);
    AppendEndsInNewline(head, kw);
    AppendEndsInNewline(head + kw, cat);
    if c.keywords == [] {
      assert kw + cat == cat;
      NotKeywords(cat);
    } else {
      PrefixSplit(kw, cat, "");
      assert kw + cat + "" == kw + cat;
    }
  }

  /** An upcoming change renders as its content and a newline, then the
      categories line exactly when it has categories; it ends in a newline. */
  lemma UpcomingTextLayout(u: UpcomingChange)
    ensures StartsWith(UpcomingText(u), u.markdownContent + "\n")
    ensures EndsWith(UpcomingText(u), "\n")
    ensures StartsWith(UpcomingText(u)[|u.markdownContent| + 1..], CategoriesLabel) <==> u.categories != []
  {
    var head := u.markdownContent + "\n";
    var cat := CategoriesLine(u.categories);
    CategoriesLineShape(u.categories);
    PrefixSplit(head, cat, "");
    assert head + cat + "" == UpcomingText(u);
    AppendEndsInNewline(head, cat);
  }

  /** Categories print as their lowercase values separated by ", ". */
  lemma CategoriesLineExample()
    ensures CategoriesLine([BreakingChanges, BugFixes])
         == CategoriesLabel + "breaking changes" + ", " + "bug fixes" + "\n"
  {
    var values := CategoryValues([BreakingChanges, BugFixes]);
    assert values == ["breaking changes", "bug fixes"] by {
      assert [BreakingChanges, BugFixes][1..] == [BugFixes];
      assert CategoryValues([BugFixes]) == ["bug fixes"];
    }
    assert Join(values, ", ") == "breaking changes" + ", " + "bug fixes" by {
      assert values[1..] == ["bug fixes"];
    }
  }

  // ---------------------------------------------------------------------
  // A whole changelog

  function ChangeTexts(changes: seq<Change>): (r: seq<string>)
    ensures |r| == |changes|
  {
    if changes == [] then [] else ChangeTexts(changes[..|changes| - 1]) + [ChangeText(changes[|changes| - 1])]
  }

  function UpcomingTexts(ups: seq<UpcomingChange>): (r: seq<string>)
    ensures |r| == |ups|
  {
    if ups == [] then [] else UpcomingTexts(ups[..|ups| - 1]) + [UpcomingText(ups[|ups| - 1])]
  }

  lemma {:induction false} ChangeTextsAt(changes: seq<Change>, k: nat)
    requires k < |changes|
    ensures ChangeTexts(changes)[k] == ChangeText(changes[k])
  {
    if k < |changes| - 1 {
      ChangeTextsAt(changes[..|changes| - 1], k);
    }
  }

  lemma {:induction false} UpcomingTextsAt(ups: seq<UpcomingChange>, k: nat)
    requires k < |ups|
    ensures UpcomingTexts(ups)[k] == UpcomingText(ups[k])
  {
    if k < |ups| - 1 {
      UpcomingTextsAt(ups[..|ups| - 1], k);
    }
  }

  function HeaderText(name: string, url: string): string
  {
    if name != "" && url != "" then HeaderOpen + name + HeaderMid + url + HeaderClose else ""
  }

  /** The upcoming section: a title line and every upcoming render, or
      nothing when the list is empty. */
  function UpcomingSection(ups: seq<UpcomingChange>): string
  {
    if ups != [] then UpcomingTitleLine + Concat(UpcomingTexts(ups)) else ""
  }

  /** What `Changelog.pretty_repr` returns. */
  function ChangelogText(changes: seq<Change>, ups: seq<UpcomingChange>, name: string, url: string): string
  {
    HeaderText(name, url) + UpcomingSection(ups) + Concat(ChangeTexts(changes))
  }

  lemma ChangeTextsStep(pre: string, cs: seq<Change>, k: nat)
    requires k < |cs|
    ensures pre + Concat(ChangeTexts(cs[..k + 1])) == pre + Concat(ChangeTexts(cs[..k])) + ChangeText(cs[k])
  {
    assert cs[..k + 1][..k] == cs[..k];
  }

  lemma UpcomingTextsStep(pre: string, us: seq<UpcomingChange>, k: nat)
    requires k < |us|
    ensures pre + Concat(UpcomingTexts(us[..k + 1])) == pre + Concat(UpcomingTexts(us[..k])) + UpcomingText(us[k])
  {
    assert us[..k + 1][..k] == us[..k];
  }

  /** Every change render starts with `*`. */
  lemma ChangeTextStartsWithStar(c: Change)
    ensures ChangeText(c) != "" && ChangeText(c)[0] == '*'
  {
  }

  /** A concatenation of change renders is empty or starts with `*`. */
  lemma {:induction false} ChangeTextsStartWithStar(changes: seq<Change>)
    ensures Concat(ChangeTexts(changes)) == "" <==> changes == []
    ensures changes != [] ==> Concat(ChangeTexts(changes))[0] == '*'
  {
    if changes != [] {
      var init := changes[..|changes| - 1];
      ChangeTextsStartWithStar(init);
      ChangeTextStartsWithStar(changes[|changes| - 1]);
      if init != [] {
        assert Concat(ChangeTexts(changes)) == Concat(ChangeTexts(init)) + ChangeText(changes[|changes| - 1]);
      }
    }
  }

  /** A concatenation of pieces that each end in a newline is empty or
      ends in a newline. */
  lemma {:induction false} ConcatEndsInNewline(parts: seq<string>)
    requires forall k :: 0 <= k < |parts| ==> EndsWith(parts[k], "\n")
    ensures Concat(parts) == "" || EndsWith(Concat(parts), "\n")
  {
    if parts != [] {
      ConcatEndsInNewline(parts[..|parts| - 1]);
      AppendEndsInNewline(Concat(parts[..|parts| - 1]), parts[|parts| - 1]);
    }
  }

  lemma HeaderTextShape(name: string, url: string)
    ensures HeaderText(name, url) == "" || EndsWith(HeaderText(name, url), "\n")
    ensures name != "" && url != "" ==> StartsWith(HeaderText(name, url), HeaderOpen)
    ensures name != "" && url != "" <==> HeaderText(name, url) != ""
  {
    if name != "" && url != "" {
      PrefixSplit(HeaderOpen, name, HeaderMid + url + HeaderClose);
      assert HeaderOpen + name + (HeaderMid + url + HeaderClose) == HeaderText(name, url);
      assert EndsWith(HeaderText(name, url), "\n") by {
        assert HeaderText(name, url)[|HeaderText(name, url)| - 1] == HeaderClose[1];
      }
    }
  }

  lemma UpcomingSectionShape(ups: seq<UpcomingChange>)
    ensures UpcomingSection(ups) == "" <==> ups == []
    ensures ups != [] ==> UpcomingSection(ups)[0] == '*'
    ensures UpcomingSection(ups) == "" || EndsWith(UpcomingSection(ups), "\n")
  {
    if ups != [] {
      forall k | 0 <= k < |ups|
        ensures EndsWith(UpcomingTexts(ups)[k], "\n")
      {
        UpcomingTextsAt(ups, k);
        UpcomingTextLayout(ups[k]);
      }
      ConcatEndsInNewline(UpcomingTexts(ups));
      AppendEndsInNewline(UpcomingTitleLine, Concat(UpcomingTexts(ups)));
    }
  }

  /** The header comes first exactly when name and url are both non-empty:
      the text starts with `# [` in that case and never otherwise. */
  lemma ChangelogHeaderIff(changes: seq<Change>, ups: seq<UpcomingChange>, name: string, url: string)
    ensures StartsWith(ChangelogText(changes, ups, name, url), HeaderOpen) <==> name != "" && url != ""
    ensures name != "" && url != "" ==>
      StartsWith(ChangelogText(changes, ups, name, url), HeaderOpen + name + HeaderMid + url + HeaderClose)
  {
    StartsWithFirstPiece(HeaderOpen + name + HeaderMid + url + HeaderClose, HeaderOpen, name, HeaderMid, url, HeaderClose);
    UpcomingSectionShape(ups);
    ChangeTextsStartWithStar(changes);
    ConcatOptionalHeader(ChangelogText(changes, ups, name, url), HeaderText(name, url), UpcomingSection(ups),
                         Concat(ChangeTexts(changes)), name != "" && url != "",
                         HeaderOpen + name + HeaderMid + url + HeaderClose, HeaderOpen);
  }

  /** After the optional header comes the upcoming section when, and only
      when, there are upcoming changes: the title line followed by each
      upcoming render in order. Without upcoming changes the change renders
      follow the header directly. */
  lemma ChangelogUpcomingSection(changes: seq<Change>, ups: seq<UpcomingChange>, name: string, url: string)
    ensures ups != [] ==>
      (ChangelogText(changes, ups, name, url)[|HeaderText(name, url)|..]
       == UpcomingTitleLine + Concat(UpcomingTexts(ups)) + Concat(ChangeTexts(changes)))
    ensures ups == [] ==>
      (ChangelogText(changes, ups, name, url)[|HeaderText(name, url)|..] == Concat(ChangeTexts(changes)))
  {
    PrefixSplit(HeaderText(name, url), UpcomingSection(ups), Concat(ChangeTexts(changes)));
  }

  /** A non-empty rendering ends in a newline, since every piece does. */
  lemma ChangelogEndsInNewline(changes: seq<Change>, ups: seq<UpcomingChange>, name: string, url: string)
    ensures ChangelogText(changes, ups, name, url) == ""
      || EndsWith(ChangelogText(changes, ups, name, url), "\n")
  {
    forall k | 0 <= k < |changes|
      ensures EndsWith(ChangeTexts(changes)[k], "\n")
    {
      ChangeTextsAt(changes, k);
      ChangeTextLayout(changes[k]);
    }
    ConcatEndsInNewline(ChangeTexts(changes));
    HeaderTextShape(name, url);
    UpcomingSectionShape(ups);
    AppendEndsInNewline(HeaderText(name, url), UpcomingSection(ups));
    AppendEndsInNewline(HeaderText(name, url) + UpcomingSection(ups), Concat(ChangeTexts(changes)));
  }

  /** In the concatenated change renders, the `k`-th change's render sits
      right after the renders of the changes before it, so the renders
      appear one after the other in list order. */
  lemma ChangesInOrder(changes: seq<Change>, k: nat)
    requires k < |changes|
    ensures OccursAt(Concat(ChangeTexts(changes)), |Concat(ChangeTexts(changes[..k]))|, ChangeText(changes[k]))
  {
    var texts := ChangeTexts(changes);
    ConcatOccurs("", texts, k);
    assert "" + Concat(texts) == Concat(texts);
    ChangeTextsPrefix(changes, k);
    ChangeTextsAt(changes, k);
  }

  lemma {:induction false} ChangeTextsPrefix(changes: seq<Change>, k: nat)
    requires k <= |changes|
    ensures ChangeTexts(changes)[..k] == ChangeTexts(changes[..k])
    decreases |changes|
  {
    if k < |changes| {
      var init := changes[..|changes| - 1];
      ChangeTextsPrefix(init, k);
      assert init[..k] == changes[..k];
    } else {
      assert changes[..k] == changes;
    }
  }

  /** The loop of `pretty_repr` over the upcoming changes. */
  method AppendUpcoming(start: string, us: seq<UpcomingChange>) returns (s: string)
    ensures s == start + Concat(UpcomingTexts(us))
  {
    s := start;
    for k := 0 to |us|
      invariant s == start + Concat(UpcomingTexts(us[..k]))
    {
      UpcomingTextsStep(start, us, k);
      var piece := UpcomingPrettyRepr(us[k]);
      s := s + piece;
    }
    assert us[..|us|] == us;
  }

  /** The loop of `pretty_repr` over the changes. */
  method AppendChanges(start: string, cs: seq<Change>) returns (s: string)
    ensures s == start + Concat(ChangeTexts(cs))
  {
    s := start;
    for k := 0 to |cs|
      invariant s == start + Concat(ChangeTexts(cs[..k]))
    {
      ChangeTextsStep(start, cs, k);
      var piece := ChangePrettyRepr(cs[k]);
      s := s + piece;
    }
    assert cs[..|cs|] == cs;
  }

  // ---------------------------------------------------------------------
  // The mutable changelog

  /** `Changelog`, whose `changes` the recency filter overwrites. */
  class Changelog {
    var changes: seq<Change>
    var upcomingChanges: seq<UpcomingChange>

    constructor (changes: seq<Change>, upcomingChanges: seq<UpcomingChange>)
      ensures this.changes == changes && this.upcomingChanges == upcomingChanges
    {
      this.changes := changes;
      this.upcomingChanges := upcomingChanges;
    }

    /** `Changelog.pretty_repr`: appends the header, the upcoming section
        and every change render to one growing string. */
    method PrettyRepr(name: string, url: string) returns (s: string)
      ensures s == ChangelogText(changes, upcomingChanges, name, url)
    {
      s := "";
      if name != "" && url != "" {
        s := s + (HeaderOpen + name + HeaderMid + url + HeaderClose);
      }
      ghost var header := s;
      assert header == HeaderText(name, url);
      if upcomingChanges != [] {
        s := s + UpcomingTitleLine;
        s := AppendUpcoming(s, upcomingChanges);
        AppendAssoc(header, UpcomingTitleLine, Concat(UpcomingTexts(upcomingChanges)));
      }
      assert s == header + UpcomingSection(upcomingChanges);
      s := AppendChanges(s, changes);
    }

    /** `Changelog.select_recent_changes`: keeps the changes whose date
        parses and is on or after `today - num_days`, in order; the upcoming
        list is untouched. */
    method SelectRecentChanges(numDays: int, today: Date)
      requires CutoffInRange(today, numDays)
      modifies this
      ensures changes == SelectRecent(old(changes), ChangeDate, today, numDays)
      ensures upcomingChanges == old(upcomingChanges)
    {
      var recent: seq<Change> := [];
      for i := 0 to |changes|
        invariant recent == SelectRecent(changes[..i], ChangeDate, today, numDays)
      {
        assert changes[..i + 1][..i] == changes[..i];
        if IsRecent(changes[i].date, today, numDays) {
          recent := recent + [changes[i]];
        }
      }
      assert changes[..|changes|] == changes;
      changes := recent;
    }
  }
}

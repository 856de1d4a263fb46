/** src/exchange_changelog/changelog.py: the change records the summariser
    returns, their markdown and Slack renderings, and the recency filter the
    application applies to them. */
module SrcChangelog {
  import opened Strings
  import opened Dates
  import opened Recency
  import opened Seqs

  /** `Category(str, Enum)`; each member's string value is its own name. */
  datatype Category =
    | BreakingChanges | NewFeatures | Deprecations
    | BugFixes | PerformanceImprovements | SecurityUpdates

  function CategoryValue(c: Category): string
  {
    match c
    case BreakingChanges => "BREAKING_CHANGES"
    case NewFeatures => "NEW_FEATURES"
    case Deprecations => "DEPRECATIONS"
    case BugFixes => "BUG_FIXES"
    case PerformanceImprovements => "PERFORMANCE_IMPROVEMENTS"
    case SecurityUpdates => "SECURITY_UPDATES"
  }

  /** `Category.get_emoji`: a non-empty emoji for every member. */
  function Emoji(c: Category): (e: string)
    ensures e != ""
  {
    match c
    case BreakingChanges => "\U{1F4A5}"
    case NewFeatures => "\U{2728}"
    case Deprecations => "\U{1F5D1}\U{FE0F}"
    case BugFixes => "\U{1F41B}"
    case PerformanceImprovements => "\U{26A1}"
    case SecurityUpdates => "\U{1F512}"
  }

  /** No two categories share an emoji, and none shares a value. */
  lemma EmojiDistinct(c: Category, d: Category)
    ensures c != d ==> Emoji(c) != Emoji(d) && CategoryValue(c) != CategoryValue(d)
  {
  }

  /** `Change`; its `reasoning` field is read by nothing in this file or the
      application and is left out. */
  datatype Change = Change(date: string, items: seq<string>, keywords: seq<string>, categories: seq<Category>)

  /** The date of a change, the field the recency filter and the dedup key read. */
  function ChangeDate(c: Change): string
  {
    c.date
  }

  /** A changelog's contents, as the summariser hands it over. */
  datatype ChangelogData = ChangelogData(changes: seq<Change>, upcomingChanges: string)

  const CalendarEmoji: string := "\U{1F4C5}"
  const LabelEmoji: string := "\U{1F3F7}\U{FE0F}"
  const UpcomingTitle: string := "\U{1F51C}*Upcoming Changes*"

  // ---------------------------------------------------------------------
  // One change

  /** `"\n".join(f"- {item}" for item in items)`. */
  function ItemLines(items: seq<string>): string
  {
    Join(seq(|items|, i requires 0 <= i < |items| => "- " + items[i]), "\n")
  }

  /** `" ".join(f"🏷️{keyword}" for keyword in keywords)`. */
  function KeywordTags(keywords: seq<string>): string
  {
    Join(seq(|keywords|, i requires 0 <= i < |keywords| => LabelEmoji + keywords[i]), " ")
  }

  /** `" ".join(category.get_emoji() + category for category in categories)`. */
  function CategoryTags(categories: seq<Category>): string
  {
    Join(seq(|categories|, i requires 0 <= i < |categories| => Emoji(categories[i]) + CategoryValue(categories[i])), " ")
  }

  function MarkdownDate(date: string): string
  {
    CalendarEmoji + "*" + date + "*"
  }

  function SlackDate(date: string): string
  {
    CalendarEmoji + "*<" + date + ">*"
  }

  /** The three blocks after the date, shared by both renderings. */
  function ChangeBody(c: Change): seq<string>
  {
    [ItemLines(c.items), KeywordTags(c.keywords), CategoryTags(c.categories)]
  }

  /** `Change.to_markdown`. */
  function ChangeToMarkdown(c: Change): string
  {
    Join([MarkdownDate(c.date)] + ChangeBody(c), "\n\n")
  }

  /** `Change.to_slack`. */
  function ChangeToSlack(c: Change): string
  {
    Join([SlackDate(c.date)] + ChangeBody(c), "\n\n")
  }

  lemma JoinFirst(first: string, rest: seq<string>, sep: string)
    requires |rest| > 0
    ensures Join([first] + rest, sep) == first + sep + Join(rest, sep)
  {
    assert ([first] + rest)[1..] == rest;
  }

  /** `to_slack` differs from `to_markdown` only in the date block: both
      are their date block followed by the same text. */
  lemma SlackDiffersOnlyInDate(c: Change)
    ensures StartsWith(ChangeToMarkdown(c), MarkdownDate(c.date))
    ensures StartsWith(ChangeToSlack(c), SlackDate(c.date))
    ensures ChangeToMarkdown(c)[|MarkdownDate(c.date)|..] == ChangeToSlack(c)[|SlackDate(c.date)|..]
  {
    JoinFirst(MarkdownDate(c.date), ChangeBody(c), "\n\n");
    JoinFirst(SlackDate(c.date), ChangeBody(c), "\n\n");
    PrefixSplit(MarkdownDate(c.date), "\n\n", Join(ChangeBody(c), "\n\n"));
    PrefixSplit(SlackDate(c.date), "\n\n", Join(ChangeBody(c), "\n\n"));
  }

  /** A rendered change starts with the calendar emoji, in both renderings. */
  lemma ChangeStartsWithCalendar(c: Change)
    ensures |ChangeToMarkdown(c)| > 0 && ChangeToMarkdown(c)[0] == '\U{1F4C5}'
    ensures |ChangeToSlack(c)| > 0 && ChangeToSlack(c)[0] == '\U{1F4C5}'
  {
    SlackDiffersOnlyInDate(c);
  }

  // ---------------------------------------------------------------------
  // A whole changelog

  /** The header block, present only when both name and url are non-empty
      (an absent name or url is falsy like the empty string). */
  function MarkdownHeader(name: string, url: string): seq<string>
  {
    if name != "" && url != "" then ["# [" + name + "](" + url + ")"] else []
  }

  function SlackHeader(name: string, url: string): seq<string>
  {
    if name != "" && url != "" then ["*<" + url + "|" + name + ">*"] else []
  }

  function UpcomingBlocks(upcoming: string): seq<string>
  {
    if upcoming != "" then [UpcomingTitle, upcoming] else []
  }

  /** One markdown block per change, in order. */
  function MarkdownBlocks(changes: seq<Change>): (r: seq<string>)
    ensures |r| == |changes|
  {
    if changes == [] then []
    else MarkdownBlocks(changes[..|changes| - 1]) + [ChangeToMarkdown(changes[|changes| - 1])]
  }

  lemma {:induction false} MarkdownBlocksAt(changes: seq<Change>, k: nat)
    requires k < |changes|
    ensures MarkdownBlocks(changes)[k] == ChangeToMarkdown(changes[k])
  {
    if k < |changes| - 1 {
      MarkdownBlocksAt(changes[..|changes| - 1], k);
    }
  }

  /** One Slack block per change, in order. */
  function SlackBlocks(changes: seq<Change>): (r: seq<string>)
    ensures |r| == |changes|
  {
    if changes == [] then []
    else SlackBlocks(changes[..|changes| - 1]) + [ChangeToSlack(changes[|changes| - 1])]
  }

  lemma {:induction false} SlackBlocksAt(changes: seq<Change>, k: nat)
    requires k < |changes|
    ensures SlackBlocks(changes)[k] == ChangeToSlack(changes[k])
  {
    if k < |changes| - 1 {
      SlackBlocksAt(changes[..|changes| - 1], k);
    }
  }

  /** Appending one more change block to the accumulated lines. */
  lemma MarkdownBlocksStep(pre: seq<string>, cs: seq<Change>, k: nat)
    requires k < |cs|
    ensures pre + MarkdownBlocks(cs[..k + 1]) == pre + MarkdownBlocks(cs[..k]) + [ChangeToMarkdown(cs[k])]
  {
    assert cs[..k + 1][..k] == cs[..k];
  }

  /** Appending one more change block to the accumulated lines. */
  lemma SlackBlocksStep(pre: seq<string>, cs: seq<Change>, k: nat)
    requires k < |cs|
    ensures pre + SlackBlocks(cs[..k + 1]) == pre + SlackBlocks(cs[..k]) + [ChangeToSlack(cs[k])]
  {
    assert cs[..k + 1][..k] == cs[..k];
  }

  /** The `lines` list `Changelog.to_markdown` builds. */
  function MarkdownLines(data: ChangelogData, name: string, url: string): seq<string>
  {
    MarkdownHeader(name, url) + UpcomingBlocks(data.upcomingChanges) + MarkdownBlocks(data.changes)
  }

  /** The `lines` list `Changelog.to_slack` builds. */
  function SlackLines(data: ChangelogData, name: string, url: string): seq<string>
  {
    SlackHeader(name, url) + UpcomingBlocks(data.upcomingChanges) + SlackBlocks(data.changes)
  }

  function RenderMarkdown(data: ChangelogData, name: string, url: string): string
  {
    Join(MarkdownLines(data, name, url), "\n\n")
  }

  function RenderSlack(data: ChangelogData, name: string, url: string): string
  {
    Join(SlackLines(data, name, url), "\n\n")
  }

  /** With no upcoming changes, the first change block (if any) starts
      with the calendar emoji, in both renderings. */
  lemma FirstChangeBlock(changes: seq<Change>)
    ensures changes != [] ==> MarkdownBlocks(changes)[0] != "" && MarkdownBlocks(changes)[0][0] == '\U{1F4C5}'
    ensures changes != [] ==> SlackBlocks(changes)[0] != "" && SlackBlocks(changes)[0][0] == '\U{1F4C5}'
  {
    if changes != [] {
      MarkdownBlocksAt(changes, 0);
      SlackBlocksAt(changes, 0);
      ChangeStartsWithCalendar(changes[0]);
    }
  }

  /** The markdown starts with `# [` exactly when name and url are both
      non-empty, and then with the whole `# [name](url)` header. */
  lemma MarkdownHeaderIff(data: ChangelogData, name: string, url: string)
    ensures StartsWith(RenderMarkdown(data, name, url), "# [") <==> name != "" && url != ""
    ensures name != "" && url != "" ==> StartsWith(RenderMarkdown(data, name, url), "# [" + name + "](" + url + ")")
  {
    var header := "# [" + name + "](" + url + ")";
    StartsWithFirstPiece(header, "# [", name, "](", url, ")");
    FirstChangeBlock(data.changes);
    JoinOptionalHeader(RenderMarkdown(data, name, url), MarkdownLines(data, name, url), MarkdownHeader(name, url),
                       UpcomingBlocks(data.upcomingChanges), MarkdownBlocks(data.changes),
                       "\n\n", name != "" && url != "", header, "# [");
  }

  /** The Slack rendering starts with `*<` exactly when name and url are
      both non-empty, and then with the whole `*<url|name>*` link. */
  lemma SlackHeaderIff(data: ChangelogData, name: string, url: string)
    ensures StartsWith(RenderSlack(data, name, url), "*<") <==> name != "" && url != ""
    ensures name != "" && url != "" ==> StartsWith(RenderSlack(data, name, url), "*<" + url + "|" + name + ">*")
  {
    var header := "*<" + url + "|" + name + ">*";
    StartsWithFirstPiece(header, "*<", url, "|", name, ">*");
    FirstChangeBlock(data.changes);
    JoinOptionalHeader(RenderSlack(data, name, url), SlackLines(data, name, url), SlackHeader(name, url),
                       UpcomingBlocks(data.upcomingChanges), SlackBlocks(data.changes),
                       "\n\n", name != "" && url != "", header, "*<");
  }

  /** In `lines == head + UpcomingBlocks(upcoming) + blocks`, the block
      right after `head` is the upcoming title exactly when `upcoming` is
      non-empty (a first change block starts with the calendar emoji
      instead), and the upcoming text follows the title. */
  lemma UpcomingAfterHead(lines: seq<string>, head: seq<string>, upcoming: string, blocks: seq<string>)
    requires lines == head + UpcomingBlocks(upcoming) + blocks
    requires upcoming == "" && blocks != [] ==> blocks[0] != "" && blocks[0][0] == '\U{1F4C5}'
    ensures (|head| < |lines| && lines[|head|] == UpcomingTitle) <==> upcoming != ""
    ensures upcoming != "" ==> lines[|head| + 1] == upcoming
  {
    if upcoming != "" {
      assert lines[|head|] == UpcomingTitle && lines[|head| + 1] == upcoming;
    } else if blocks != [] {
      assert lines[|head|] == blocks[0];
      assert UpcomingTitle[0] == '\U{1F51C}';
    }
  }

  /** Right after the optional header, the upcoming-changes title block
      appears exactly when `upcoming_changes` is non-empty, followed by the
      upcoming text itself. */
  lemma MarkdownUpcomingIff(data: ChangelogData, name: string, url: string)
    ensures (|MarkdownHeader(name, url)| < |MarkdownLines(data, name, url)|
             && MarkdownLines(data, name, url)[|MarkdownHeader(name, url)|] == UpcomingTitle)
            <==> data.upcomingChanges != ""
    ensures data.upcomingChanges != "" ==>
      MarkdownLines(data, name, url)[|MarkdownHeader(name, url)| + 1] == data.upcomingChanges
  {
    FirstChangeBlock(data.changes);
    UpcomingAfterHead(MarkdownLines(data, name, url), MarkdownHeader(name, url), data.upcomingChanges, MarkdownBlocks(data.changes));
  }

  /** The index of the first change block among the markdown blocks: after
      the optional header and the optional upcoming-changes blocks. */
  function ChangesStart(data: ChangelogData, name: string, url: string): nat
  {
    |MarkdownHeader(name, url)| + |UpcomingBlocks(data.upcomingChanges)|
  }

  /** Each change's block sits in the rendered markdown at its offset, the
      offsets following the order of `changes`, one block per change. */
  lemma MarkdownChangesInOrder(data: ChangelogData, name: string, url: string, k: nat)
    requires k < |data.changes|
    ensures |MarkdownLines(data, name, url)| == ChangesStart(data, name, url) + |data.changes|
    ensures OccursAt(RenderMarkdown(data, name, url),
                     Offset(MarkdownLines(data, name, url), "\n\n", ChangesStart(data, name, url) + k),
                     ChangeToMarkdown(data.changes[k]))
    ensures k + 1 < |data.changes| ==>
      Offset(MarkdownLines(data, name, url), "\n\n", ChangesStart(data, name, url) + k)
      < Offset(MarkdownLines(data, name, url), "\n\n", ChangesStart(data, name, url) + k + 1)
  {
    var pre := MarkdownHeader(name, url) + UpcomingBlocks(data.upcomingChanges);
    MarkdownBlocksAt(data.changes, k);
    BlockInJoin(RenderMarkdown(data, name, url), MarkdownLines(data, name, url), pre, MarkdownBlocks(data.changes),
                "\n\n", ChangesStart(data, name, url) + k, k, ChangeToMarkdown(data.changes[k]));
  }

  // ---------------------------------------------------------------------
  // The mutable changelog

  /** `Changelog`: the application keeps these objects in its results and
      overwrites their `changes` in place. */
  class Changelog {
    var changes: seq<Change>
    var upcomingChanges: string

    constructor (changes: seq<Change>, upcomingChanges: string)
      ensures this.changes == changes && this.upcomingChanges == upcomingChanges
    {
      this.changes := changes;
      this.upcomingChanges := upcomingChanges;
    }

    function Data(): ChangelogData
      reads this
    {
      ChangelogData(changes, upcomingChanges)
    }

    /** `Changelog.to_markdown`: accumulates the header, the upcoming block and
        one block per change, then joins them with blank lines. */
    method ToMarkdown(name: string, url: string) returns (r: string)
      ensures r == RenderMarkdown(Data(), name, url)
    {
      var lines: seq<string> := [];
      if name != "" && url != "" {
        lines := lines + ["# [" + name + "](" + url + ")"];
      }
      if upcomingChanges != "" {
        lines := lines + [UpcomingTitle];
        lines := lines + [upcomingChanges];
      }
      ghost var pre := MarkdownHeader(name, url) + UpcomingBlocks(upcomingChanges);
      assert lines == pre;
      var cs := changes;
      for k := 0 to |cs|
        invariant lines == pre + MarkdownBlocks(cs[..k])
      {
        MarkdownBlocksStep(pre, cs, k);
        lines := lines + [ChangeToMarkdown(cs[k])];
      }
      assert cs[..|cs|] == cs;
      r := Join(lines, "\n\n");
    }

    /** `Changelog.to_slack`: the same walk with the Slack header and blocks. */
    method ToSlack(name: string, url: string) returns (r: string)
      ensures r == RenderSlack(Data(), name, url)
    {
      var lines: seq<string> := [];
      if name != "" && url != "" {
        lines := lines + ["*<" + url + "|" + name + ">*"];
      }
      if upcomingChanges != "" {
        lines := lines + [UpcomingTitle];
        lines := lines + [upcomingChanges];
      }
      ghost var pre := SlackHeader(name, url) + UpcomingBlocks(upcomingChanges);
      assert lines == pre;
      var cs := changes;
      for k := 0 to |cs|
        invariant lines == pre + SlackBlocks(cs[..k])
      {
        SlackBlocksStep(pre, cs, k);
        lines := lines + [ChangeToSlack(cs[k])];
      }
      assert cs[..|cs|] == cs;
      r := Join(lines, "\n\n");
    }

    /** `Changelog.select_recent_changes`: keeps the changes whose date parses
        and is on or after `today - num_days`, in order; `upcoming_changes`
        is untouched. */
    method SelectRecentChanges(numDays: int, today: Date)
      requires CutoffInRange(today, numDays)
      modifies this
      ensures changes == SelectRecent(old(changes), ChangeDate, today, numDays)
      ensures upcomingChanges == old(upcomingChanges)
    {
      var recent: seq<Change> := [];
      for i := 0 to |changes|
        invariant recent == SelectRecent(changes[..i], ChangeDate, today, numDays)
      {
        assert changes[..i + 1][..i] == changes[..i];
        if IsRecent(changes[i].date, today, numDays) {
          recent := recent + [changes[i]];
        }
      }
      assert changes[..|changes|] == changes;
      changes := recent;
    }
  }
}

# exchange-changelog, modelled in Dafny

exchange-changelog watches the changelog pages of crypto-exchange APIs. For
each configured document it loads the page, converts it to markdown, trims
the text and has a language model summarise it into dated change records.
It keeps the changes of the last `num_days` days, writes every document's
changelog to a markdown file, drops changes already announced (remembered
in Redis under `changelog:{name}:{date}` keys) and posts the rest to Slack.

This project models the deterministic core of that system and proves what
it promises:

- **Retrieval fallback** (`pipeline.dfy`, module `Pipeline`). The
  `PipelineLoader` class tries Cloudscraper, Httpx, Playwright and
  Singlefile in that order. It returns the first non-empty text, or fails
  with `Failed to load URL: {url}`. `Load` also returns the loaders it
  invoked.
- **The application** (`app.dfy`, module `App`). The `App` class holds:
  - the configuration;
  - the key store, which is absent without Redis;
  - the Slack log;
  - the `(doc, changelog)` results;
  - the text written to the output file.

  Its methods `ExtractRecentChangelog`, `ProcessDoc`, `WriteFile`,
  `PostSlackMessage` and `Run` are proved against pure specifications:
  `Extract`, `Dedup`, `Notify`, `Sections`, `Processed` and `Failures`.
  Lemmas about those specifications state the dedup, ordering and failure
  isolation guarantees.
- **Changelog records and renderers** (`changelog_src.dfy`,
  `changelog_legacy.dfy`, `changelog_tools.dfy`, `upcoming_changes.dfy`).
  These cover the three changelog variants and the upcoming-changes list,
  with their markdown, Slack and plain-text renderings and their recency
  filters.
- **Dates and recency** (`dates.dfy`, `recency.dfy`). This covers calendar
  dates and a day ordinal. It gives an exact account of which strings
  `strptime(s, "%Y-%m-%d")` accepts, and defines the filter "parses and is
  on or after `today - num_days`" that all variants share.
- **Text normalisers**:
  - `lines.dfy`, `loader_utils.dfy` and `scraper.dfy` cover
    `normalize_whitespace`, `strip_empty_lines` and Python's `splitlines` /
    `strip`.
  - `html_images.dfy` covers `remove_base64_image`, with the regular
    expression written out as a backtracking matcher.
  - `prompt.dfy` covers `Prompt.__str__`.
- **Shared helpers** live in `strings.dfy`, `seqs.dfy` and `wrappers.dfy`.

External effects become parameters or state:
- The page a browser yields for a URL is a function `browse` that may fail.
- The language model is a function `summarise` that may fail.
- The system clock is a `today` parameter. Every member that filters by
  date requires `today - num_days` to be a valid date.
- Redis is an optional `map<string, int>`.
- Slack is the sequence of posted messages.

## Model

| member | source | states |
|---|---|---|
| Pipeline.PipelineLoader.constructor | src/exchange_changelog/loaders/pipeline.py:12-18 | the loaders are Cloudscraper, Httpx, Playwright, Singlefile, in that order, each once |
| Pipeline.PipelineLoader.Load | src/exchange_changelog/loaders/pipeline.py:20-32 | the loaders invoked are a prefix of the list, so each is invoked at most once and in order. The result is the text of the lowest-index loader that returns non-empty text, and no later loader is invoked. A failing or empty loader is skipped. When none delivers, every loader was invoked and the result is the `Failed to load URL: {url}` error. A success is never empty |
| Pipeline.FirstDelivering | src/exchange_changelog/loaders/pipeline.py:21-28 | the index it returns delivers non-empty text and every earlier one does not; it is absent exactly when no loader delivers |
| Pipeline.FirstIsLowest | src/exchange_changelog/loaders/pipeline.py:21-28 | a delivering loader preceded only by non-delivering ones is the one whose text is returned |
| Pipeline.LaterLoadersIrrelevant | src/exchange_changelog/loaders/pipeline.py:24-28 | short-circuit: what loaders after the first delivering one would do cannot change the outcome |
| LoaderUtils.NormalizeWhitespace | src/exchange_changelog/loaders/utils.py:7-13 | the loop yields `Normalize(text)`: its lines are exactly the stripped non-blank input lines in input order, and it is in normal form |
| LoaderUtils.HtmlToMarkdown | src/exchange_changelog/loaders/utils.py:16-21 | whatever the converter returns, the result is in normal form |
| Scraper.StripEmptyLines | src/exchange_changelog/scraper.py:8-14 | yields the same `Normalize(text)` as `normalize_whitespace`, so the two agree on every input; its lines are the stripped non-blank input lines in order |
| Scraper.PlaywrightScrape | src/exchange_changelog/scraper.py:45 | the scraped text contains no blank or padded line |
| Lines.SplitJoin | src/exchange_changelog/loaders/utils.py:13 | splitting the `"\n"` join of non-empty, break-free lines gives those lines back |
| Lines.StripIsTrimmedPiece | src/exchange_changelog/loaders/utils.py:10 | `strip` returns a contiguous piece of the line with no whitespace at either end |
| Lines.TrimLeftIsSuffix | src/exchange_changelog/loaders/utils.py:10 | removing leading whitespace leaves a suffix not starting with whitespace |
| Lines.TrimRightIsPrefix | src/exchange_changelog/loaders/utils.py:10 | removing trailing whitespace leaves a prefix not ending with whitespace |
| Lines.KeptAreNormal | src/exchange_changelog/loaders/utils.py:10-12 | every kept line is non-empty, unpadded and break-free |
| Lines.KeptConcat | src/exchange_changelog/loaders/utils.py:9-12 | the blank-dropping loop treats the lines one at a time, in order |
| Lines.NormalizeLines | src/exchange_changelog/loaders/utils.py:7-13 | the output's lines are exactly the stripped non-blank input lines, in input order |
| Lines.NormalizeIsNormalForm | src/exchange_changelog/loaders/utils.py:10-13 | no output line is empty or has leading or trailing whitespace |
| Lines.NormalFormIsFixed | src/exchange_changelog/loaders/utils.py:7-13 | text already in normal form is returned unchanged |
| Lines.NormalizeIdempotent | src/exchange_changelog/loaders/utils.py:7-13 | normalising twice equals normalising once |
| Lines.NormalFormEnds | src/exchange_changelog/loaders/utils.py:13 | the output is empty iff there are no kept lines, and otherwise has no trailing newline or whitespace |
| Dates.OrdinalOrder | src/exchange_changelog/changelog.py:130 | comparing day ordinals is comparing dates: `<=` iff not later, `==` iff the same date |
| Dates.EarlierMeansSmaller | src/exchange_changelog/changelog.py:130 | an earlier valid date has a smaller ordinal |
| Dates.YearStep | src/exchange_changelog/changelog.py:130 | a year has 366 days when leap, else 365 |
| Dates.MaxOrdinalIsLastDay | src/exchange_changelog/changelog.py:130 | the largest ordinal is 9999-12-31, the last date Python allows |
| Dates.ParseDate | src/exchange_changelog/changelog.py:126 | every parsed date is a valid calendar date |
| Dates.ParseDateExactly | src/exchange_changelog/changelog.py:126 | `strptime` yields date d from s iff d is valid and s is one of d's spellings (four-digit year, one- or two-digit month, day with optional zero or space padding) |
| Dates.ParseAccepts | src/exchange_changelog/changelog.py:126 | every spelling of a valid date parses to that date |
| Dates.ParseOnlyAccepts | src/exchange_changelog/changelog.py:126 | nothing else parses |
| Dates.ParseIsoFormat | src/exchange_changelog/changelog.py:126 | the ISO `YYYY-MM-DD` text of a date parses back to it |
| Dates.ParseExamples | src/exchange_changelog/changelog.py:126 | `2024-9-5` and `2024-09-05` parse; `2024-02-30`, `0000-01-01` and `2024-Sep-20` do not |
| Dates.YearFieldExact | src/exchange_changelog/changelog.py:126 | `%Y` reads year y exactly from its four-digit spelling |
| Dates.MonthFieldExact | src/exchange_changelog/changelog.py:126 | `%m` reads month m exactly from its spellings |
| Dates.DayFieldExact | src/exchange_changelog/changelog.py:126 | `%d` reads day d exactly from its spellings |
| Recency.SelectRecentEmbeds | src/exchange_changelog/changelog.py:121-133 | the filter's result is an order-preserving subsequence of its input |
| Recency.SelectRecentMembers | src/exchange_changelog/changelog.py:124-131 | an item is kept iff it is in the input and its date parses and is not before `today - num_days` |
| Recency.SelectRecentAreRecent | src/exchange_changelog/changelog.py:130-131 | every kept item is recent |
| Recency.SelectRecentAllRecent | src/exchange_changelog/changelog.py:124-133 | a list of recent items is kept whole |
| Recency.SelectRecentIdempotent | src/exchange_changelog/changelog.py:121-133 | filtering twice with the same `today` and `num_days` equals filtering once |
| Recency.IsRecentIsDateComparison | src/exchange_changelog/changelog.py:126-130 | recent iff the text parses to a date on or after the cutoff date |
| Recency.InclusiveBoundary | src/exchange_changelog/changelog.py:130 | the boundary day is kept and the day before it is dropped |
| SrcChangelog.Emoji | src/exchange_changelog/changelog.py:50-58 | `get_emoji` is defined and non-empty for all six categories |
| SrcChangelog.EmojiDistinct | src/exchange_changelog/changelog.py:42-58 | distinct categories have distinct emoji and distinct values |
| SrcChangelog.SlackDiffersOnlyInDate | src/exchange_changelog/changelog.py:68-84 | `Change.to_slack` differs from `to_markdown` only in its first block, `📅*<date>*` instead of `📅*date*` |
| SrcChangelog.ChangeStartsWithCalendar | src/exchange_changelog/changelog.py:70-79 | both change renderings start with the calendar emoji |
| SrcChangelog.MarkdownBlocksAt | src/exchange_changelog/changelog.py:101-102 | the k-th change block is that change's `to_markdown` |
| SrcChangelog.SlackBlocksAt | src/exchange_changelog/changelog.py:116-117 | the k-th change block is that change's `to_slack` |
| SrcChangelog.MarkdownHeaderIff | src/exchange_changelog/changelog.py:91-95 | the markdown starts with a `# [` header iff name and url are both non-empty, and then with `# [name](url)` |
| SrcChangelog.SlackHeaderIff | src/exchange_changelog/changelog.py:106-110 | the Slack text starts with `*<` iff name and url are both non-empty, and then with the link to url labelled name |
| SrcChangelog.MarkdownUpcomingIff | src/exchange_changelog/changelog.py:97-99 | the `🔜*Upcoming Changes*` block follows the header iff `upcoming_changes` is non-empty, and is then followed by the upcoming text |
| SrcChangelog.MarkdownChangesInOrder | src/exchange_changelog/changelog.py:101-104 | after header and upcoming blocks there is one block per change; each change's markdown appears at its own place, in order |
| SrcChangelog.Changelog.constructor | src/exchange_changelog/changelog.py:87-89 | a changelog holds the given changes and upcoming text |
| SrcChangelog.Changelog.ToMarkdown | src/exchange_changelog/changelog.py:91-104 | the loop builds the `"\n\n"` join of header, upcoming and change blocks |
| SrcChangelog.Changelog.ToSlack | src/exchange_changelog/changelog.py:106-119 | the same for the Slack rendering |
| SrcChangelog.Changelog.SelectRecentChanges | src/exchange_changelog/changelog.py:121-133 | `changes` becomes exactly the recent changes in order, with unparseable dates dropped; `upcoming_changes` is unchanged |
| LegacyChangelog.CategoryValues | exchange_changelog/changelog.py:37-43 | one lower-case value per category |
| LegacyChangelog.CategoriesLineExample | exchange_changelog/changelog.py:58 | categories render by their lower-case values joined by `", "`, e.g. `Categories: breaking changes, bug fixes` |
| LegacyChangelog.ChangePrettyRepr | exchange_changelog/changelog.py:52-59 | the step-by-step string is `ChangeText(c)` |
| LegacyChangelog.UpcomingPrettyRepr | exchange_changelog/changelog.py:66-70 | the step-by-step string is `UpcomingText(u)` |
| LegacyChangelog.KeywordsLineShape | exchange_changelog/changelog.py:55-56 | the `Keywords:` line is present iff keywords are non-empty, and then ends in a newline |
| LegacyChangelog.CategoriesLineShape | exchange_changelog/changelog.py:57-58 | the `Categories:` line is present iff categories are non-empty, and then ends in a newline |
| LegacyChangelog.ChangeHeadShape | exchange_changelog/changelog.py:53-54 | a change starts with `*date*\n` then content and `\n` |
| LegacyChangelog.ChangeTextLayout | exchange_changelog/changelog.py:52-59 | the head comes first; a `Keywords:` line follows iff keywords are non-empty, then a `Categories:` line iff categories are non-empty; the text always ends in `\n` |
| LegacyChangelog.UpcomingTextLayout | exchange_changelog/changelog.py:66-70 | the content and `\n` come first, then a categories line iff categories are non-empty; ends in `\n` |
| LegacyChangelog.ChangeTextsAt | exchange_changelog/changelog.py:87-88 | the k-th piece is the k-th change's rendering |
| LegacyChangelog.UpcomingTextsAt | exchange_changelog/changelog.py:84-85 | the k-th piece is the k-th upcoming change's rendering |
| LegacyChangelog.ChangeTextsStartWithStar | exchange_changelog/changelog.py:87-88 | the change part is empty iff there are no changes, and otherwise starts with `*` |
| LegacyChangelog.HeaderTextShape | exchange_changelog/changelog.py:79-80 | the header is present iff name and url are both non-empty, and ends in `\n` |
| LegacyChangelog.UpcomingSectionShape | exchange_changelog/changelog.py:82-85 | the upcoming section is present iff the upcoming list is non-empty, and ends in `\n` |
| LegacyChangelog.ChangelogHeaderIff | exchange_changelog/changelog.py:77-90 | the rendering starts with `# [` iff name and url are both non-empty, and then with `# [name](url)\n` |
| LegacyChangelog.ChangelogUpcomingSection | exchange_changelog/changelog.py:82-90 | after the header comes `*Upcoming Changes*\n` and the upcoming items iff the list is non-empty, then the plain concatenation of change renders |
| LegacyChangelog.ChangelogEndsInNewline | exchange_changelog/changelog.py:77-90 | a non-empty rendering ends in `\n` |
| LegacyChangelog.ChangesInOrder | exchange_changelog/changelog.py:87-88 | each change's rendering sits right after those of the changes before it |
| LegacyChangelog.AppendUpcoming | exchange_changelog/changelog.py:84-85 | the loop appends every upcoming item's rendering, in order |
| LegacyChangelog.AppendChanges | exchange_changelog/changelog.py:87-88 | the loop appends every change's rendering, in order |
| LegacyChangelog.Changelog.constructor | exchange_changelog/changelog.py:73-75 | a changelog holds the given changes and upcoming list |
| LegacyChangelog.Changelog.PrettyRepr | exchange_changelog/changelog.py:77-90 | the step-by-step string is header, upcoming section and changes, as specified by `ChangelogText` |
| LegacyChangelog.Changelog.SelectRecentChanges | exchange_changelog/changelog.py:92-104 | `changes` becomes exactly the recent changes in order; `upcoming_changes` is unchanged |
| ToolsChangelog.PrittyRepr | exchange_changelog/tools/changelog.py:65-78 | the loop with `prev_date` yields `Render(items)`, whose pieces carry a heading exactly before an item whose date differs from the previous item's |
| ToolsChangelog.SelectRecentChangelogs | exchange_changelog/tools/changelog.py:81-91 | returns a new list of exactly the recent items, in order; the input list is a value and stays as it was |
| ToolsChangelog.ItemPiecesShape | exchange_changelog/tools/changelog.py:70-76 | an item gives an optional `## date` piece, its content, and a `Keywords: a, b` piece iff its keywords are non-empty |
| ToolsChangelog.FirstItemHeading | exchange_changelog/tools/changelog.py:68-72 | the first item always gets a heading, so a non-empty render starts with `## date` |
| ToolsChangelog.RenderEmptyIff | exchange_changelog/tools/changelog.py:66-78 | the render is `""` iff the list is empty |
| ToolsChangelog.PiecesPrefix | exchange_changelog/tools/changelog.py:66-76 | the pieces of the first `m` items are a prefix of the pieces of the whole list: a later item never changes what earlier items appended |
| ToolsChangelog.ItemPiecesAt | exchange_changelog/tools/changelog.py:68-76 | for every item `k`, its pieces sit in the full piece list right after those of items `0..k-1`, with a `## date` heading exactly when `k` is 0 or its date differs from item `k-1`'s, then its content, then a keywords piece iff it has keywords |
| ToolsChangelog.SameDateOneHeading | exchange_changelog/tools/changelog.py:70-72 | two consecutive items with one date share one heading |
| ToolsChangelog.ReturningDateHeadedAgain | exchange_changelog/tools/changelog.py:68-72 | a date that returns after a different date gets a second heading |
| ToolsChangelog.KeywordsPiece | exchange_changelog/tools/changelog.py:73-76 | a keywords piece follows the content iff keywords are non-empty |
| UpcomingChanges.ChangeStr | exchange_changelog/tools/upcoming_changes.py:32-33 | `str(change)` starts with the content and ends with ` #` and the category value, with nothing in between |
| UpcomingChanges.ChangeLinesAt | exchange_changelog/tools/upcoming_changes.py:45-46 | the k-th line is `- {change}\n` for the k-th change |
| UpcomingChanges.PrettyRepr | exchange_changelog/tools/upcoming_changes.py:39-48 | the accumulating loop yields `Render(changes)` |
| UpcomingChanges.RenderShape | exchange_changelog/tools/upcoming_changes.py:40-48 | `""` iff there are no changes; otherwise starts with `## Upcoming Changes\n\n` and ends in `\n` |
| UpcomingChanges.ChangeInOrder | exchange_changelog/tools/upcoming_changes.py:45-48 | after the title, each change's line sits right after those of the changes before it |
| PromptText.BulletLinesAt | generate_prompt.py:33 | the k-th line of a list section is `- x` for the k-th entry |
| PromptText.ExampleLinesAt | generate_prompt.py:39 | the k-th example line is that example's line |
| PromptText.ElementsShape | generate_prompt.py:29-42 | there are exactly 11 elements: description, five headers at fixed places and output format; a list section is empty iff its list is |
| PromptText.BulletsEmptyIff | generate_prompt.py:33 | a bullet section is `""` iff its list is empty |
| PromptText.StartsWithDescription | generate_prompt.py:29-31 | the prompt begins with the description |
| PromptText.HeadingsAt | generate_prompt.py:32-40 | each of the five headers appears at its element's offset |
| PromptText.HeadingsInOrder | generate_prompt.py:32-40 | the headers appear in the order Guidelines, Steps, Output Format, Examples, Notes |
| PromptText.GuidelineLine | generate_prompt.py:33 | each guideline appears as a `- g` line at its place in the prompt |
| PromptText.StepLine | generate_prompt.py:35 | each step appears as a `- s` line at its place |
| PromptText.NoteLine | generate_prompt.py:41 | each note appears as a `- n` line at its place |
| PromptText.ExampleLineAt | generate_prompt.py:39 | each example appears as `- input -> output` at its place |
| HtmlImages.Base64ImageShaped | exchange_changelog/html.py:15 | the pattern's literal pieces have the shape the matcher's lemmas need |
| HtmlImages.MatchAt | exchange_changelog/html.py:15 | a match starts with `![` and ends within the text |
| HtmlImages.CloseParen | exchange_changelog/html.py:15 | the lazy `.*?\)` ends right after a `)` |
| HtmlImages.RemoveBase64Image | exchange_changelog/html.py:14-17 | the output is never longer than the input |
| HtmlImages.RemoveIsSubsequence | exchange_changelog/html.py:16 | the output is the input with some pieces deleted: its characters occur in the input at strictly increasing positions, in the same order |
| HtmlImages.RemoveKeepsLines | exchange_changelog/html.py:16 | the output is the input with characters deleted (as a multiset) and keeps every line feed |
| HtmlImages.MatchNoNewline | exchange_changelog/html.py:15 | a matched span never contains a line feed |
| HtmlImages.NoMatchUnchanged | exchange_changelog/html.py:14-17 | text with no match anywhere is returned unchanged |
| HtmlImages.NoImageOpenUnchanged | tests/test_html.py:12-15 | text without `![` is returned unchanged |
| HtmlImages.NoBase64Unchanged | tests/test_html.py:30-33 | text without `;base64,`, such as an ordinary image link, is returned unchanged |
| HtmlImages.MatchImageAt | exchange_changelog/html.py:15 | an embedded base64 image link is matched exactly to its closing parenthesis |
| HtmlImages.DeleteImageAt | exchange_changelog/html.py:16 | a matched image is deleted and scanning resumes after it |
| HtmlImages.KeepPlainText | exchange_changelog/html.py:16 | text without `!` is copied verbatim |
| HtmlImages.DeleteBetween | exchange_changelog/html.py:16 | text, an image, then text: the image goes and both texts stay |
| HtmlImages.DeleteOneImage | tests/test_html.py:6-9 | a single embedded image of any mime subtype is deleted and the surrounding text is kept verbatim, provided the surrounding texts contain no `!`, the alt text no `]`, the mime subtype no `;`, the data no `)`, and none of alt, mime or data a line feed |
| HtmlImages.DeleteTwoImages | tests/test_html.py:18-27 | two images, of any mime subtypes (png, jpeg, gif), are each deleted and the texts between them kept, provided the two texts (before the first image and between the images) contain no `!`, each alt text no `]`, each mime subtype no `;`, each data no `)`, and none of alt, mime or data a line feed |
| App.PyPrefix | src/exchange_changelog/app.py:38 | `text[:trim_len]` is a prefix of the text of length `min(n, len)`; a negative length counts from the end |
| App.PyPrefixIdempotent | src/exchange_changelog/app.py:38 | trimming twice to one length trims once |
| App.ExtractedAreRecent | src/exchange_changelog/app.py:33-48 | extraction succeeds iff the page loads and the summariser accepts the trimmed text. The changelog then keeps the summary's upcoming text and an in-order selection of its changes that holds every recent change of the summary and nothing else |
| App.ExtractAsWritten | src/exchange_changelog/app.py:40 | as written, extraction always fails, with the error the call raises whenever the page loads and a summary could be had |
| App.AsWrittenRecordsNothing | src/exchange_changelog/app.py:40-57 | as written, a page that loads and is summarised without error still takes the `except` branch: the document is recorded with an empty changelog and one failure message |
| App.ExtractKeepsAllRecent | src/exchange_changelog/app.py:40-48 | when every change the summariser reports is recent, the intended extraction records the summary unchanged |
| App.AwaitAlwaysFails | src/exchange_changelog/app.py:40 | as written, a document summarised without error is still recorded empty with one failure message, where the intended extraction records its recent change |
| App.FailureMessages | src/exchange_changelog/app.py:54-57 | a failure posts exactly one message, starting with `unable to extract changelog for {name}`; a success posts none |
| App.DedupIsFirstUnseen | src/exchange_changelog/app.py:80-90 | the surviving changes are exactly those whose key was absent, in original order. The store's keys grow by exactly the document's keys |
| App.DedupKeepsOldValues | src/exchange_changelog/app.py:84-89 | keys already in the store keep their values |
| App.DedupKept | src/exchange_changelog/app.py:80-90 | every survivor's key was absent and is distinct from the other survivors' keys; each is then stored with the survivor's `len(items)` |
| App.RerunKeepsNothing | src/exchange_changelog/app.py:82-89 | filtering the same changes again against the updated store keeps nothing |
| App.AllSeenKeepsNothing | src/exchange_changelog/app.py:84-86 | when every key is already stored, nothing survives and the store is unchanged |
| App.SameDateOnlyFirst | src/exchange_changelog/app.py:82-89 | of two changes with the same date, only the first survives |
| App.NotifyOne | src/exchange_changelog/app.py:77-93 | posting one result keeps its upcoming text; without a store the changelog is untouched; the store stays present or absent |
| App.Notify | src/exchange_changelog/app.py:77-93 | posting keeps one entry per result and the store's presence |
| App.NotifyMessages | src/exchange_changelog/app.py:77-93 | with or without a store, the messages posted are the Slack renderings of exactly those results left with changes after deduplication, in order |
| App.NotifyWithoutStore | src/exchange_changelog/app.py:77-93 | with no store the changelogs are left as they were, and a message is posted for a result iff its changes are non-empty, in order |
| App.NotifyEntries | src/exchange_changelog/app.py:77-90 | each result keeps its document and upcoming text. With a store, its changes become the first unseen ones against the store left by the earlier results |
| App.Sections | src/exchange_changelog/app.py:65-73 | one section per result |
| App.SectionsAt | src/exchange_changelog/app.py:65-73 | the k-th section is the k-th result's `to_markdown(name, url)` |
| App.FileSections | src/exchange_changelog/app.py:62-74 | each result's markdown sits at its own place in the file, in results order, joined by `"\n\n"` |
| App.Processed | src/exchange_changelog/app.py:99-100 | one pair per document |
| App.ProcessedAt | src/exchange_changelog/app.py:99-100 | the k-th pair holds the k-th document and what its extraction recorded |
| App.ResultsFollowDocs | src/exchange_changelog/app.py:99-103 | after the run there is one result per document, each at its document's place, in config order |
| App.App.constructor | src/exchange_changelog/app.py:18-30 | a new app has the configuration and store, no results, no messages and no file |
| App.App.ExtractRecentChangelog | src/exchange_changelog/app.py:33-48 | the method computes the intended `Extract` |
| App.App.ProcessDoc | src/exchange_changelog/app.py:50-60 | exactly one pair is appended, whether or not extraction failed. After a failure the changelog is empty and exactly the failure message is posted. Nothing else changes |
| App.App.WriteFile | src/exchange_changelog/app.py:62-74 | the file receives the `"\n\n"` join of one `to_markdown` section per result, in results order; nothing else changes |
| App.App.MarkdownSections | src/exchange_changelog/app.py:65-73 | the comprehension gives the sections of all results |
| App.App.DedupChanges | src/exchange_changelog/app.py:80-90 | the inner loop keeps and stores as `Dedup` says |
| App.App.PostOne | src/exchange_changelog/app.py:77-93 | one iteration replaces only that result's changelog, posts and updates the store as `NotifyOne` says |
| App.App.PostSlackMessage | src/exchange_changelog/app.py:76-93 | results, Slack log and store become what `Notify` says for the results and store before the call |
| App.App.ProcessAll | src/exchange_changelog/app.py:99-100 | documents are processed one at a time, in config order |
| App.App.Run | src/exchange_changelog/app.py:95-103 | the file is written from all results before dedup. Results, log and store are then those of posting. Failure messages precede posts |

## Left out

- Network, browser and subprocess I/O are outside the model: the concrete
  loaders (Cloudscraper, Httpx, Playwright, Singlefile), `PlaywrightScraper`'s
  page navigation, and the `load_html_*` / `save_html_*` functions. A
  loader is an outcome (`Fail` or `Ok(text)`); a scraped page is a `browse`
  function that may fail.
- `markdownify` and `charset_normalizer` are foreign libraries. The markdown
  they produce is an input to `HtmlToMarkdown` and `PlaywrightScrape`.
- The language-model calls (`extract_changelog`, `extract_upcoming_changes`,
  the OpenAI and Gemini wrappers) are an opaque `summarise` function that
  may fail. `Change.reasoning` is carried by the summary but read by none
  of the modelled code, so it is not a field of the model.
- The Redis and Slack clients, configuration loading, the CLI, logging and
  tracing are left out. Redis is a key-to-value map; the Slack log records
  every message handed to `post_slack_message`, whether or not a webhook
  is configured.
- Concurrency is left out. `_run` awaits each document in turn (the
  `gather` at app.py:96-97 is commented out), so the `asyncio.Lock` never
  guards anything.
- App.App.PostSlackMessage: `post_slack_message` reassigns `changelog.changes`
  on the changelog object in place. The model keeps each result's changelog
  as a value and replaces it in `results`. Nothing else refers to those
  objects, so no aliasing is lost.
- App.App.ExtractRecentChangelog: models the evidently intended extraction.
  As written it calls the synchronous `extract_changelog` inside the running
  event loop and awaits its result; that case is `ExtractAsWritten` (see
  Findings).
- Recency.SelectRecent: requires `CutoffInRange(today, num_days)`. It does
  not model the `OverflowError` that `date.today() - timedelta(days=num_days)`
  raises when the cutoff is out of range (src/exchange_changelog/changelog.py:130,
  exchange_changelog/changelog.py:101, exchange_changelog/tools/changelog.py:89).
  The source evaluates that expression only once some date has parsed, so on
  an empty or wholly unparseable list it accepts any `num_days`; the model
  does not cover that case either.
- SrcChangelog.Changelog.SelectRecentChanges: the same requirement, so the
  `OverflowError` path is not modelled.
- LegacyChangelog.Changelog.SelectRecentChanges: the same requirement, so the
  `OverflowError` path is not modelled.
- ToolsChangelog.SelectRecentChangelogs: the same requirement, so the
  `OverflowError` path is not modelled.
- App.Extract: the same requirement (and so `App.Processed`, `App.Failures`,
  `App.App.ExtractRecentChangelog`, `App.App.ProcessDoc`, `App.App.ProcessAll`
  and `App.App.Run`). In the application that `OverflowError` would be caught
  by `process_doc` and posted as a failure message (app.py:54-57). The model
  does not represent that failure.
- `App` uses `PlaywrightScraper`, not `PipelineLoader`. `PipelineLoader`
  is modelled on its own and the two are not connected.
- `upcoming_changes.py` imports a `Category` that
  `exchange_changelog/tools/changelog.py` does not define. A change keeps
  its category only as its value text.
- `tests/test_html.py` imports `remove_base64_image` from
  `changelog_helper/loaders/html.py`. The model follows the definition in
  `exchange_changelog/html.py`.
- Dates.ParseDate accepts only ASCII digits. Python's `strptime` also accepts
  other Unicode decimal digits.
- Rendering takes a missing `name` or `url` (`None`) as `""`. Both are
  falsy, and the header is emitted only when both are truthy.
- `main.py`, `changelog_helper/` and
  `exchange_changelog/tools/changelog_gemini.py` are not part of this model.
  They are a CLI driver and older or broken duplicates of the code above.

## Findings

| source | as written | input that shows it | evidently intended | confidence | as-written member | corrected member |
|---|---|---|---|---|---|---|
| src/exchange_changelog/app.py:40 | `await extract_changelog(...)` calls a synchronous function that runs the agent through `Runner.run_sync` (src/exchange_changelog/lazy.py:132) inside the event loop `asyncio.run` started (src/exchange_changelog/app.py:106), and then awaits the plain `Changelog` it would return. `run_sync` raises inside a running loop, and awaiting a non-awaitable raises a TypeError. Either way `process_doc` takes its `except` branch for every document | any document whose page loads and whose summary would succeed, e.g. one recent change dated 2024-10-06 with today 2024-10-20 and `num_days` 14 | summarise asynchronously (through `lazy_run`, src/exchange_changelog/lazy.py:78) and keep the summary's recent changes | high; not executed | App.AwaitAlwaysFails | App.ExtractedAreRecent |

/** src/exchange_changelog/app.py: the per-document driver. Each document
    is scraped, trimmed, summarised and filtered to recent changes; a
    failure anywhere is reported to Slack and recorded as an empty
    changelog. Afterwards every result is written to the output file, and
    changes already seen (by a key in the store) are dropped before each
    result is posted to Slack.

    The browser, the summariser, Redis, Slack and the output file are
    outside the model: the page a URL yields and the summariser are function
    parameters that may fail, the store is a map from key to value, the
    Slack channel is the list of messages posted, and the file is the text
    last written. */
module App {
  import opened Wrappers
  import opened Strings
  import opened Dates
  import opened Recency
  import opened Lines
  import opened Seqs
  import Scraper
  import SC = SrcChangelog

  datatype Document = Document(name: string, url: string)

  // ---------------------------------------------------------------------
  // Extraction of one document

  /** Python's `text[:n]`: a negative `n` counts from the end. */
  function PyPrefix(s: string, n: int): (r: string)
    ensures StartsWith(s, r)
    ensures 0 <= n ==> |r| == (if n <= |s| then n else |s|)
    ensures n < 0 ==> |r| == (if -n <= |s| then |s| + n else 0)
  {
    if 0 <= n then (if n <= |s| then s[..n] else s)
    else if -n <= |s| then s[..|s| + n]
    else ""
  }

  /** Trimming twice to the same non-negative length trims once. */
  lemma PyPrefixIdempotent(s: string, n: nat)
    ensures PyPrefix(PyPrefix(s, n), n) == PyPrefix(s, n)
  {
  }

  /** What `extract_recent_changelog` yields for a page: the scraped text,
      cut to `trimLen` characters, goes to the summariser, and the changes
      it reports are filtered to the recent ones. A failure of the page or
      of the summariser is passed on. */
  function Extract(page: Result<string, string>, trimLen: int,
                   summarise: string -> Result<SC.ChangelogData, string>,
                   today: Date, numDays: int): Result<SC.ChangelogData, string>
    requires CutoffInRange(today, numDays)
  {
    match page
    case Failure(e) => Failure(e)
    case Success(markdown) =>
      match summarise(PyPrefix(Normalize(markdown), trimLen))
      case Failure(e) => Failure(e)
      case Success(d) =>
        Success(SC.ChangelogData(SelectRecent(d.changes, SC.ChangeDate, today, numDays), d.upcomingChanges))
  }

  /** `extract_recent_changelog` as written: `extract_changelog` is
      synchronous and runs the agent through `run_sync` inside the event
      loop that `asyncio.run` started, and its plain `Changelog` result is
      then awaited. Either step raises (the exception's text is
      `callError`), so the call fails even when the page loads and a
      summary could be had. */
  function ExtractAsWritten(page: Result<string, string>, trimLen: int,
                            summarise: string -> Result<SC.ChangelogData, string>,
                            callError: string): (r: Result<SC.ChangelogData, string>)
    ensures r.Failure?
    ensures page.Success? && summarise(PyPrefix(Normalize(page.value), trimLen)).Success? ==> r.error == callError
  {
    match page
    case Failure(e) => Failure(e)
    case Success(markdown) =>
      match summarise(PyPrefix(Normalize(markdown), trimLen))
      case Failure(e) => Failure(e)
      case Success(_) => Failure(callError)
  }

  /** As written, a page that loads and is summarised without error is
      still recorded with an empty changelog and one failure message. */
  lemma AsWrittenRecordsNothing(doc: Document, page: Result<string, string>, trimLen: int,
                                summarise: string -> Result<SC.ChangelogData, string>, callError: string)
    requires page.Success? && summarise(PyPrefix(Normalize(page.value), trimLen)).Success?
    ensures Recorded(ExtractAsWritten(page, trimLen, summarise, callError)) == SC.ChangelogData([], "")
    ensures |FailureMessages(doc, ExtractAsWritten(page, trimLen, summarise, callError))| == 1
  {
  }

  /** When every change the summariser reports is recent, the intended
      extraction records the summary as it is. */
  lemma ExtractKeepsAllRecent(page: Result<string, string>, trimLen: int,
                              summarise: string -> Result<SC.ChangelogData, string>, today: Date, numDays: int)
    requires CutoffInRange(today, numDays)
    requires page.Success? && summarise(PyPrefix(Normalize(page.value), trimLen)).Success?
    requires var d := summarise(PyPrefix(Normalize(page.value), trimLen)).value;
      forall k :: 0 <= k < |d.changes| ==> IsRecent(d.changes[k].date, today, numDays)
    ensures Recorded(Extract(page, trimLen, summarise, today, numDays))
         == summarise(PyPrefix(Normalize(page.value), trimLen)).value
  {
    var d := summarise(PyPrefix(Normalize(page.value), trimLen)).value;
    SelectRecentAllRecent(d.changes, SC.ChangeDate, today, numDays);
  }

  /** A summariser that reports one change, dated 2024-10-06, and some
      upcoming text, whatever the page says. */
  function OneChangeSummary(text: string): Result<SC.ChangelogData, string>
  {
    Success(SC.ChangelogData([SC.Change("2024-10-06", [], [], [])], "soon"))
  }

  /** As written, every document is recorded with an empty changelog and
      one failure message, even one whose page is summarised without error,
      which the intended `Extract` records with its recent changes. */
  lemma AwaitAlwaysFails(doc: Document, markdown: string, trimLen: int, callError: string)
    ensures Recorded(ExtractAsWritten(Success(markdown), trimLen, OneChangeSummary, callError)) == SC.ChangelogData([], "")
    ensures |FailureMessages(doc, ExtractAsWritten(Success(markdown), trimLen, OneChangeSummary, callError))| == 1
    ensures CutoffInRange(Date(2024, 10, 20), 14)
    ensures Recorded(Extract(Success(markdown), trimLen, OneChangeSummary, Date(2024, 10, 20), 14))
         == SC.ChangelogData([SC.Change("2024-10-06", [], [], [])], "soon")
  {
    InclusiveBoundary();
    AsWrittenRecordsNothing(doc, Success(markdown), trimLen, OneChangeSummary, callError);
    ExtractKeepsAllRecent(Success(markdown), trimLen, OneChangeSummary, Date(2024, 10, 20), 14);
  }

  /** The extraction succeeds exactly when the page loads and the
      summariser accepts the trimmed text; the changelog it yields keeps
      the summary's upcoming changes and an in-order selection of its
      changes: all of them recent, and every recent change of the summary
      among them. */
  lemma ExtractedAreRecent(page: Result<string, string>, trimLen: int,
                           summarise: string -> Result<SC.ChangelogData, string>,
                           today: Date, numDays: int)
    requires CutoffInRange(today, numDays)
    ensures Extract(page, trimLen, summarise, today, numDays).Success?
        <==> page.Success? && summarise(PyPrefix(Normalize(page.value), trimLen)).Success?
    ensures Extract(page, trimLen, summarise, today, numDays).Success? ==>
      var summary := summarise(PyPrefix(Normalize(page.value), trimLen)).value;
      var d := Extract(page, trimLen, summarise, today, numDays).value;
      && d.upcomingChanges == summary.upcomingChanges
      && IsSubsequence(d.changes, summary.changes)
      && (forall k :: 0 <= k < |d.changes| ==> IsRecent(d.changes[k].date, today, numDays))
      && forall c :: c in summary.changes && IsRecent(c.date, today, numDays) ==> c in d.changes
  {
    if page.Success? && summarise(PyPrefix(Normalize(page.value), trimLen)).Success? {
      var summary := summarise(PyPrefix(Normalize(page.value), trimLen)).value;
      SelectRecentEmbeds(summary.changes, SC.ChangeDate, today, numDays);
      SelectRecentAreRecent(summary.changes, SC.ChangeDate, today, numDays);
      SelectRecentMembers(summary.changes, SC.ChangeDate, today, numDays);
    }
  }

  /** The changelog `process_doc` records: the extracted one, or an empty
      one after a failure. */
  function Recorded(r: Result<SC.ChangelogData, string>): SC.ChangelogData
  {
    match r
    case Success(d) => d
    case Failure(_) => SC.ChangelogData([], "")
  }

  const FailurePrefix: string := "unable to extract changelog for "
  const FailureGot: string := ", got: "

  /** The Slack message posted when a document fails. */
  function FailureMessage(name: string, error: string): string
  {
    FailurePrefix + name + FailureGot + error
  }

  /** The Slack messages posted for a failed extraction: exactly one, naming
      the document, and none after a success. */
  function FailureMessages(doc: Document, r: Result<SC.ChangelogData, string>): (m: seq<string>)
    ensures |m| == (if r.Failure? then 1 else 0)
    ensures r.Failure? ==> StartsWith(m[0], FailurePrefix + doc.name)
  {
    if r.Failure? then
      PrefixSplit(FailurePrefix + doc.name, FailureGot, r.error);
      [FailureMessage(doc.name, r.error)]
    else []
  }

  // ---------------------------------------------------------------------
  // The seen-changes filter

  /** `f"changelog:{name}:{date}"`. */
  function Key(name: string, date: string): string
  {
    "changelog:" + name + ":" + date
  }

  /** The keys of a document's changes. */
  function KeysOf(name: string, cs: seq<SC.Change>): set<string>
  {
    set c | c in cs :: Key(name, c.date)
  }

  /** The loop in `post_slack_message` for one document: a change whose key
      is in the store is dropped; otherwise it is kept and its key is set to
      the number of its items. Returns the kept changes and the new store. */
  function Dedup(name: string, cs: seq<SC.Change>, store: map<string, int>): (seq<SC.Change>, map<string, int>)
  {
    if cs == [] then ([], store)
    else
      var prev := Dedup(name, cs[..|cs| - 1], store);
      var c := cs[|cs| - 1];
      var key := Key(name, c.date);
      if key in prev.1 then prev
      else (prev.0 + [c], prev.1[key := |c.items|])
  }

  /** A reference for the kept changes, without the store threading: a
      change is kept when its key was neither in the store nor the key of an
      earlier change of the same document. */
  function FirstUnseen(name: string, cs: seq<SC.Change>, store: map<string, int>): seq<SC.Change>
  {
    if cs == [] then []
    else
      var init := cs[..|cs| - 1];
      var c := cs[|cs| - 1];
      FirstUnseen(name, init, store)
        + (if Key(name, c.date) in store || Key(name, c.date) in KeysOf(name, init) then [] else [c])
  }

  lemma KeysOfSnoc(name: string, cs: seq<SC.Change>)
    requires cs != []
    ensures KeysOf(name, cs) == KeysOf(name, cs[..|cs| - 1]) + {Key(name, cs[|cs| - 1].date)}
  {
    assert cs == cs[..|cs| - 1] + [cs[|cs| - 1]];
  }

  /** The filter keeps exactly the first change per unseen key, in order,
      and the store grows by exactly the keys of the document's changes. */
  lemma {:induction false} DedupIsFirstUnseen(name: string, cs: seq<SC.Change>, store: map<string, int>)
    ensures Dedup(name, cs, store).0 == FirstUnseen(name, cs, store)
    ensures Dedup(name, cs, store).1.Keys == store.Keys + KeysOf(name, cs)
  {
    if cs != [] {
      DedupIsFirstUnseen(name, cs[..|cs| - 1], store);
      KeysOfSnoc(name, cs);
    }
  }

  /** The store only gains keys, and keeps the value of every key it had. */
  lemma {:induction false} DedupKeepsOldValues(name: string, cs: seq<SC.Change>, store: map<string, int>)
    ensures forall k :: k in store ==> k in Dedup(name, cs, store).1 && Dedup(name, cs, store).1[k] == store[k]
  {
    if cs != [] {
      DedupKeepsOldValues(name, cs[..|cs| - 1], store);
    }
  }

  /** Every kept change had an unseen key, the kept changes' keys are
      distinct, and each now maps to that change's number of items. */
  lemma {:induction false} DedupKept(name: string, cs: seq<SC.Change>, store: map<string, int>)
    ensures forall i :: 0 <= i < |Dedup(name, cs, store).0| ==> Key(name, Dedup(name, cs, store).0[i].date) !in store
    ensures forall i, j :: 0 <= i < j < |Dedup(name, cs, store).0| ==>
      Key(name, Dedup(name, cs, store).0[i].date) != Key(name, Dedup(name, cs, store).0[j].date)
    ensures forall i :: 0 <= i < |Dedup(name, cs, store).0| ==>
      var key := Key(name, Dedup(name, cs, store).0[i].date);
      key in Dedup(name, cs, store).1 && Dedup(name, cs, store).1[key] == |Dedup(name, cs, store).0[i].items|
  {
    if cs != [] {
      var init := cs[..|cs| - 1];
      DedupKept(name, init, store);
      DedupKeepsOldValues(name, init, store);
      var prev := Dedup(name, init, store);
      var c := cs[|cs| - 1];
      var key := Key(name, c.date);
      if key !in prev.1 {
        var kept := prev.0 + [c];
        var st := prev.1[key := |c.items|];
        assert Dedup(name, cs, store) == (kept, st);
        forall i | 0 <= i < |prev.0|
          ensures Key(name, kept[i].date) != key
        {
          assert Key(name, prev.0[i].date) in prev.1;
        }
      }
    }
  }

  /** Once the filter has marked the keys, running it again on the same
      changes keeps nothing. */
  lemma RerunKeepsNothing(name: string, cs: seq<SC.Change>, store: map<string, int>)
    ensures Dedup(name, cs, Dedup(name, cs, store).1).0 == []
  {
    var st := Dedup(name, cs, store).1;
    DedupIsFirstUnseen(name, cs, store);
    AllSeenKeepsNothing(name, cs, st);
  }

  lemma {:induction false} AllSeenKeepsNothing(name: string, cs: seq<SC.Change>, store: map<string, int>)
    requires KeysOf(name, cs) <= store.Keys
    ensures Dedup(name, cs, store).0 == [] && Dedup(name, cs, store).1 == store
  {
    if cs != [] {
      KeysOfSnoc(name, cs);
      AllSeenKeepsNothing(name, cs[..|cs| - 1], store);
    }
  }

  /** Two changes of one document with the same date: only the first one
      survives. */
  lemma SameDateOnlyFirst(name: string, c1: SC.Change, c2: SC.Change, store: map<string, int>)
    requires c1.date == c2.date && Key(name, c1.date) !in store
    ensures Dedup(name, [c1, c2], store).0 == [c1]
  {
    var key := Key(name, c1.date);
    assert [c1, c2][..1] == [c1];
    assert [c1][..0] == [];
    assert Dedup(name, [c1][..0], store) == ([], store);
    assert [c1][0] == c1;
    assert Dedup(name, [c1], store).1 == store[key := |c1.items|];
    assert Dedup(name, [c1], store).0 == [] + [c1] == [c1];
  }

  // ---------------------------------------------------------------------
  // Posting the results

  /** What posting one result does: the changelog as left, the messages
      posted and the store afterwards. */
  datatype Step = Step(after: SC.ChangelogData, messages: seq<string>, store: Option<map<string, int>>)

  /** The Slack messages for a changelog: one when it has changes. */
  function SlackFor(doc: Document, d: SC.ChangelogData): seq<string>
  {
    if d.changes != [] then [SC.RenderSlack(d, doc.name, doc.url)] else []
  }

  /** `post_slack_message` for one result: with a store, the seen changes
      are dropped and the store updated; the changelog is then posted when
      it still has changes. */
  function NotifyOne(doc: Document, d: SC.ChangelogData, store: Option<map<string, int>>): (s: Step)
    ensures s.store.Some? <==> store.Some?
    ensures s.after.upcomingChanges == d.upcomingChanges
    ensures store.None? ==> s.after == d
  {
    if store.Some? then
      var dd := Dedup(doc.name, d.changes, store.value);
      var after := d.(changes := dd.0);
      Step(after, SlackFor(doc, after), Some(dd.1))
    else Step(d, SlackFor(doc, d), store)
  }

  datatype Notice = Notice(entries: seq<(Document, SC.ChangelogData)>, messages: seq<string>,
                           store: Option<map<string, int>>)

  /** `post_slack_message` over all results, in order, threading the store. */
  function Notify(entries: seq<(Document, SC.ChangelogData)>, store: Option<map<string, int>>): (n: Notice)
    ensures |n.entries| == |entries|
    ensures n.store.Some? <==> store.Some?
  {
    if entries == [] then Notice([], [], store)
    else
      var prev := Notify(entries[..|entries| - 1], store);
      var last := entries[|entries| - 1];
      var s := NotifyOne(last.0, last.1, prev.store);
      Notice(prev.entries + [(last.0, s.after)], prev.messages + s.messages, s.store)
  }

  /** Without a store the changelogs are left as they were, and exactly the
      results with changes are posted, in order. */
  lemma {:induction false} NotifyWithoutStore(entries: seq<(Document, SC.ChangelogData)>)
    ensures Notify(entries, None).entries == entries
    ensures Notify(entries, None).messages == Posted(entries)
  {
    if entries != [] {
      var init := entries[..|entries| - 1];
      NotifyWithoutStore(init);
      assert Notify(init, None).store == None;
      assert entries == init + [entries[|entries| - 1]];
    }
  }

  /** The Slack rendering of every result that has changes, in order. */
  function Posted(entries: seq<(Document, SC.ChangelogData)>): seq<string>
  {
    if entries == [] then []
    else
      var last := entries[|entries| - 1];
      Posted(entries[..|entries| - 1]) + SlackFor(last.0, last.1)
  }

  /** The documents stay where they were; each changelog keeps its upcoming
      changes and, with a store, is left with the first unseen of its
      changes. */
  lemma {:induction false} NotifyEntries(entries: seq<(Document, SC.ChangelogData)>, store: Option<map<string, int>>, k: nat)
    requires k < |entries|
    ensures Notify(entries, store).entries[k].0 == entries[k].0
    ensures Notify(entries, store).entries[k].1.upcomingChanges == entries[k].1.upcomingChanges
    ensures store.Some? ==>
      var before := Notify(entries[..k], store).store.value;
      Notify(entries, store).entries[k].1.changes == FirstUnseen(entries[k].0.name, entries[k].1.changes, before)
  {
    var init := entries[..|entries| - 1];
    if k < |entries| - 1 {
      NotifyEntries(init, store, k);
      assert init[..k] == entries[..k];
    } else {
      assert entries[..k] == init;
      if store.Some? {
        DedupIsFirstUnseen(entries[k].0.name, entries[k].1.changes, Notify(init, store).store.value);
      }
    }
  }

  /** With or without a store, the messages posted are the Slack renderings
      of the results as they stand after deduplication, for exactly those
      left with changes, in order. */
  lemma {:induction false} NotifyMessages(entries: seq<(Document, SC.ChangelogData)>, store: Option<map<string, int>>)
    ensures Notify(entries, store).messages == Posted(Notify(entries, store).entries)
  {
    if entries != [] {
      var init := entries[..|entries| - 1];
      NotifyMessages(init, store);
      var n := Notify(entries, store);
      assert n.entries[..|n.entries| - 1] == Notify(init, store).entries;
    }
  }

  /** `to_markdown` of every result, in order: the sections `write_file`
      joins. */
  function Sections(entries: seq<(Document, SC.ChangelogData)>): (r: seq<string>)
    ensures |r| == |entries|
  {
    if entries == [] then []
    else
      var last := entries[|entries| - 1];
      Sections(entries[..|entries| - 1]) + [SC.RenderMarkdown(last.1, last.0.name, last.0.url)]
  }

  lemma {:induction false} SectionsAt(entries: seq<(Document, SC.ChangelogData)>, k: nat)
    requires k < |entries|
    ensures Sections(entries)[k] == SC.RenderMarkdown(entries[k].1, entries[k].0.name, entries[k].0.url)
  {
    if k < |entries| - 1 {
      SectionsAt(entries[..|entries| - 1], k);
    }
  }

  lemma SectionsStep(entries: seq<(Document, SC.ChangelogData)>, k: nat)
    requires k < |entries|
    ensures Sections(entries[..k + 1])
         == Sections(entries[..k]) + [SC.RenderMarkdown(entries[k].1, entries[k].0.name, entries[k].0.url)]
  {
    assert entries[..k + 1][..k] == entries[..k];
  }

  /** The file holds one `to_markdown` section per result, in results
      order, separated by blank lines. */
  lemma FileSections(entries: seq<(Document, SC.ChangelogData)>, k: nat)
    requires k < |entries|
    ensures OccursAt(Join(Sections(entries), "\n\n"), Offset(Sections(entries), "\n\n", k),
                     SC.RenderMarkdown(entries[k].1, entries[k].0.name, entries[k].0.url))
  {
    SectionsAt(entries, k);
    JoinAt(Sections(entries), "\n\n", k);
  }

  // ---------------------------------------------------------------------
  // The run over all documents

  /** The `(doc, changelog)` pairs `process_doc` records for `docs`, in
      order, as values. */
  function Processed(docs: seq<Document>, browse: string -> Result<string, string>, trimLen: int,
                     summarise: string -> Result<SC.ChangelogData, string>,
                     today: Date, numDays: int): (r: seq<(Document, SC.ChangelogData)>)
    requires CutoffInRange(today, numDays)
    ensures |r| == |docs|
  {
    if docs == [] then []
    else
      var doc := docs[|docs| - 1];
      Processed(docs[..|docs| - 1], browse, trimLen, summarise, today, numDays)
        + [(doc, Recorded(Extract(browse(doc.url), trimLen, summarise, today, numDays)))]
  }

  /** The failure messages posted while processing `docs`, in order. */
  function Failures(docs: seq<Document>, browse: string -> Result<string, string>, trimLen: int,
                    summarise: string -> Result<SC.ChangelogData, string>,
                    today: Date, numDays: int): seq<string>
    requires CutoffInRange(today, numDays)
  {
    if docs == [] then []
    else
      var doc := docs[|docs| - 1];
      Failures(docs[..|docs| - 1], browse, trimLen, summarise, today, numDays)
        + FailureMessages(doc, Extract(browse(doc.url), trimLen, summarise, today, numDays))
  }

  /** Each document gets one pair, at its own place, holding the document. */
  lemma {:induction false} ProcessedAt(docs: seq<Document>, browse: string -> Result<string, string>, trimLen: int,
                                       summarise: string -> Result<SC.ChangelogData, string>,
                                       today: Date, numDays: int, k: nat)
    requires CutoffInRange(today, numDays) && k < |docs|
    ensures Processed(docs, browse, trimLen, summarise, today, numDays)[k]
         == (docs[k], Recorded(Extract(browse(docs[k].url), trimLen, summarise, today, numDays)))
  {
    if k < |docs| - 1 {
      ProcessedAt(docs[..|docs| - 1], browse, trimLen, summarise, today, numDays, k);
    }
  }

  /** After the run, the result at each document's place holds that
      document: processing appends in `docs` order and posting keeps every
      result's document where it was. */
  lemma ResultsFollowDocs(r0: seq<(Document, SC.ChangelogData)>, docs: seq<Document>,
                          browse: string -> Result<string, string>, trimLen: int,
                          summarise: string -> Result<SC.ChangelogData, string>,
                          today: Date, numDays: int, store: Option<map<string, int>>, k: nat)
    requires CutoffInRange(today, numDays) && k < |docs|
    ensures var all := r0 + Processed(docs, browse, trimLen, summarise, today, numDays);
      |Notify(all, store).entries| == |r0| + |docs| && Notify(all, store).entries[|r0| + k].0 == docs[k]
  {
    ProcessedAt(docs, browse, trimLen, summarise, today, numDays, k);
    NotifyEntries(r0 + Processed(docs, browse, trimLen, summarise, today, numDays), store, |r0| + k);
  }

  lemma NotifyStep(entries: seq<(Document, SC.ChangelogData)>, store: Option<map<string, int>>, k: nat)
    requires k < |entries|
    ensures var prev := Notify(entries[..k], store);
      var s := NotifyOne(entries[k].0, entries[k].1, prev.store);
      Notify(entries[..k + 1], store) == Notice(prev.entries + [(entries[k].0, s.after)], prev.messages + s.messages, s.store)
  {
    assert entries[..k + 1][..k] == entries[..k];
  }

  /** Replacing the first element after a prefix. */
  lemma ReplaceNext<T>(done: seq<T>, rest: seq<T>, x: T)
    requires rest != []
    ensures (done + rest)[|done| := x] == done + [x] + rest[1..]
  {
  }

  /** One more result posted: in the results list, with the first `i`
      entries already notified, entry `i` is replaced by its notified form,
      giving the first `i + 1` notified entries followed by the rest. */
  lemma NotifyAdvance(s: seq<(Document, SC.ChangelogData)>, store: Option<map<string, int>>, i: nat, n: Notice)
    requires i < |s| && n == Notify(s[..i], store)
    ensures |n.entries| == i && (n.entries + s[i..])[i] == s[i]
    ensures var step := NotifyOne(s[i].0, s[i].1, n.store);
      && (n.entries + s[i..])[i := (s[i].0, step.after)] == Notify(s[..i + 1], store).entries + s[i + 1..]
      && Notify(s[..i + 1], store).messages == n.messages + step.messages
      && Notify(s[..i + 1], store).store == step.store
  {
    NotifyStep(s, store, i);
    ReplaceNext(n.entries, s[i..], (s[i].0, NotifyOne(s[i].0, s[i].1, n.store).after));
    assert s[i..][1..] == s[i + 1..];
  }

  /** The application: the configuration, the store (absent when no Redis
      URL is set), the messages posted to Slack, the `(doc, changelog)`
      results gathered so far and the text last written to the output
      file. */
  class App {
    const docs: seq<Document>
    const trimLen: int
    const numDays: int
    var store: Option<map<string, int>>
    var slack: seq<string>
    var results: seq<(Document, SC.ChangelogData)>
    var written: Option<string>

    constructor (docs: seq<Document>, trimLen: int, numDays: int, store: Option<map<string, int>>)
      ensures this.docs == docs && this.trimLen == trimLen && this.numDays == numDays
      ensures this.store == store && slack == [] && results == [] && written == None
    {
      this.docs := docs;
      this.trimLen := trimLen;
      this.numDays := numDays;
      this.store := store;
      slack := [];
      results := [];
      written := None;
    }

    /** `extract_recent_changelog`: `browse` stands for the scraper's page
        for a URL (before `strip_empty_lines`), `summarise` for
        a summary obtained without blocking the event loop. As written the
        source calls the synchronous `extract_changelog` there, which fails
        (app.py:40; `ExtractAsWritten`). */
    method ExtractRecentChangelog(doc: Document, browse: string -> Result<string, string>,
                                  summarise: string -> Result<SC.ChangelogData, string>, today: Date)
      returns (r: Result<SC.ChangelogData, string>)
      requires CutoffInRange(today, numDays)
      ensures r == Extract(browse(doc.url), trimLen, summarise, today, numDays)
    {
      var page := browse(doc.url);
      if page.Failure? {
        return Failure(page.error);
      }
      var text := Scraper.PlaywrightScrape(page.value);
      text := PyPrefix(text, trimLen);
      var summary := summarise(text);
      if summary.Failure? {
        return Failure(summary.error);
      }
      var changelog := new SC.Changelog(summary.value.changes, summary.value.upcomingChanges);
      changelog.SelectRecentChanges(numDays, today);
      return Success(changelog.Data());
    }

    /** `process_doc`: exactly one pair is appended, holding the document
        and its changelog, which is empty after a failure; a failure also
        posts one message naming the document. */
    method ProcessDoc(doc: Document, browse: string -> Result<string, string>,
                      summarise: string -> Result<SC.ChangelogData, string>, today: Date)
      requires CutoffInRange(today, numDays)
      modifies this
      ensures results == old(results) + [(doc, Recorded(Extract(browse(doc.url), trimLen, summarise, today, numDays)))]
      ensures slack == old(slack) + FailureMessages(doc, Extract(browse(doc.url), trimLen, summarise, today, numDays))
      ensures store == old(store) && written == old(written)
    {
      var r := ExtractRecentChangelog(doc, browse, summarise, today);
      var changelog: SC.ChangelogData;
      if r.Success? {
        changelog := r.value;
      } else {
        slack := slack + [FailurePrefix + doc.name + FailureGot + r.error];
        changelog := SC.ChangelogData([], "");
      }
      results := results + [(doc, changelog)];
    }

    /** `write_file`: the file receives the `to_markdown` section of every
        result, in order, joined by blank lines. */
    method WriteFile()
      modifies this
      ensures written == Some(Join(Sections(results), "\n\n"))
      ensures results == old(results) && slack == old(slack) && store == old(store)
    {
      var sections := MarkdownSections();
      written := Some(Join(sections, "\n\n"));
    }

    /** The list comprehension in `write_file`. */
    method MarkdownSections() returns (sections: seq<string>)
      ensures sections == Sections(results)
    {
      sections := [];
      for k := 0 to |results|
        invariant sections == Sections(results[..k])
      {
        SectionsStep(results, k);
        var (doc, changelog) := results[k];
        sections := sections + [SC.RenderMarkdown(changelog, doc.name, doc.url)];
      }
      assert results[..|results|] == results;
    }

    /** The inner loop of `post_slack_message`: the changes whose key is not
        in the store yet, with their keys added to it. */
    method DedupChanges(name: string, changes: seq<SC.Change>) returns (kept: seq<SC.Change>)
      requires store.Some?
      modifies this
      ensures store.Some? && kept == Dedup(name, changes, old(store).value).0
      ensures store.value == Dedup(name, changes, old(store).value).1
      ensures results == old(results) && slack == old(slack) && written == old(written)
    {
      ghost var st0 := store.value;
      kept := [];
      for k := 0 to |changes|
        invariant store.Some? && kept == Dedup(name, changes[..k], st0).0
        invariant store.value == Dedup(name, changes[..k], st0).1
        invariant results == old(results) && slack == old(slack) && written == old(written)
      {
        assert changes[..k + 1][..k] == changes[..k];
        var key := "changelog:" + name + ":" + changes[k].date;
        if key in store.value {
          continue;
        }
        kept := kept + [changes[k]];
        store := Some(store.value[key := |changes[k].items|]);
      }
      assert changes[..|changes|] == changes;
    }

    /** The body of the loop in `post_slack_message` for result `i`. */
    method PostOne(i: nat)
      requires i < |results|
      modifies this
      ensures var e := old(results)[i];
        results == old(results)[i := (e.0, NotifyOne(e.0, e.1, old(store)).after)]
      ensures var e := old(results)[i];
        slack == old(slack) + NotifyOne(e.0, e.1, old(store)).messages
        && store == NotifyOne(e.0, e.1, old(store)).store
      ensures written == old(written)
    {
      var doc := results[i].0;
      var changelog := results[i].1;
      if store.Some? {
        var kept := DedupChanges(doc.name, changelog.changes);
        changelog := changelog.(changes := kept);
      }
      if changelog.changes != [] {
        slack := slack + [SC.RenderSlack(changelog, doc.name, doc.url)];
      }
      results := results[i := (doc, changelog)];
    }

    /** `post_slack_message`: the results are visited in order; with a
        store each changelog keeps only its unseen changes and the store
        gains their keys; every changelog left with changes is posted. */
    method PostSlackMessage()
      modifies this
      ensures results == Notify(old(results), old(store)).entries
      ensures slack == old(slack) + Notify(old(results), old(store)).messages
      ensures store == Notify(old(results), old(store)).store
      ensures written == old(written)
    {
      ghost var s := results;
      ghost var st0 := store;
      ghost var n := Notify(s[..0], st0);
      assert s[0..] == s;
      for i := 0 to |results|
        invariant |results| == |s| && written == old(written)
        invariant n == Notify(s[..i], st0)
        invariant results == n.entries + s[i..]
        invariant store == n.store && slack == old(slack) + n.messages
      {
        NotifyAdvance(s, st0, i, n);
        AppendAssoc(old(slack), n.messages, NotifyOne(s[i].0, s[i].1, n.store).messages);
        PostOne(i);
        n := Notify(s[..i + 1], st0);
      }
      assert s[..|s|] == s;
      assert s[|s|..] == [];
    }

    /** The loop over the documents in `_run`: each is processed in turn. */
    method ProcessAll(browse: string -> Result<string, string>,
                      summarise: string -> Result<SC.ChangelogData, string>, today: Date)
      requires CutoffInRange(today, numDays)
      modifies this
      ensures results == old(results) + Processed(docs, browse, trimLen, summarise, today, numDays)
      ensures slack == old(slack) + Failures(docs, browse, trimLen, summarise, today, numDays)
      ensures store == old(store) && written == old(written)
    {
      for k := 0 to |docs|
        invariant results == old(results) + Processed(docs[..k], browse, trimLen, summarise, today, numDays)
        invariant slack == old(slack) + Failures(docs[..k], browse, trimLen, summarise, today, numDays)
        invariant store == old(store) && written == old(written)
      {
        assert docs[..k + 1][..k] == docs[..k];
        ProcessDoc(docs[k], browse, summarise, today);
      }
      assert docs[..|docs|] == docs;
    }

    /** `_run`: every document is processed in order, then the file is
        written from all results, then the results are posted. */
    method Run(browse: string -> Result<string, string>,
               summarise: string -> Result<SC.ChangelogData, string>, today: Date)
      requires CutoffInRange(today, numDays)
      modifies this
      ensures var all := old(results) + Processed(docs, browse, trimLen, summarise, today, numDays);
        written == Some(Join(Sections(all), "\n\n"))
        && results == Notify(all, old(store)).entries
        && slack == old(slack) + Failures(docs, browse, trimLen, summarise, today, numDays)
                    + Notify(all, old(store)).messages
        && store == Notify(all, old(store)).store
    {
      ProcessAll(browse, summarise, today);
      WriteFile();
      PostSlackMessage();
    }
  }
}

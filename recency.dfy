/** The recency filter shared by the three changelog variants
    (src/exchange_changelog/changelog.py, exchange_changelog/changelog.py,
    exchange_changelog/tools/changelog.py): an item is kept when its date
    text parses as `%Y-%m-%d` and falls on or after `today - num_days`.
    The system clock is a parameter: `today` is what `date.today()` returned. */
module Recency {
  import opened Dates
  import opened Seqs

  /** `today - timedelta(days=num_days)` is a representable date (otherwise
      Python raises `OverflowError`). */
  predicate CutoffInRange(today: Date, numDays: int)
  {
    Valid(today) && 1 <= Ordinal(today) - numDays <= MaxOrdinal
  }

  /** The loop's test: the date parses and is on or after the cutoff. */
  predicate IsRecent(dateText: string, today: Date, numDays: int)
    requires CutoffInRange(today, numDays)
  {
    ParseDate(dateText).Some? && Ordinal(ParseDate(dateText).value) >= Ordinal(today) - numDays
  }

  /** The list the filter loop builds: the recent items, in input order. */
  function SelectRecent<T>(items: seq<T>, dateOf: T -> string, today: Date, numDays: int): seq<T>
    requires CutoffInRange(today, numDays)
  {
    if items == [] then []
    else SelectRecent(items[..|items| - 1], dateOf, today, numDays)
         + (if IsRecent(dateOf(items[|items| - 1]), today, numDays) then [items[|items| - 1]] else [])
  }

  /** Positions of the kept items. */
  function RecentPositions<T>(items: seq<T>, dateOf: T -> string, today: Date, numDays: int): seq<int>
    requires CutoffInRange(today, numDays)
  {
    if items == [] then []
    else RecentPositions(items[..|items| - 1], dateOf, today, numDays)
         + (if IsRecent(dateOf(items[|items| - 1]), today, numDays) then [|items| - 1] else [])
  }

  /** The kept items sit at increasing positions of the input: the result is
      an order-preserving subsequence. */
  lemma {:induction false} SelectRecentEmbeds<T>(items: seq<T>, dateOf: T -> string, today: Date, numDays: int)
    requires CutoffInRange(today, numDays)
    ensures Embeds(RecentPositions(items, dateOf, today, numDays), SelectRecent(items, dateOf, today, numDays), items)
    ensures IsSubsequence(SelectRecent(items, dateOf, today, numDays), items)
  {
    if items != [] {
      var init := items[..|items| - 1];
      var last := items[|items| - 1];
      SelectRecentEmbeds(init, dateOf, today, numDays);
      EmbedsExtend(RecentPositions(init, dateOf, today, numDays), SelectRecent(init, dateOf, today, numDays),
        init, last, IsRecent(dateOf(last), today, numDays));
      assert init + [last] == items;
    }
  }

  /** An item is in the result exactly when it is in the input and recent;
      unparseable dates are dropped, never an error. */
  lemma {:induction false} SelectRecentMembers<T>(items: seq<T>, dateOf: T -> string, today: Date, numDays: int)
    requires CutoffInRange(today, numDays)
    ensures forall x ::
      (x in SelectRecent(items, dateOf, today, numDays) <==> x in items && IsRecent(dateOf(x), today, numDays))
  {
    if items != [] {
      var init := items[..|items| - 1];
      SelectRecentMembers(init, dateOf, today, numDays);
      assert items == init + [items[|items| - 1]];
    }
  }

  /** Every kept item is recent. */
  lemma {:induction false} SelectRecentAreRecent<T>(items: seq<T>, dateOf: T -> string, today: Date, numDays: int)
    requires CutoffInRange(today, numDays)
    ensures forall k :: 0 <= k < |SelectRecent(items, dateOf, today, numDays)| ==>
      IsRecent(dateOf(SelectRecent(items, dateOf, today, numDays)[k]), today, numDays)
  {
    if items != [] {
      SelectRecentAreRecent(items[..|items| - 1], dateOf, today, numDays);
    }
  }

  /** Every item of the input is already recent, so the filter keeps all. */
  lemma {:induction false} SelectRecentAllRecent<T>(items: seq<T>, dateOf: T -> string, today: Date, numDays: int)
    requires CutoffInRange(today, numDays)
    requires forall k :: 0 <= k < |items| ==> IsRecent(dateOf(items[k]), today, numDays)
    ensures SelectRecent(items, dateOf, today, numDays) == items
  {
    if items != [] {
      SelectRecentAllRecent(items[..|items| - 1], dateOf, today, numDays);
    }
  }

  /** With `today` and `num_days` fixed, filtering twice is filtering once. */
  lemma SelectRecentIdempotent<T>(items: seq<T>, dateOf: T -> string, today: Date, numDays: int)
    requires CutoffInRange(today, numDays)
    ensures SelectRecent(SelectRecent(items, dateOf, today, numDays), dateOf, today, numDays)
      == SelectRecent(items, dateOf, today, numDays)
  {
    SelectRecentAreRecent(items, dateOf, today, numDays);
    SelectRecentAllRecent(SelectRecent(items, dateOf, today, numDays), dateOf, today, numDays);
  }

  /** The ordinal test is Python's date comparison against the cutoff date:
      whatever valid date `cutoff` is `num_days` before `today`, an item is
      recent exactly when its parsed date is on or after `cutoff`. */
  lemma IsRecentIsDateComparison(dateText: string, today: Date, numDays: int, cutoff: Date)
    requires CutoffInRange(today, numDays)
    requires Valid(cutoff) && Ordinal(cutoff) == Ordinal(today) - numDays
    ensures IsRecent(dateText, today, numDays)
      <==> ParseDate(dateText).Some? && OnOrBefore(cutoff, ParseDate(dateText).value)
  {
    if ParseDate(dateText).Some? {
      OrdinalOrder(cutoff, ParseDate(dateText).value);
    }
  }

  /** The boundary is inclusive: with `num_days` 14 and today 2024-10-20,
      a change dated 2024-10-06 is kept and one dated 2024-10-05 is not. */
  lemma InclusiveBoundary()
    ensures CutoffInRange(Date(2024, 10, 20), 14)
    ensures IsRecent("2024-10-06", Date(2024, 10, 20), 14)
    ensures !IsRecent("2024-10-05", Date(2024, 10, 20), 14)
  {
    var today := Date(2024, 10, 20);
    ParseIsoFormat(Date(2024, 10, 6));
    ParseIsoFormat(Date(2024, 10, 5));
    assert IsoFormat(Date(2024, 10, 6)) == "2024-10-06";
    assert IsoFormat(Date(2024, 10, 5)) == "2024-10-05";
  }
}

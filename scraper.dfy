/** src/exchange_changelog/scraper.py: `strip_empty_lines` and the browser
    scraper that returns through it. */
module Scraper {
  import opened Strings
  import opened Lines

  /** `strip_empty_lines`: the same loop as `normalize_whitespace`, so it
      meets the same specification and returns the same text on every input. */
  method StripEmptyLines(text: string) returns (r: string)
    ensures r == Normalize(text)
    ensures IsNormalForm(r)
    ensures SplitLines(r) == Kept(SplitLines(text))
  {
    var lines: seq<string> := [];
    var source := SplitLines(text);
    for i := 0 to |source|
      invariant lines == Kept(source[..i])
    {
      var stripped := Strip(source[i]);
      assert source[..i + 1][..i] == source[..i];
      if stripped != "" {
        lines := lines + [stripped];
      }
    }
    assert source[..|source|] == source;
    r := Join(lines, "\n");
    NormalizeLines(text);
  }

  /** `PlaywrightScraper.__call__`: the browser session and the markdown
      conversion are foreign, so `markdown` stands for the converted page;
      what the scraper returns has gone through `strip_empty_lines` and holds
      no blank or padded line. */
  method PlaywrightScrape(markdown: string) returns (r: string)
    ensures r == Normalize(markdown)
    ensures forall k :: 0 <= k < |SplitLines(r)| ==> IsNormalLine(SplitLines(r)[k])
  {
    r := StripEmptyLines(markdown);
  }
}

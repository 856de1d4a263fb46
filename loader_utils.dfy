/** src/exchange_changelog/loaders/utils.py: the whitespace normaliser that
    every loader's HTML-to-markdown conversion ends in. */
module LoaderUtils {
  import opened Strings
  import opened Lines

  /** `normalize_whitespace`: walks the lines of `text`, keeps each stripped
      non-blank line, and joins the kept lines with "\n". */
  method NormalizeWhitespace(text: string) returns (r: string)
    ensures r == Normalize(text)
    ensures IsNormalForm(r)
    ensures SplitLines(r) == Kept(SplitLines(text))
  {
    var lines: seq<string> := [];
    var source := SplitLines(text);
    for i := 0 to |source|
      invariant lines == Kept(source[..i])
    {
      var stripped := Strip(source[i]);
      assert source[..i + 1][..i] == source[..i];
      if stripped != "" {
        lines := lines + [stripped];
      }
    }
    assert source[..|source|] == source;
    r := Join(lines, "\n");
    NormalizeLines(text);
  }

  /** `html_to_markdown`: the markdown conversion (and, for bytes, the charset
      detection) are foreign libraries, so `markdown` stands for what they
      produce; the function returns through `normalize_whitespace`, so its
      output is always in normal form. */
  method HtmlToMarkdown(markdown: string) returns (r: string)
    ensures r == Normalize(markdown)
    ensures IsNormalForm(r)
  {
    r := NormalizeWhitespace(markdown);
  }
}

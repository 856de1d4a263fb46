/** exchange_changelog/tools/upcoming_changes.py: upcoming changes, each
    with a category, rendered as a bullet list under one heading. */
module UpcomingChanges {
  import opened Strings

  /** A change; the category is kept as its enum value text. */
  datatype Change = Change(content: string, categoryValue: string)

  const CategoryMark: string := " #"
  const Title: string := "## Upcoming Changes\n\n"
  const Bullet: string := "- "

  /** `Change.__str__`: the content followed by ` #` and the category value. */
  function ChangeStr(c: Change): (r: string)
    ensures StartsWith(r, c.content)
    ensures EndsWith(r, CategoryMark + c.categoryValue)
    ensures |r| == |c.content| + 2 + |c.categoryValue|
  {
    c.content + (CategoryMark + c.categoryValue)
  }

  /** The line written for one change. */
  function ChangeLine(c: Change): string
  {
    Bullet + ChangeStr(c) + "\n"
  }

  function ChangeLines(changes: seq<Change>): (r: seq<string>)
    ensures |r| == |changes|
  {
    if changes == [] then []
    else ChangeLines(changes[..|changes| - 1]) + [ChangeLine(changes[|changes| - 1])]
  }

  lemma {:induction false} ChangeLinesAt(changes: seq<Change>, k: nat)
    requires k < |changes|
    ensures ChangeLines(changes)[k] == ChangeLine(changes[k])
  {
    if k < |changes| - 1 {
      ChangeLinesAt(changes[..|changes| - 1], k);
    }
  }

  /** What `UpcomingChanges.pretty_repr` returns. */
  function Render(changes: seq<Change>): string
  {
    if changes == [] then "" else Title + Concat(ChangeLines(changes))
  }

  lemma ChangeLinesStep(pre: string, changes: seq<Change>, k: nat)
    requires k < |changes|
    ensures pre + Concat(ChangeLines(changes[..k + 1]))
         == pre + Concat(ChangeLines(changes[..k])) + ChangeLine(changes[k])
  {
    assert changes[..k + 1][..k] == changes[..k];
    AppendAssoc(pre, Concat(ChangeLines(changes[..k])), ChangeLine(changes[k]));
  }

  /** `UpcomingChanges.pretty_repr`: the empty string when there are no
      changes, otherwise the heading and one `- ` line per change. */
  method PrettyRepr(changes: seq<Change>) returns (s: string)
    ensures s == Render(changes)
  {
    if changes == [] {
      return "";
    }
    s := Title;
    for k := 0 to |changes|
      invariant s == Title + Concat(ChangeLines(changes[..k]))
    {
      ChangeLinesStep(Title, changes, k);
      s := s + (Bullet + ChangeStr(changes[k]) + "\n");
    }
    assert changes[..|changes|] == changes;
  }

  // ---------------------------------------------------------------------
  // Properties of the rendering

  /** The result is empty exactly when there are no changes; otherwise it
      starts with the heading and ends with a line break. */
  lemma RenderShape(changes: seq<Change>)
    ensures Render(changes) == "" <==> changes == []
    ensures changes != [] ==> StartsWith(Render(changes), Title)
    ensures changes != [] ==> EndsWith(Render(changes), "\n")
  {
    if changes != [] {
      var lines := ChangeLines(changes);
      assert lines[|lines| - 1] == ChangeLine(changes[|changes| - 1]);
      ConcatEndsWith(lines, "\n");
      PrefixSplit(Title, Concat(lines), "");
      assert Title + Concat(lines) + "" == Title + Concat(lines);
    }
  }

  /** Change `k`'s line sits after the heading and the lines of the changes
      before it: the list keeps the input order. */
  lemma ChangeInOrder(changes: seq<Change>, k: nat)
    requires k < |changes|
    ensures OccursAt(Render(changes), |Title| + |Concat(ChangeLines(changes[..k]))|, ChangeLine(changes[k]))
  {
    var lines := ChangeLines(changes);
    ChangeLinesAt(changes, k);
    assert ChangeLines(changes[..k]) == lines[..k] by {
      ChangeLinesPrefix(changes, k);
    }
    ConcatOccurs(Title, lines, k);
    OccursAtEqual(Title + Concat(lines), |Title| + |Concat(lines[..k])|, lines[k],
                  Render(changes), |Title| + |Concat(ChangeLines(changes[..k]))|, ChangeLine(changes[k]));
  }

  lemma {:induction false} ChangeLinesPrefix(changes: seq<Change>, k: nat)
    requires k <= |changes|
    ensures ChangeLines(changes[..k]) == ChangeLines(changes)[..k]
  {
    if k < |changes| {
      var init := changes[..|changes| - 1];
      ChangeLinesPrefix(init, k);
      assert init[..k] == changes[..k];
    } else {
      assert changes[..k] == changes;
    }
  }
}

/** generate_prompt.py: `Prompt.__str__`, a system prompt rendered as
    eleven elements joined by line feeds: the description, then five
    headed sections whose lists become `- x` lines. */
module PromptText {
  import opened Strings

  datatype Example = Example(input: string, output: string)

  datatype Prompt = Prompt(description: string, guidelines: seq<string>, steps: seq<string>,
                           outputFormat: string, examples: seq<Example>, notes: seq<string>)

  const Bullet: string := "- "
  const Arrow: string := " -> "
  const Guidelines: string := "# Guidelines"
  const Steps: string := "# Steps"
  const OutputFormat: string := "# Output Format"
  const Examples: string := "# Examples"
  const Notes: string := "# Notes"

  /** `[f"- {x}" for x in xs]`. */
  function BulletLines(xs: seq<string>): (r: seq<string>)
    ensures |r| == |xs|
  {
    if xs == [] then [] else [Bullet + xs[0]] + BulletLines(xs[1..])
  }

  /** `f"- {e.input} -> {e.output}"`. */
  function ExampleLine(e: Example): string
  {
    Bullet + (e.input + (Arrow + e.output))
  }

  function ExampleLines(es: seq<Example>): (r: seq<string>)
    ensures |r| == |es|
  {
    if es == [] then [] else [ExampleLine(es[0])] + ExampleLines(es[1..])
  }

  /** The list `__str__` joins. */
  function Elements(p: Prompt): seq<string>
  {
    [ p.description,
      Guidelines, Join(BulletLines(p.guidelines), "\n"),
      Steps, Join(BulletLines(p.steps), "\n"),
      OutputFormat, p.outputFormat,
      Examples, Join(ExampleLines(p.examples), "\n"),
      Notes, Join(BulletLines(p.notes), "\n") ]
  }

  /** `Prompt.__str__`. */
  function Render(p: Prompt): string
  {
    Join(Elements(p), "\n")
  }

  // ---------------------------------------------------------------------
  // Properties of the rendering

  lemma {:induction false} BulletLinesAt(xs: seq<string>, k: nat)
    requires k < |xs|
    ensures BulletLines(xs)[k] == Bullet + xs[k]
  {
    if k > 0 {
      BulletLinesAt(xs[1..], k - 1);
    }
  }

  lemma {:induction false} ExampleLinesAt(es: seq<Example>, k: nat)
    requires k < |es|
    ensures ExampleLines(es)[k] == ExampleLine(es[k])
  {
    if k > 0 {
      ExampleLinesAt(es[1..], k - 1);
    }
  }

  /** Eleven elements: the description first, the five headings at the
      odd places, and a section left empty exactly when its list is. */
  lemma ElementsShape(p: Prompt)
    ensures |Elements(p)| == 11
    ensures Elements(p)[0] == p.description && Elements(p)[6] == p.outputFormat
    ensures Elements(p)[1] == Guidelines && Elements(p)[3] == Steps && Elements(p)[5] == OutputFormat
    ensures Elements(p)[7] == Examples && Elements(p)[9] == Notes
    ensures Elements(p)[2] == "" <==> p.guidelines == []
    ensures Elements(p)[4] == "" <==> p.steps == []
    ensures Elements(p)[8] == "" <==> p.examples == []
    ensures Elements(p)[10] == "" <==> p.notes == []
  {
    BulletsEmptyIff(p.guidelines);
    BulletsEmptyIff(p.steps);
    BulletsEmptyIff(p.notes);
    if p.examples != [] {
      JoinStartsWithFirst(ExampleLines(p.examples), "\n");
      ExampleLinesAt(p.examples, 0);
    }
  }

  lemma BulletsEmptyIff(xs: seq<string>)
    ensures Join(BulletLines(xs), "\n") == "" <==> xs == []
  {
    if xs != [] {
      JoinStartsWithFirst(BulletLines(xs), "\n");
      BulletLinesAt(xs, 0);
    }
  }

  /** The prompt begins with the description. */
  lemma StartsWithDescription(p: Prompt)
    ensures StartsWith(Render(p), p.description)
  {
    JoinStartsWithFirst(Elements(p), "\n");
  }

  /** The five headings each stand at their place in the prompt. */
  lemma HeadingsAt(p: Prompt)
    ensures OccursAt(Render(p), Offset(Elements(p), "\n", 1), Guidelines)
    ensures OccursAt(Render(p), Offset(Elements(p), "\n", 3), Steps)
    ensures OccursAt(Render(p), Offset(Elements(p), "\n", 5), OutputFormat)
    ensures OccursAt(Render(p), Offset(Elements(p), "\n", 7), Examples)
    ensures OccursAt(Render(p), Offset(Elements(p), "\n", 9), Notes)
  {
    var e := Elements(p);
    JoinAt(e, "\n", 1);
    JoinAt(e, "\n", 3);
    JoinAt(e, "\n", 5);
    JoinAt(e, "\n", 7);
    JoinAt(e, "\n", 9);
  }

  /** The headings' places come in the order Guidelines, Steps, Output
      Format, Examples, Notes, each after the whole of the one before. */
  lemma HeadingsInOrder(p: Prompt)
    ensures Offset(Elements(p), "\n", 1) + |Guidelines| < Offset(Elements(p), "\n", 3)
    ensures Offset(Elements(p), "\n", 3) + |Steps| < Offset(Elements(p), "\n", 5)
    ensures Offset(Elements(p), "\n", 5) + |OutputFormat| < Offset(Elements(p), "\n", 7)
    ensures Offset(Elements(p), "\n", 7) + |Examples| < Offset(Elements(p), "\n", 9)
  {
    var e := Elements(p);
    OffsetGrows(e, "\n", 1, 3);
    OffsetGrows(e, "\n", 3, 5);
    OffsetGrows(e, "\n", 5, 7);
    OffsetGrows(e, "\n", 7, 9);
  }

  /** Guideline `k` appears as the line `- x` inside the Guidelines
      section, after the lines of the guidelines before it; steps and notes
      render the same way in their sections. */
  lemma GuidelineLine(p: Prompt, k: nat)
    requires k < |p.guidelines|
    ensures OccursAt(Render(p), Offset(Elements(p), "\n", 2) + Offset(BulletLines(p.guidelines), "\n", k),
                     Bullet + p.guidelines[k])
  {
    SectionLine(p, 2, BulletLines(p.guidelines), k);
    BulletLinesAt(p.guidelines, k);
  }

  lemma StepLine(p: Prompt, k: nat)
    requires k < |p.steps|
    ensures OccursAt(Render(p), Offset(Elements(p), "\n", 4) + Offset(BulletLines(p.steps), "\n", k),
                     Bullet + p.steps[k])
  {
    SectionLine(p, 4, BulletLines(p.steps), k);
    BulletLinesAt(p.steps, k);
  }

  lemma NoteLine(p: Prompt, k: nat)
    requires k < |p.notes|
    ensures OccursAt(Render(p), Offset(Elements(p), "\n", 10) + Offset(BulletLines(p.notes), "\n", k),
                     Bullet + p.notes[k])
  {
    SectionLine(p, 10, BulletLines(p.notes), k);
    BulletLinesAt(p.notes, k);
  }

  /** Example `k` appears as `- input -> output` in the Examples section. */
  lemma ExampleLineAt(p: Prompt, k: nat)
    requires k < |p.examples|
    ensures OccursAt(Render(p), Offset(Elements(p), "\n", 8) + Offset(ExampleLines(p.examples), "\n", k),
                     Bullet + p.examples[k].input + Arrow + p.examples[k].output)
  {
    SectionLine(p, 8, ExampleLines(p.examples), k);
    ExampleLinesAt(p.examples, k);
    AppendAssoc(Bullet, p.examples[k].input, Arrow + p.examples[k].output);
    AppendAssoc(Bullet + p.examples[k].input, Arrow, p.examples[k].output);
  }

  /** Line `k` of the section held by element `i` lands at the section's
      offset plus the line's offset inside it. */
  lemma SectionLine(p: Prompt, i: nat, lines: seq<string>, k: nat)
    requires i < 11 && k < |lines|
    requires Elements(p)[i] == Join(lines, "\n")
    ensures OccursAt(Render(p), Offset(Elements(p), "\n", i) + Offset(lines, "\n", k), lines[k])
  {
    NestedJoinAt(Render(p), Elements(p), "\n", i, lines, "\n", k);
  }
}

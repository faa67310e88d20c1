/**
What proposals, designs and task lists share: "## " sections of prose, and sections kept only as text.
*/
module Sections {
  import opened Text
  import opened OpenSpec
  import opened Markdown

  // ---------------------------------------------------------------------------------------
  // Printed lines start flush left and never head a section without a name
  // ---------------------------------------------------------------------------------------

  /** A section heading with no name left once trimmed. */
  predicate Hollow(raw: string) {
    ClassifyTop(raw) == SectionHead("")
  }

  predicate TidyLine(l: string) {
    OneLine(l) && FlushLeft(l) && !Hollow(l)
  }

  ghost predicate Tidy(ls: seq<string>) {
    forall l | l in ls :: TidyLine(l)
  }

  lemma TidyAppend(a: seq<string>, b: seq<string>)
    requires Tidy(a) && Tidy(b)
    ensures Tidy(a + b)
  {
    hide TidyLine;
  }

  lemma {:induction false} TidyFlat<T>(f: T -> seq<string>, xs: seq<T>)
    requires forall x | x in xs :: Tidy(f(x))
    ensures Tidy(Flat(f, xs))
  {
    hide TidyLine;
    if xs != [] {
      assert xs[0] in xs;
      TidyFlat(f, xs[1..]);
      TidyAppend(f(xs[0]), Flat(f, xs[1..]));
    }
  }

  lemma TidyField(l: string)
    requires Field(l)
    ensures TidyLine(l)
  {
    hide TrimSpace, TrimRight;
    TrimmedStays(l);
    if SECTION <= l {
      assert IsSpace(l[2]) && |l| > 3;
      assert l[3..][|l[3..]| - 1] == l[|l| - 1];
      VisibleRemains(l[3..]);
    }
  }

  lemma TidyTitle(t: string)
    requires Field(t)
    ensures Tidy([TITLE + t])
  {
    hide Hollow;
    if t == "" {
      assert TITLE + t == TITLE;
      ReadNoTitle();
      assert !Hollow(TITLE) by { NoTitleNotHollow(); }
    } else {
      LeadTrimmed(TITLE, t);
      TidyField(TITLE + t);
    }
  }

  lemma NoTitleNotHollow()
    ensures !Hollow(TITLE)
  {
    ReadNoTitle();
  }

  lemma TidyBlock(p: string, taken: string -> bool)
    requires Prose(p, taken)
    ensures Tidy(Block(p))
  {
    hide Trimmed, TidyLine;
    BlockCollected(p, taken);
    forall l | l in Block(p) ensures TidyLine(l) {
      assert Plain(l, taken);
      TidyField(l);
    }
  }

  lemma TidyHeading(h: string)
    requires Field(h) && h != ""
    ensures Tidy(["", SECTION + h])
  {
    hide TidyLine;
    LeadTrimmed(SECTION, h);
    assert OneLine(SECTION + h);
    TidyField(SECTION + h);
    EmptyTidy();
  }

  lemma TidyBullet(b: string)
    requires Field(b) && b != ""
    ensures TidyLine("- " + b)
  {
    LeadTrimmed("- ", b);
    TidyField("- " + b);
  }

  lemma EmptyTidy()
    ensures TidyLine("")
  {
    TidyField("");
  }

  /** Printed text splits into its lines, none of which hides a heading or heads a nameless section. */
  lemma TidySplits(ls: seq<string>)
    requires Tidy(ls)
    ensures Split(Unlines(ls)) == ls + [""]
    ensures forall l | l in Split(Unlines(ls)) :: FlushLeft(l) && !Indented(l, IsTop) && !Hollow(l)
  {
    hide FlushLeft, Unlines, Split, Indented, Hollow;
    SplitUnlines(ls);
    EmptyTidy();
    forall l | l in ls + [""] ensures FlushLeft(l) && !Indented(l, IsTop) && !Hollow(l) {
      assert l in ls || l == "";
      FlushNotIndented(l);
    }
  }

  // ---------------------------------------------------------------------------------------
  // Prose sections and kept sections
  // ---------------------------------------------------------------------------------------

  /** A prose section, printed only when there is prose. */
  function Titled(heading: string, p: string): seq<string> {
    if p == "" then [] else ["", SECTION + heading] + Block(p)
  }

  /** A section kept as text; without a heading it is not printed. */
  function ExtraLines(x: ExtraSection): seq<string> {
    if x.heading == "" then [] else ["", SECTION + x.heading] + Block(x.body)
  }

  ghost predicate ExtraOk(x: ExtraSection, taken: string -> bool) {
    Field(x.heading) && Prose(x.body, taken)
  }

  lemma TidyTitled(heading: string, p: string, taken: string -> bool)
    requires Field(heading) && heading != "" && Prose(p, taken)
    ensures Tidy(Titled(heading, p))
  {
    hide Tidy, Block;
    TidyHeading(heading);
    TidyBlock(p, taken);
    TidyAppend(["", SECTION + heading], Block(p));
    TidyNothing();
  }

  lemma TidyNothing()
    ensures Tidy([])
  {
  }

  lemma TidyExtras(xs: seq<ExtraSection>, taken: string -> bool)
    requires forall x | x in xs :: ExtraOk(x, taken)
    ensures Tidy(Flat(ExtraLines, xs))
  {
    hide Tidy, Block, Field, Prose;
    forall x | x in xs ensures Tidy(ExtraLines(x)) {
      assert ExtraOk(x, taken);
      TidyBlock(x.body, taken);
      if x.heading != "" {
        TidyHeading(x.heading);
        TidyAppend(["", SECTION + x.heading], Block(x.body));
      }
      TidyNothing();
    }
    TidyFlat(ExtraLines, xs);
  }

  lemma TitledText(b: string, heading: string, p: string)
    requires p != ""
    ensures b + Unlines(Titled(heading, p)) == b + "\n" + (SECTION + heading) + "\n" + (p + "\n")
  {
    hide Unlines, Block;
    var head := ["", SECTION + heading];
    WriteSection(b, [], heading);
    UnlinesNothing();
    assert [] + head == head && b + Unlines([]) == b;
    WriteBlock(b, head, p);
  }

  method RenderTitled(b: string, heading: string, p: string) returns (out: string)
    ensures out == b + Unlines(Titled(heading, p))
  {
    hide Unlines, Block;
    UnlinesNothing();
    if p == "" {
      return b;
    }
    TitledText(b, heading, p);
    out := b + "\n" + (SECTION + heading) + "\n" + (p + "\n");
  }

  method RenderExtras(b: string, xs: seq<ExtraSection>) returns (out: string)
    ensures out == b + Unlines(Flat(ExtraLines, xs))
  {
    hide Unlines, Block, Flat;
    out := b;
    var i := 0;
    NoItems([], ExtraLines, xs);
    UnlinesNothing();
    while i < |xs|
      invariant 0 <= i <= |xs|
      invariant out == b + Unlines([] + Flat(ExtraLines, xs[..i]))
    {
      WriteItem(b, [], ExtraLines, xs, i);
      if xs[i].heading != "" {
        ghost var head := ["", SECTION + xs[i].heading];
        WriteSection(out, [], xs[i].heading);
        assert [] + head == head;
        WriteBlock(out, head, xs[i].body);
        out := out + "\n" + (SECTION + xs[i].heading) + "\n";
        if xs[i].body != "" {
          out := out + (xs[i].body + "\n");
        }
      }
      i := i + 1;
    }
    assert xs[..i] == xs;
    assert [] + Flat(ExtraLines, xs) == Flat(ExtraLines, xs);
  }
}

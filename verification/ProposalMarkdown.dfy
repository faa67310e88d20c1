/** Change proposals: intent, labelled scope bullets, approach and sections kept as text. */
module ProposalMarkdown {
  import opened Text
  import opened OpenSpec
  import opened Markdown
  import opened Sections

  datatype Place =
    | Outside
    | InIntent
    | InScope(excluded: bool)
    | InApproach
    | InExtra(heading: string, lines: seq<string>)

  datatype State = State(title: string, place: Place, intent: seq<string>, scopeIn: seq<string>, scopeOut: seq<string>,
                         approach: seq<string>, extras: seq<ExtraSection>)

  const START := State("", Outside, [], [], [], [], [])

  /** A heading names a modeled section by its beginning, in any letter case; any other section is kept as text. */
  function PlaceOf(heading: string): Place {
    var h := Lower(heading);
    if "intent" <= h then InIntent
    else if "scope" <= h then InScope(false)
    else if "approach" <= h then InApproach
    else InExtra(heading, [])
  }

  function Flush(st: State): State {
    match st.place
    case InExtra(h, ls) => st.(extras := st.extras + [ExtraSection(h, Collected(ls))], place := Outside)
    case _ => st
  }

  function TakeScope(st: State, t: string): State
    requires st.place.InScope?
  {
    var low, body := Lower(t), BulletBody(t);
    if "in scope" <= low then st.(place := InScope(false))
    else if "out of scope" <= low || "out-of-scope" <= low then st.(place := InScope(true))
    else if body.None? then st
    else if st.place.excluded then st.(scopeOut := st.scopeOut + [body.value])
    else st.(scopeIn := st.scopeIn + [body.value])
  }

  function TakeLine(st: State, t: string): State {
    match st.place
    case Outside => st
    case InIntent => st.(intent := st.intent + [t])
    case InScope(_) => TakeScope(st, t)
    case InApproach => st.(approach := st.approach + [t])
    case InExtra(h, ls) => st.(place := InExtra(h, ls + [t]))
  }

  function Line(st: State, raw: string): State {
    match ClassifyTop(raw)
    case SectionHead(h) => Flush(st).(place := PlaceOf(h))
    case TitleHead(t) => st.(title := t)
    case Other(t) => TakeLine(st, t)
    case _ => st
  }

  function Finish(st: State): Proposal {
    Proposal(st.title, Collected(st.intent), st.scopeIn, st.scopeOut, Collected(st.approach), Flush(st).extras)
  }

  function Parse(text: string): Proposal {
    Finish(Fold(Line, START, Split(text)))
  }

  // ---------------------------------------------------------------------------------------
  // Printing
  // ---------------------------------------------------------------------------------------

  function Bullet(item: string): seq<string> {
    ["- " + item]
  }

  function Labelled(lead: string, items: seq<string>): seq<string> {
    if items == [] then [] else [lead] + Flat(Bullet, items)
  }

  function ScopeLines(ins: seq<string>, outs: seq<string>): seq<string> {
    if ins == [] && outs == [] then []
    else ["", SECTION + "Scope"] + Labelled("In scope:", ins) + (if ins != [] && outs != [] then [""] else []) +
         Labelled("Out of scope:", outs)
  }

  function Lines(p: Proposal): seq<string> {
    [TITLE + p.title] + Titled("Intent", p.intent) + ScopeLines(p.scopeIn, p.scopeOut) +
    Titled("Approach", p.approach) + Flat(ExtraLines, p.extras)
  }

  function Print(p: Proposal): string {
    Unlines(Lines(p))
  }

  // ---------------------------------------------------------------------------------------
  // Canonical proposals
  // ---------------------------------------------------------------------------------------

  predicate Item(s: string) {
    s != "" && Field(s)
  }

  ghost predicate KeptOk(x: ExtraSection, taken: string -> bool) {
    ExtraOk(x, taken) && PlaceOf(x.heading).InExtra?
  }

  ghost predicate ProposalOk(p: Proposal, taken: string -> bool) {
    && Field(p.title)
    && Prose(p.intent, taken)
    && (forall s | s in p.scopeIn :: Item(s))
    && (forall s | s in p.scopeOut :: Item(s))
    && Prose(p.approach, taken)
    && (forall x | x in p.extras :: KeptOk(x, taken))
  }

  /** What survives printing: no prose line reads as a heading, no kept section is nameless. */
  ghost predicate Canonical(p: Proposal) {
    ProposalOk(p, IsTop) && forall x | x in p.extras :: x.heading != ""
  }

  ghost predicate PlaceOk(pl: Place, taken: string -> bool) {
    pl.InExtra? ==> Field(pl.heading) && PlaceOf(pl.heading).InExtra? && AllPlain(pl.lines, taken)
  }

  ghost predicate StateOk(st: State, taken: string -> bool) {
    && Field(st.title)
    && PlaceOk(st.place, taken)
    && AllPlain(st.intent, taken)
    && (forall s | s in st.scopeIn :: Item(s))
    && (forall s | s in st.scopeOut :: Item(s))
    && AllPlain(st.approach, taken)
    && (forall x | x in st.extras :: KeptOk(x, taken))
  }

  /** No kept section so far is nameless. */
  ghost predicate Named(st: State) {
    && (forall x | x in st.extras :: x.heading != "")
    && (st.place.InExtra? ==> st.place.heading != "")
  }

  lemma FlushOk(st: State, taken: string -> bool)
    requires StateOk(st, taken)
    ensures StateOk(Flush(st), taken) && Flush(st).place == (if st.place.InExtra? then Outside else st.place)
    ensures Named(st) ==> Named(Flush(st))
  {
    hide Field, AllPlain, Item, Collected, Prose, PlaceOf;
    if st.place.InExtra? {
      CollectedBlock(st.place.lines, taken);
    }
  }

  lemma LineOk(st: State, raw: string, taken: string -> bool)
    requires StateOk(st, taken) && OneLine(raw)
    requires forall t | ClassifyTop(raw) == Other(t) :: !taken(t)
    ensures StateOk(Line(st, raw), taken)
    ensures Named(st) && !Hollow(raw) ==> Named(Line(st, raw))
  {
    hide Trimmed, OneLine, KeptOk, ClassifyTop, Flush, BulletBody, Lower;
    ClassifyYields(raw);
    FlushOk(st, taken);
    match ClassifyTop(raw)
    case SectionHead(h) => assert AllPlain([], taken);
    case Other(t) =>
      assert Plain(t, taken);
      if BulletBody(t).Some? { BulletYields(t); }
    case _ =>
  }

  lemma {:induction false} FoldOk(st: State, ls: seq<string>, taken: string -> bool)
    requires StateOk(st, taken)
    requires forall l | l in ls :: OneLine(l) && forall t | ClassifyTop(l) == Other(t) :: !taken(t)
    ensures StateOk(Fold(Line, st, ls), taken)
    ensures Named(st) && (forall l | l in ls :: !Hollow(l)) ==> Named(Fold(Line, st, ls))
    decreases |ls|
  {
    hide StateOk, OneLine, ClassifyTop, Line, Hollow, Named;
    if ls != [] {
      assert ls[0] in ls;
      LineOk(st, ls[0], taken);
      FoldOk(Line(st, ls[0]), ls[1..], taken);
    }
  }

  lemma ParseOk(text: string, taken: string -> bool)
    requires forall l | l in Split(text) :: forall t | ClassifyTop(l) == Other(t) :: !taken(t)
    ensures ProposalOk(Parse(text), taken)
    ensures (forall l | l in Split(text) :: !Hollow(l)) ==> forall x | x in Parse(text).extras :: x.heading != ""
  {
    hide ClassifyTop, Field, AllPlain, KeptOk, Flush, Collected, Split, Prose, Line, Item, Hollow;
    SplitPieces(text);
    StartOk(taken);
    FoldOk(START, Split(text), taken);
    var st := Fold(Line, START, Split(text));
    FlushOk(st, taken);
    CollectedBlock(st.intent, taken);
    CollectedBlock(st.approach, taken);
  }

  lemma StartOk(taken: string -> bool)
    ensures StateOk(START, taken) && Named(START)
  {
  }

  // ---------------------------------------------------------------------------------------
  // Printed proposals parse back
  // ---------------------------------------------------------------------------------------

  lemma IntentName()
    ensures PlaceOf("Intent") == InIntent && Field("Intent")
  {
    hide Lower;
    assert "intent" <= Lower("Intent");
  }

  lemma ScopeName()
    ensures PlaceOf("Scope") == InScope(false) && Field("Scope")
  {
    hide Lower;
    assert Lower("Scope")[0] == 's';
    assert "scope" <= Lower("Scope");
  }

  lemma ApproachName()
    ensures PlaceOf("Approach") == InApproach && Field("Approach")
  {
    hide Lower;
    assert Lower("Approach")[0] == 'a';
    assert "approach" <= Lower("Approach");
  }

  lemma SectionReads(st: State, name: string)
    requires Field(name) && name != ""
    ensures Fold(Line, st, ["", SECTION + name]) == Flush(st).(place := PlaceOf(name))
  {
    hide ClassifyTop, Field, PlaceOf, Flush;
    ReadBlank();
    ReadSection(name);
    assert ["", SECTION + name] == [""] + [SECTION + name];
    FoldAppend(Line, st, [""], [SECTION + name]);
    FoldOne(Line, st, "");
    FoldOne(Line, st, SECTION + name);
  }

  function AddProse(st: State, ls: seq<string>): State {
    match st.place
    case InIntent => st.(intent := st.intent + ls)
    case InApproach => st.(approach := st.approach + ls)
    case InExtra(h, kept) => st.(place := InExtra(h, kept + ls))
    case _ => st
  }

  lemma {:induction false} ProseReads(st: State, ls: seq<string>)
    requires (st.place.InIntent? || st.place.InApproach? || st.place.InExtra?) && AllPlain(ls, IsTop)
    ensures Fold(Line, st, ls) == AddProse(st, ls)
    decreases |ls|
  {
    hide ClassifyTop, Field, IsTop;
    if ls == [] {
      assert forall xs: seq<string> :: xs + ls == xs;
    } else {
      assert ls[0] in ls;
      ReadPlain(ls[0]);
      var st' := Line(st, ls[0]);
      assert st' == AddProse(st, [ls[0]]);
      forall l | l in ls[1..] ensures Plain(l, IsTop) { assert l in ls; }
      ProseReads(st', ls[1..]);
      assert forall xs: seq<string> :: xs + [ls[0]] + ls[1..] == xs + ls;
    }
  }

  lemma TitledReads(st: State, name: string, p: string)
    requires Field(name) && name != "" && Prose(p, IsTop)
    requires PlaceOf(name).InIntent? || PlaceOf(name).InApproach?
    requires !st.place.InExtra?
    ensures var st' := Fold(Line, st, Titled(name, p));
            && !st'.place.InExtra?
            && st' == AddProse(st.(place := PlaceOf(name)), Block(p)).(place := st'.place)
  {
    hide Field, Prose, Block, AllPlain, PlaceOf, Line;
    BlockCollected(p, IsTop);
    if p == "" {
      assert Block(p) == [] by { NoBlock(); }
    } else {
      SectionReads(st, name);
      FoldAppend(Line, st, ["", SECTION + name], Block(p));
      ProseReads(st.(place := PlaceOf(name)), Block(p));
    }
  }

  lemma NoBlock()
    ensures Block("") == []
  {
  }

  lemma LabelLowers()
    ensures "out of scope" <= Lower("Out of scope:") && "in scope" <= Lower("In scope:") && !("in scope" <= Lower("Out of scope:"))
    ensures !("out of scope" <= Lower("In scope:"))
  {
    hide Lower;
    assert Lower("Out of scope:")[0] == 'o' && Lower("In scope:")[0] == 'i';
  }

  lemma LabelReads(st: State, excluded: bool)
    requires st.place.InScope?
    ensures Line(st, if excluded then "Out of scope:" else "In scope:") == st.(place := InScope(excluded))
  {
    hide Lower, ClassifyTop, BulletBody, Trimmed;
    var l := if excluded then "Out of scope:" else "In scope:";
    assert Trimmed(l) by { LabelsTrimmed(); }
    NotAHeading(l);
    ReadPlain(l);
    LabelLowers();
  }

  lemma LabelsTrimmed()
    ensures Trimmed("Out of scope:") && Trimmed("In scope:")
  {
  }

  function AddItems(st: State, items: seq<string>): State
    requires st.place.InScope?
  {
    if st.place.excluded then st.(scopeOut := st.scopeOut + items) else st.(scopeIn := st.scopeIn + items)
  }

  lemma {:induction false} BulletsRead(st: State, items: seq<string>)
    requires st.place.InScope? && forall s | s in items :: Item(s)
    ensures Fold(Line, st, Flat(Bullet, items)) == AddItems(st, items)
    decreases |items|
  {
    hide ClassifyTop, Field, BulletBody, Lower;
    if items == [] {
      assert forall xs: seq<string> :: xs + items == xs;
    } else {
      var l := "- " + items[0];
      assert items[0] in items;
      ReadBullet(items[0]);
      assert Lower(l)[0] == '-';
      var st' := Line(st, l);
      assert st' == AddItems(st, [items[0]]);
      forall s | s in items[1..] ensures Item(s) { assert s in items; }
      BulletsRead(st', items[1..]);
      FoldAppend(Line, st, Bullet(items[0]), Flat(Bullet, items[1..]));
      FoldOne(Line, st, l);
      assert forall xs: seq<string> :: xs + [items[0]] + items[1..] == xs + items;
    }
  }

  lemma LabelledReads(st: State, excluded: bool, items: seq<string>)
    requires st.place.InScope? && forall s | s in items :: Item(s)
    ensures var st' := Fold(Line, st, Labelled(if excluded then "Out of scope:" else "In scope:", items));
            st'.place.InScope? && st' == AddItems(st.(place := InScope(excluded)), items).(place := st'.place)
  {
    hide Line, Item, Flat;
    var l := if excluded then "Out of scope:" else "In scope:";
    if items == [] {
      assert forall xs: seq<string> :: xs + items == xs;
    } else {
      LabelReads(st, excluded);
      FoldAppend(Line, st, [l], Flat(Bullet, items));
      FoldOne(Line, st, l);
      BulletsRead(st.(place := InScope(excluded)), items);
    }
  }

  lemma ScopeReads(st: State, ins: seq<string>, outs: seq<string>)
    requires !st.place.InExtra? && (forall s | s in ins :: Item(s)) && forall s | s in outs :: Item(s)
    ensures var st' := Fold(Line, st, ScopeLines(ins, outs));
            && !st'.place.InExtra?
            && st' == st.(scopeIn := st.scopeIn + ins, scopeOut := st.scopeOut + outs, place := st'.place)
  {
    hide Line, Item, Labelled, PlaceOf, Field;
    if ins == [] && outs == [] {
      assert st.scopeIn + ins == st.scopeIn && st.scopeOut + outs == st.scopeOut;
    } else {
      var head, a, b := ["", SECTION + "Scope"], Labelled("In scope:", ins), Labelled("Out of scope:", outs);
      var gap := if ins != [] && outs != [] then [""] else [];
      ScopeName();
      SectionReads(st, "Scope");
      var st1 := st.(place := InScope(false));
      LabelledReads(st1, false, ins);
      var st2 := Fold(Line, st1, a);
      assert Fold(Line, st2, gap) == st2 by { FoldOne(Line, st2, ""); BlankReads(st2); }
      LabelledReads(st2, true, outs);
      FoldAppend(Line, st, head, a);
      FoldAppend(Line, st, head + a, gap);
      FoldAppend(Line, st, head + a + gap, b);
      assert ScopeLines(ins, outs) == head + a + gap + b;
    }
  }

  lemma BlankReads(st: State)
    ensures Line(st, "") == st
  {
    ReadBlank();
  }

  lemma {:induction false} ExtrasRead(st: State, xs: seq<ExtraSection>)
    requires forall x | x in xs :: KeptOk(x, IsTop) && x.heading != ""
    ensures Flush(Fold(Line, st, Flat(ExtraLines, xs))) ==
            Flush(st).(extras := Flush(st).extras + xs, place := Flush(Fold(Line, st, Flat(ExtraLines, xs))).place)
    decreases |xs|
  {
    hide Field, Prose, Block, AllPlain, PlaceOf, Line, Collected;
    if xs == [] {
      assert Flush(st).extras + xs == Flush(st).extras;
    } else {
      var x := xs[0];
      assert x in xs && KeptOk(x, IsTop);
      BlockCollected(x.body, IsTop);
      SectionReads(st, x.heading);
      var st1 := Flush(st).(place := InExtra(x.heading, []));
      assert PlaceOf(x.heading) == InExtra(x.heading, []) by { KeptPlace(x.heading); }
      ProseReads(st1, Block(x.body));
      assert [] + Block(x.body) == Block(x.body);
      FoldAppend(Line, st, ["", SECTION + x.heading], Block(x.body));
      var st2 := Fold(Line, st, ExtraLines(x));
      assert Flush(st2) == Flush(st).(extras := Flush(st).extras + [x], place := Outside);
      FoldAppend(Line, st, ExtraLines(x), Flat(ExtraLines, xs[1..]));
      ExtrasRead(st2, xs[1..]);
      assert Flush(st).extras + [x] + xs[1..] == Flush(st).extras + xs;
    }
  }

  lemma KeptPlace(h: string)
    requires PlaceOf(h).InExtra?
    ensures PlaceOf(h) == InExtra(h, [])
  {
  }

  lemma TitleReads(t: string)
    requires Field(t)
    ensures Line(START, TITLE + t) == START.(title := t)
  {
    hide ClassifyTop, Field;
    if t == "" {
      ReadNoTitle();
      assert TITLE + t == TITLE;
    } else {
      ReadTitle(t);
    }
  }

  /** The fold over the printed lines of a canonical proposal rebuilds exactly its parts. */
  lemma LinesRead(p: Proposal)
    requires Canonical(p)
    ensures Finish(Fold(Line, START, Lines(p) + [""])) == p
  {
    hide Field, Prose, KeptOk, Line, Flat, Titled, ScopeLines, Flush, Block, PlaceOf, Collected, Item;
    var a, b, c, d, e := [TITLE + p.title], Titled("Intent", p.intent), ScopeLines(p.scopeIn, p.scopeOut), Titled("Approach", p.approach), Flat(ExtraLines, p.extras);
    TitleReads(p.title);
    FoldOne(Line, START, TITLE + p.title);
    var st1 := START.(title := p.title);
    IntentName();
    ApproachName();
    TitledReads(st1, "Intent", p.intent);
    var st2 := Fold(Line, st1, b);
    ScopeReads(st2, p.scopeIn, p.scopeOut);
    var st3 := Fold(Line, st2, c);
    TitledReads(st3, "Approach", p.approach);
    var st4 := Fold(Line, st3, d);
    ExtrasRead(st4, p.extras);
    var st5 := Fold(Line, st4, e);
    FoldAppend(Line, START, a, b);
    FoldAppend(Line, START, a + b, c);
    FoldAppend(Line, START, a + b + c, d);
    FoldAppend(Line, START, a + b + c + d, e);
    FoldAppend(Line, START, Lines(p), [""]);
    FoldOne(Line, st5, "");
    BlankReads(st5);
    BlockCollected(p.intent, IsTop);
    BlockCollected(p.approach, IsTop);
    FlushIdle(st4);
    FlushKeeps(st5);
    assert [] + Block(p.intent) == Block(p.intent) && [] + Block(p.approach) == Block(p.approach);
    assert [] + p.scopeIn == p.scopeIn && [] + p.scopeOut == p.scopeOut && [] + p.extras == p.extras;
  }

  lemma FlushIdle(st: State)
    ensures !st.place.InExtra? ==> Flush(st) == st
  {
  }

  lemma FlushKeeps(st: State)
    ensures Flush(st) == st.(extras := Flush(st).extras, place := Flush(st).place)
  {
  }

  // ---------------------------------------------------------------------------------------
  // Round trips
  // ---------------------------------------------------------------------------------------

  lemma TidyLabelled(lead: string, items: seq<string>)
    requires TidyLine(lead) && forall s | s in items :: Item(s)
    ensures Tidy(Labelled(lead, items))
  {
    hide TidyLine, Field;
    forall s | s in items ensures Tidy(Bullet(s)) {
      assert Item(s);
      TidyBullet(s);
    }
    TidyFlat(Bullet, items);
    assert Tidy([lead]);
    TidyAppend([lead], Flat(Bullet, items));
  }

  lemma LabelsTidy()
    ensures TidyLine("Out of scope:") && TidyLine("In scope:")
  {
    hide TidyLine, Trimmed;
    LabelsTrimmed();
    TidyField("Out of scope:");
    TidyField("In scope:");
  }

  lemma TidyScope(ins: seq<string>, outs: seq<string>)
    requires (forall s | s in ins :: Item(s)) && forall s | s in outs :: Item(s)
    ensures Tidy(ScopeLines(ins, outs))
  {
    hide Item, Labelled, Trimmed;
    LabelsTidy();
    TidyLabelled("In scope:", ins);
    TidyLabelled("Out of scope:", outs);
    ScopeName();
    TidyHeading("Scope");
    EmptyTidy();
    hide TidyLine;
    var head, a, b := ["", SECTION + "Scope"], Labelled("In scope:", ins), Labelled("Out of scope:", outs);
    var gap := if ins != [] && outs != [] then [""] else [];
    assert Tidy(gap);
    TidyAppend(head, a);
    TidyAppend(head + a, gap);
    TidyAppend(head + a + gap, b);
    TidyNothing();
  }

  lemma TidyLines(p: Proposal, taken: string -> bool)
    requires ProposalOk(p, taken)
    ensures Tidy(Lines(p))
  {
    hide Tidy, Prose, Item, Titled, ScopeLines, Flat, Field, PlaceOf;
    var a, b, c, d, e := [TITLE + p.title], Titled("Intent", p.intent), ScopeLines(p.scopeIn, p.scopeOut), Titled("Approach", p.approach), Flat(ExtraLines, p.extras);
    IntentName();
    ApproachName();
    TidyTitle(p.title);
    TidyTitled("Intent", p.intent, taken);
    TidyScope(p.scopeIn, p.scopeOut);
    TidyTitled("Approach", p.approach, taken);
    TidyExtras(p.extras, taken);
    TidyAppend(a, b);
    TidyAppend(a + b, c);
    TidyAppend(a + b + c, d);
    TidyAppend(a + b + c + d, e);
  }

  /** Printing a canonical proposal and parsing the text gives the proposal back. */
  lemma ProposalRoundTrip(p: Proposal)
    requires Canonical(p)
    ensures Parse(Print(p)) == p
  {
    hide ProposalOk, Lines, Finish, Line, Unlines, Split;
    TidyLines(p, IsTop);
    TidySplits(Lines(p));
    LinesRead(p);
  }

  /** A text the parser takes literally: no indented heading, no section heading of white space only. */
  ghost predicate CleanText(text: string) {
    forall l | l in Split(text) :: !Indented(l, IsTop) && !Hollow(l)
  }

  lemma CleanTextIsCanonical(text: string)
    requires CleanText(text)
    ensures Canonical(Parse(text))
  {
    hide ClassifyTop, Parse, ProposalOk, IsTop, Indented, Split, Hollow;
    SplitPieces(text);
    forall l, t | l in Split(text) && ClassifyTop(l) == Other(t) ensures !IsTop(t) {
      ClassifyYields(l);
    }
    ParseOk(text, IsTop);
  }

  /**
  Semantic stability, exactly: re-parsing the printed parse gives the same proposal if and only if no kept prose
  line reads as a heading and no kept section is nameless.
  */
  lemma StableIffCanonical(text: string)
    ensures Parse(Print(Parse(text))) == Parse(text) <==> Canonical(Parse(text))
  {
    hide Parse, Lines, ProposalOk, Split, Unlines, Hollow, Indented, ClassifyTop;
    var p := Parse(text);
    ParseOk(text, Never);
    TidyLines(p, Never);
    TidySplits(Lines(p));
    CleanTextIsCanonical(Print(p));
    if Canonical(p) {
      ProposalRoundTrip(p);
    }
  }

  /**
  The round trip, exactly: a proposal, wherever it comes from, is read back from its printed text if and only if its
  fields and scope items are trimmed single lines, its blocks are proper prose without headings, and every kept section
  is named, and not like a modeled one.
  */
  lemma RoundTripIffCanonical(p: Proposal)
    ensures Parse(Print(p)) == p <==> Canonical(p)
  {
    hide Parse, Print, Canonical;
    if Canonical(p) {
      ProposalRoundTrip(p);
    }
    StableIffCanonical(Print(p));
  }

  /** Where the parser keeps a text line as prose. */
  predicate Keeps(st: State) {
    st.place.InIntent? || st.place.InApproach? || st.place.InExtra?
  }

  /** The line opens no nameless section and leaves no heading in kept prose. */
  predicate Fine(st: State, raw: string) {
    && !Hollow(raw)
    && (ClassifyTop(raw).Other? && Keeps(st) ==> !IsTop(ClassifyTop(raw).text))
  }

  /** No line is a nameless heading, and none hides a heading at a place where the parser keeps prose. */
  ghost predicate Literal(text: string) {
    var ls := Split(text);
    forall i | 0 <= i < |ls| :: Fine(Fold(Line, START, ls[..i]), ls[i])
  }

  ghost predicate Clean(st: State) {
    StateOk(st, IsTop) && Named(st)
  }

  lemma FlushIff(st: State)
    requires StateOk(st, Never)
    ensures Clean(Flush(st)) <==> Clean(st)
    ensures !Flush(st).place.InExtra?
    ensures Flush(st) == st.(extras := Flush(st).extras, place := Flush(st).place)
  {
    hide Field, AllPlain, Item, Collected, Prose, PlaceOf, IsTop;
    if st.place.InExtra? {
      CollectedIff(st.place.lines, Never, IsTop);
      var x := ExtraSection(st.place.heading, Collected(st.place.lines));
      assert forall y | y in st.extras :: y in st.extras + [x];
      assert x in st.extras + [x];
    }
  }

  lemma TakeLineIff(st: State, t: string)
    requires StateOk(st, Never) && t != "" && Field(t)
    ensures Clean(TakeLine(st, t)) <==> Clean(st) && (Keeps(st) ==> !IsTop(t))
  {
    hide Field, AllPlain, KeptOk, BulletBody, Lower, IsTop, PlaceOf;
    AppendIff(st.intent, t, IsTop);
    AppendIff(st.approach, t, IsTop);
    if st.place.InExtra? { AppendIff(st.place.lines, t, IsTop); }
    if BulletBody(t).Some? { BulletYields(t); }
  }

  /** One line keeps the state clean exactly if it was clean and the line is fine where it stands. */
  lemma LineIff(st: State, raw: string)
    requires StateOk(st, Never) && OneLine(raw)
    ensures Clean(Line(st, raw)) <==> Clean(st) && Fine(st, raw)
  {
    hide Trimmed, OneLine, AllPlain, KeptOk, ClassifyTop, Flush, TakeLine, Item, IsTop, Lower;
    ClassifyYields(raw);
    FlushIff(st);
    match ClassifyTop(raw)
    case SectionHead(h) => NothingPlain(IsTop);
    case TitleHead(t) =>
    case Other(t) => TakeLineIff(st, t);
    case _ =>
  }

  lemma {:induction false} FoldIff(ls: seq<string>, n: nat)
    requires n <= |ls| && forall l | l in ls :: OneLine(l)
    ensures StateOk(Fold(Line, START, ls[..n]), Never)
    ensures Clean(Fold(Line, START, ls[..n])) <==> forall i | 0 <= i < n :: Fine(Fold(Line, START, ls[..i]), ls[i])
    decreases n
  {
    hide StateOk, OneLine, Line, Fine, Named;
    if n == 0 {
      StartOk(Never);
      StartOk(IsTop);
    } else {
      FoldIff(ls, n - 1);
      FoldSnoc(Line, START, ls, n - 1);
      var st := Fold(Line, START, ls[..n - 1]);
      assert ls[n - 1] in ls;
      LineOk(st, ls[n - 1], Never);
      LineIff(st, ls[n - 1]);
    }
  }

  lemma FinishIff(st: State)
    requires StateOk(st, Never)
    ensures Canonical(Finish(st)) <==> Clean(st)
  {
    hide Field, AllPlain, KeptOk, Flush, Collected, Prose, Item, IsTop, PlaceOf;
    FlushIff(st);
    CollectedIff(st.intent, Never, IsTop);
    CollectedIff(st.approach, Never, IsTop);
  }

  /** The exact condition on the text: parse, print, parse is parse if and only if every line is fine where it stands. */
  lemma StableIffLiteral(text: string)
    ensures Parse(Print(Parse(text))) == Parse(text) <==> Literal(text)
  {
    hide Canonical, Print, StateOk, Clean, Finish, Fine, Split, Line;
    var ls := Split(text);
    SplitPieces(text);
    FoldIff(ls, |ls|);
    assert ls[..|ls|] == ls;
    FinishIff(Fold(Line, START, ls));
    StableIffCanonical(text);
  }

  lemma SemanticStability(text: string)
    requires CleanText(text)
    ensures Parse(Print(Parse(text))) == Parse(text)
  {
    hide Parse, Print, ProposalOk, CleanText, Canonical;
    CleanTextIsCanonical(text);
    StableIffCanonical(text);
  }

  /**
  A section headed by white space that the line trimming does not cut (here a no-break space) is kept by the parser
  and dropped by the printer.
  */
  lemma HollowSectionIsLost()
    ensures var text := "## \U{A0}\nlost";
            Parse(text).extras == [ExtraSection("", "lost")] && Parse(Print(Parse(text))) != Parse(text)
  {
    hide ClassifyTop, Split, Collected, PlaceOf, Print, ProposalOk;
    var text, a, b := "## \U{A0}\nlost", "## \U{A0}", "lost";
    assert text == a + "\n" + b;
    SplitLine(a, b);
    SplitOne(b);
    HollowReads();
    assert Field(b);
    NotAHeading(b);
    ReadPlain(b);
    assert PlaceOf("") == InExtra("", []) by { NoPlace(); }
    var st := Line(START, a);
    assert [] + [b] == [b];
    assert Line(st, b) == st.(place := InExtra("", ["lost"]));
    FoldAppend(Line, START, [a], [b]);
    FoldOne(Line, START, a);
    FoldOne(Line, st, b);
    assert Collected(["lost"]) == "lost" by { LostProse(); }
    assert Parse(text).extras[0].heading == "";
    StableIffCanonical(text);
  }

  lemma NoPlace()
    ensures PlaceOf("") == InExtra("", [])
  {
    assert |Lower("")| == 0;
  }

  lemma LostProse()
    ensures Collected(["lost"]) == "lost"
  {
    assert Trimmed("lost");
    TrimmedStays("lost");
  }

  // ---------------------------------------------------------------------------------------
  // The loops of the code
  // ---------------------------------------------------------------------------------------

  datatype Section = NoSection | Intent | Scope | Approach

  function SectionOf(heading: string): Section {
    match PlaceOf(heading)
    case InIntent => Intent
    case InScope(_) => Scope
    case InApproach => Approach
    case _ => NoSection
  }

  ghost function PlaceNow(section: Section, out: bool, extra: Option<string>, kept: seq<string>): Place {
    match section
    case Intent => InIntent
    case Scope => InScope(out)
    case Approach => InApproach
    case NoSection => if extra.Some? then InExtra(extra.value, kept) else Outside
  }

  /** The line loop of the proposal parser, with its section, scope label and open extra section. */
  method ParseProposal(text: string) returns (p: Proposal)
    ensures p == Parse(text)
  {
    hide ClassifyTop, Collected, BulletBody, Split, Lower;
    var lines := Split(text);
    p := Proposal("", "", [], [], "", []);
    var section, out, extra: Option<string> := NoSection, false, None;
    var kept: seq<string>, intent: seq<string>, approach: seq<string> := [], [], [];
    var i := 0;
    while i < |lines|
      invariant 0 <= i <= |lines|
      invariant section != NoSection ==> extra.None?
      invariant Fold(Line, START, lines[..i]) ==
                State(p.title, PlaceNow(section, out, extra, kept), intent, p.scopeIn, p.scopeOut, approach, p.extras)
    {
      FoldSnoc(Line, START, lines, i);
      match ClassifyTop(lines[i]) {
        case SectionHead(heading) =>
          if extra.Some? {
            p := p.(extras := p.extras + [ExtraSection(extra.value, Collected(kept))]);
          }
          section, out := SectionOf(heading), false;
          extra, kept := if section == NoSection then Some(heading) else None, [];
        case TitleHead(t) =>
          p := p.(title := t);
        case Other(t) =>
          match section {
            case Intent => intent := intent + [t];
            case Approach => approach := approach + [t];
            case Scope =>
              var low, body := Lower(t), BulletBody(t);
              if "in scope" <= low {
                out := false;
              } else if "out of scope" <= low || "out-of-scope" <= low {
                out := true;
              } else if body.Some? {
                if out {
                  p := p.(scopeOut := p.scopeOut + [body.value]);
                } else {
                  p := p.(scopeIn := p.scopeIn + [body.value]);
                }
              }
            case NoSection =>
              if extra.Some? {
                kept := kept + [t];
              }
          }
        case _ =>
      }
      i := i + 1;
    }
    assert lines[..i] == lines;
    if extra.Some? {
      p := p.(extras := p.extras + [ExtraSection(extra.value, Collected(kept))]);
    }
    p := p.(intent := Collected(intent), approach := Collected(approach));
  }

  method RenderBullets(b: string, ghost front: seq<string>, ghost base: string, items: seq<string>) returns (out: string)
    requires b == base + Unlines(front)
    ensures out == base + Unlines(front + Flat(Bullet, items))
  {
    hide Unlines, Flat;
    out := b;
    NoItems(front, Bullet, items);
    var i := 0;
    while i < |items|
      invariant 0 <= i <= |items|
      invariant out == base + Unlines(front + Flat(Bullet, items[..i]))
    {
      WriteItem(base, front, Bullet, items, i);
      UnlinesOne("- " + items[i]);
      out := out + ("- " + items[i] + "\n");
      i := i + 1;
    }
    assert items[..i] == items;
  }

  method RenderScope(b: string, ins: seq<string>, outs: seq<string>) returns (out: string)
    ensures out == b + Unlines(ScopeLines(ins, outs))
  {
    hide Unlines, Flat;
    UnlinesNothing();
    if |ins| == 0 && |outs| == 0 {
      return b;
    }
    ghost var ls := ["", SECTION + "Scope"];
    WriteSection(b, [], "Scope");
    assert [] + ls == ls;
    out := b + "\n" + (SECTION + "Scope") + "\n";
    if |ins| > 0 {
      WriteLine(b, ls, "In scope:");
      out := out + "In scope:" + "\n";
      out := RenderBullets(out, ls + ["In scope:"], b, ins);
      assert ls + ["In scope:"] + Flat(Bullet, ins) == ls + Labelled("In scope:", ins);
    }
    assert ls + [] == ls;
    ls := ls + Labelled("In scope:", ins);
    assert out == b + Unlines(ls);
    assert ls + [] == ls;
    if |outs| > 0 {
      if |ins| > 0 {
        WriteLine(b, ls, "");
        out := out + "" + "\n";
        ls := ls + [""];
      }
      WriteLine(b, ls, "Out of scope:");
      out := out + "Out of scope:" + "\n";
      out := RenderBullets(out, ls + ["Out of scope:"], b, outs);
      assert ls + ["Out of scope:"] + Flat(Bullet, outs) == ls + Labelled("Out of scope:", outs);
    }
    ghost var gap := if ins != [] && outs != [] then [""] else [];
    assert ScopeLines(ins, outs) == ["", SECTION + "Scope"] + Labelled("In scope:", ins) + gap + Labelled("Out of scope:", outs);
  }

  method RenderProposal(p: Proposal) returns (b: string)
    ensures b == Print(p)
  {
    hide Unlines, Titled, ScopeLines, Flat;
    var title := TITLE + p.title;
    UnlinesOne(title);
    ghost var i, sc, ap := Titled("Intent", p.intent), ScopeLines(p.scopeIn, p.scopeOut), Titled("Approach", p.approach);
    b := title + "\n";
    b := RenderTitled(b, "Intent", p.intent);
    UnlinesAppend([title], i);
    b := RenderScope(b, p.scopeIn, p.scopeOut);
    UnlinesAppend([title] + i, sc);
    b := RenderTitled(b, "Approach", p.approach);
    UnlinesAppend([title] + i + sc, ap);
    b := RenderExtras(b, p.extras);
    UnlinesAppend([title] + i + sc + ap, Flat(ExtraLines, p.extras));
  }
}

/**
Lenient ingest. For each of the five parsers: what its own line forms are, letter by letter, and which spellings of a line it
does not tell apart where the line stands. Texts that differ line by line only in such spellings parse alike.
*/
module Leniency {
  import opened Text
  import opened OpenSpec
  import opened Markdown
  import opened LineForms
  import SpecMarkdown
  import DeltaMarkdown
  import ProposalMarkdown
  import DesignMarkdown
  import TasksMarkdown

  // ---------------------------------------------------------------------------------------
  // Texts read line by line
  // ---------------------------------------------------------------------------------------

  /** Line `i` of either text has the same effect where it stands. */
  ghost predicate SameEffect<S>(f: (S, string) -> S, s: S, a: seq<string>, b: seq<string>, i: nat)
    requires i < |a| && i < |b|
  {
    f(Fold(f, s, a[..i]), a[i]) == f(Fold(f, s, a[..i]), b[i])
  }

  lemma {:induction false} FoldSame<S>(f: (S, string) -> S, s: S, a: seq<string>, b: seq<string>, n: nat)
    requires n <= |a| == |b| && forall i | 0 <= i < n :: SameEffect(f, s, a, b, i)
    ensures Fold(f, s, a[..n]) == Fold(f, s, b[..n])
    decreases n
  {
    if n > 0 {
      FoldSame(f, s, a, b, n - 1);
      FoldSnoc(f, s, a, n - 1);
      FoldSnoc(f, s, b, n - 1);
      assert SameEffect(f, s, a, b, n - 1);
    } else {
      assert a[..0] == b[..0];
    }
  }

  lemma AllSame<S>(f: (S, string) -> S, s: S, a: seq<string>, b: seq<string>)
    requires |a| == |b| && forall i | 0 <= i < |a| :: SameEffect(f, s, a, b, i)
    ensures Fold(f, s, a) == Fold(f, s, b)
  {
    hide SameEffect;
    FoldSame(f, s, a, b, |a|);
    assert a[..|a|] == a && b[..|b|] == b;
  }

  // ---------------------------------------------------------------------------------------
  // Spellings
  // ---------------------------------------------------------------------------------------

  /** The same prose, indented or not. */
  ghost predicate SameProse(l: string, m: string) {
    exists v :: Shows(l, v) && Shows(m, v)
  }

  /** Bullets with the same body, whatever their markers. */
  ghost predicate SameBullet(l: string, m: string) {
    exists v, w, b :: Shows(l, v) && Shows(m, w) && Bulleted(v, b) && Bulleted(w, b)
  }

  /** Bullets with the same step: the same body, or the same keyword in any case and the same text. */
  ghost predicate SameStep(l: string, m: string) {
    exists v, w, b, c :: Shows(l, v) && Shows(m, w) && Bulleted(v, b) && Bulleted(w, c) &&
      (b == c || exists k, x :: StepWord(k) && Opens(b, k, x) && Opens(c, k, x))
  }

  /** The same line but for blanks, tabs and carriage returns at its end. */
  ghost predicate SameButEnd(l: string, m: string) {
    exists s, t, u :: l == s + t && m == s + u && Ending(t) && Ending(u)
  }

  lemma EndRead(l: string, m: string)
    requires SameButEnd(l, m)
    ensures Classify(l) == Classify(m) && ClassifyTop(l) == ClassifyTop(m) && TrimRight(l) == TrimRight(m)
  {
    hide TrimRight, TrimSpace, Ending;
    var s, t, u :| l == s + t && m == s + u && Ending(t) && Ending(u);
    EndingCut(s, t);
    EndingCut(s, u);
  }

  lemma ProseRead(l: string, m: string)
    requires SameProse(l, m)
    ensures Classify(l) == Classify(m) && ClassifyTop(l) == ClassifyTop(m) && Classify(l).Other? && ClassifyTop(l).Other?
    ensures !("### Decision:" <= TrimRight(l)) && !("### Decision:" <= TrimRight(m))
  {
    hide Classify, ClassifyTop, TrimRight, Shows;
    var v :| Shows(l, v) && Shows(m, v);
    ShownIsRead(l, v);
    ShownIsRead(m, v);
    assert "### Decision:"[0] == '#';
  }

  lemma BulletsRead(l: string, m: string) returns (v: string, w: string)
    requires SameBullet(l, m)
    ensures Classify(l) == Other(v) == ClassifyTop(l) && Classify(m) == Other(w) == ClassifyTop(m)
    ensures BulletBody(v).Some? && BulletBody(v) == BulletBody(w) && v != "" && w != "" && Marker(v[0]) && Marker(w[0])
    ensures !("### Decision:" <= TrimRight(l)) && !("### Decision:" <= TrimRight(m))
  {
    hide Classify, ClassifyTop, TrimRight, Shows, BulletBody;
    var b;
    v, w, b :| Shows(l, v) && Shows(m, w) && Bulleted(v, b) && Bulleted(w, b);
    ShownIsRead(l, v);
    ShownIsRead(m, w);
    BulletIs(v, b);
    BulletIs(w, b);
    assert "### Decision:"[0] == '#';
  }

  lemma StepsRead(l: string, m: string) returns (v: string, w: string)
    requires SameStep(l, m)
    ensures Classify(l) == Other(v) && Classify(m) == Other(w)
    ensures BulletBody(v).Some? && BulletBody(w).Some? && ParseStep(BulletBody(v).value) == ParseStep(BulletBody(w).value)
    ensures v != "" && v[0] != '(' && w != "" && w[0] != '('
  {
    hide Classify, Shows, BulletBody, Opens, ParseStep, TrimSpace;
    var b, c;
    v, w, b, c :| Shows(l, v) && Shows(m, w) && Bulleted(v, b) && Bulleted(w, c) &&
                  (b == c || exists k, x :: StepWord(k) && Opens(b, k, x) && Opens(c, k, x));
    ShownIsRead(l, v);
    ShownIsRead(m, w);
    BulletIs(v, b);
    BulletIs(w, c);
    BodyTrimmed(v, b);
    BodyTrimmed(w, c);
    if k, x :| StepWord(k) && Opens(b, k, x) && Opens(c, k, x) {
      StepIs(b, k, x);
      StepIs(c, k, x);
    }
  }

  lemma BodyTrimmed(t: string, b: string)
    requires Bulleted(t, b)
    ensures Trimmed(b)
  {
    hide TrimSpace, Trimmed;
    var m, rest :| Marker(m) && t == [m] + " " + rest && b == TrimSpace(rest);
    TrimSpaceTrims(rest);
  }

  lemma SectionsRead(l: string, m: string, h: string, k: string)
    requires Heads(TrimRight(l), "## ", h) && Heads(TrimRight(m), "## ", k)
    ensures Classify(l) == SectionHead(h) == ClassifyTop(l) && Classify(m) == SectionHead(k) == ClassifyTop(m)
    ensures !("### Decision:" <= TrimRight(l)) && !("### Decision:" <= TrimRight(m))
  {
    hide Classify, ClassifyTop, TrimRight, Heads;
    LineIs(l, h);
    LineIs(m, k);
    TopLineIs(l, h);
    TopLineIs(m, k);
    HeadsIs(TrimRight(l), "## ", h);
    HeadsIs(TrimRight(m), "## ", k);
    assert "### Decision:"[2] == '#' && "## "[2] == ' ';
  }

  /** Small letters, blanks and hyphens. */
  predicate Small(word: string) {
    forall i | 0 <= i < |word| :: 'a' <= word[i] <= 'z' || word[i] == ' ' || word[i] == '-'
  }

  lemma SpellsSmall(h: string, word: string)
    requires Small(word)
    ensures Spells(h, word) <==> Lower(h) == word
  {
    hide Lower, Spells;
    LowerIs(word, word);
    CaseIgnored(h, word);
  }

  lemma BeginsSmall(h: string, word: string)
    requires Small(word)
    ensures Begins(h, word) <==> word <= Lower(h)
  {
    hide Lower, Begins;
    LowerIs(word, word);
    CaseIgnoredInFront(h, word);
  }

  // ---------------------------------------------------------------------------------------
  // Specs
  // ---------------------------------------------------------------------------------------

  lemma SpecSections(h: string)
    ensures SpecMarkdown.SectionOf(h) == SpecMarkdown.InPurpose <==> Spells(h, "purpose")
    ensures SpecMarkdown.SectionOf(h) == SpecMarkdown.InRequirements <==> Spells(h, "requirements")
  {
    hide Lower, Spells;
    SpellsSmall(h, "purpose");
    SpellsSmall(h, "requirements");
    assert |"purpose"| == 7 && |"requirements"| == 12;
  }

  /** What a spec does not tell apart: indentation; in a scenario also markers and keyword case; and the case of its sections. */
  ghost predicate SpecSame(st: SpecMarkdown.State, l: string, m: string) {
    || l == m
    || SameButEnd(l, m)
    || SameProse(l, m)
    || (st.current.Some? && st.current.value.scenario.Some? && SameStep(l, m))
    || (exists h, k :: Heads(TrimRight(l), "## ", h) && Heads(TrimRight(m), "## ", k) &&
          (Spells(h, "purpose") <==> Spells(k, "purpose")) && (Spells(h, "requirements") <==> Spells(k, "requirements")))
  }

  lemma SpecLine(st: SpecMarkdown.State, l: string, m: string)
    requires SpecSame(st, l, m)
    ensures SpecMarkdown.Line(st, l) == SpecMarkdown.Line(st, m)
  {
    hide Classify, Shows, SameButEnd, SameProse, SameStep, Heads, TrimRight, Spells, BulletBody, ParseStep, SpecMarkdown.SectionOf;
    if SameButEnd(l, m) {
      EndRead(l, m);
    } else if SameProse(l, m) {
      ProseRead(l, m);
    } else if st.current.Some? && st.current.value.scenario.Some? && SameStep(l, m) {
      var v, w := StepsRead(l, m);
    } else if h, k :| Heads(TrimRight(l), "## ", h) && Heads(TrimRight(m), "## ", k) &&
                      (Spells(h, "purpose") <==> Spells(k, "purpose")) && (Spells(h, "requirements") <==> Spells(k, "requirements")) {
      SectionsRead(l, m, h, k);
      SpecSections(h);
      SpecSections(k);
    }
  }

  /** Specs that differ line by line only in such spellings parse alike. */
  lemma SpecLenient(a: string, b: string)
    requires |Split(a)| == |Split(b)|
    requires forall i | 0 <= i < |Split(a)| ::
               SpecSame(Fold(SpecMarkdown.Line, SpecMarkdown.START, Split(a)[..i]), Split(a)[i], Split(b)[i])
    ensures SpecMarkdown.Parse(a) == SpecMarkdown.Parse(b)
  {
    hide Split, SpecMarkdown.Line, SpecSame, SpecMarkdown.Finish;
    forall i | 0 <= i < |Split(a)| ensures SameEffect(SpecMarkdown.Line, SpecMarkdown.START, Split(a), Split(b), i) {
      SpecLine(Fold(SpecMarkdown.Line, SpecMarkdown.START, Split(a)[..i]), Split(a)[i], Split(b)[i]);
    }
    AllSame(SpecMarkdown.Line, SpecMarkdown.START, Split(a), Split(b));
  }

  // ---------------------------------------------------------------------------------------
  // Deltas
  // ---------------------------------------------------------------------------------------

  lemma DeltaSections(h: string)
    ensures DeltaMarkdown.SectionOf(h) == DeltaMarkdown.InAdded <==> Begins(h, "added")
    ensures DeltaMarkdown.SectionOf(h) == DeltaMarkdown.InModified <==> Begins(h, "modified")
    ensures DeltaMarkdown.SectionOf(h) == DeltaMarkdown.InRemoved <==> Begins(h, "removed")
  {
    hide Upper, Begins;
    BeginsCapital(h, "added", "ADDED");
    BeginsCapital(h, "modified", "MODIFIED");
    BeginsCapital(h, "removed", "REMOVED");
    assert "ADDED"[0] == 'A' && "MODIFIED"[0] == 'M' && "REMOVED"[0] == 'R';
  }

  lemma BeginsCapital(h: string, word: string, capital: string)
    requires |word| == |capital| && forall i | 0 <= i < |word| :: UpperChar(word[i]) == capital[i]
    ensures Begins(h, word) <==> capital <= Upper(h)
  {
    hide Upper, Begins;
    assert Upper(word) == capital;
    CaseIgnoredInFront(h, word);
  }

  /** A tag in any case, then the value; one closing parenthesis at its end is not part of it. */
  ghost predicate Tagged(t: string, tag: string, x: string) {
    exists lead, inner :: t == lead + inner && Spells(lead, tag) && Enclosed(TrimSpace(inner), x)
  }

  ghost predicate Enclosed(inner: string, x: string) {
    || (exists y :: inner == y + ")" && x == TrimSpace(y))
    || ((inner == "" || inner[|inner| - 1] != ')') && x == TrimSpace(inner))
  }

  lemma EnclosedIs(inner: string, x: string)
    ensures Enclosed(inner, x) <==> x == TrimSpace(DeltaMarkdown.TrimClose(inner))
  {
    hide TrimSpace;
    if inner != "" && inner[|inner| - 1] == ')' {
      assert inner == inner[..|inner| - 1] + ")";
      forall y | inner == y + ")" ensures y == inner[..|inner| - 1] {}
    }
  }

  lemma AnnotationIs(t: string, tag: string, x: string)
    ensures DeltaMarkdown.Annotation(t, tag) == Some(x) <==> Tagged(t, tag, x)
  {
    hide TrimSpace, Lower, Spells, Enclosed, DeltaMarkdown.TrimClose;
    if |t| >= |tag| {
      CaseIgnored(t[..|tag|], tag);
      EnclosedIs(TrimSpace(t[|tag|..]), x);
      assert t == t[..|tag|] + t[|tag|..];
    }
    if Tagged(t, tag, x) {
      var lead, inner :| t == lead + inner && Spells(lead, tag) && Enclosed(TrimSpace(inner), x);
      SpellsLength(lead, tag);
      assert t[..|tag|] == lead && t[|tag|..] == inner;
    }
  }

  lemma SpellsLength(s: string, word: string)
    requires Spells(s, word)
    ensures |s| == |word|
  {
  }

  /** The two annotations of a delta. */
  lemma Notes(t: string, x: string)
    ensures DeltaMarkdown.Annotation(t, DeltaMarkdown.PREVIOUSLY) == Some(x) <==> Tagged(t, "(Previously:", x)
    ensures DeltaMarkdown.Annotation(t, DeltaMarkdown.RATIONALE) == Some(x) <==> Tagged(t, "(Rationale:", x)
  {
    hide DeltaMarkdown.Annotation, Tagged;
    AnnotationIs(t, "(Previously:", x);
    AnnotationIs(t, "(Rationale:", x);
  }

  /** Annotations with the same label, in any case, and the same value, closed or not. */
  ghost predicate SameNote(l: string, m: string) {
    exists v, w, tag, x :: Shows(l, v) && Shows(m, w) && (tag == "(Previously:" || tag == "(Rationale:") && Tagged(v, tag, x) && Tagged(w, tag, x)
  }

  lemma NotesRead(d: DeltaMarkdown.Draft, l: string, m: string)
    requires SameNote(l, m)
    ensures Classify(l).Other? && Classify(m).Other?
    ensures DeltaMarkdown.TakeNote(d, Classify(l).text) == DeltaMarkdown.TakeNote(d, Classify(m).text)
  {
    hide Classify, Shows, DeltaMarkdown.Annotation, Tagged;
    var v, w, tag, x :| Shows(l, v) && Shows(m, w) && (tag == "(Previously:" || tag == "(Rationale:") && Tagged(v, tag, x) && Tagged(w, tag, x);
    ShownIsRead(l, v);
    ShownIsRead(m, w);
    Notes(v, x);
    Notes(w, x);
    if tag == "(Rationale:" {
      NotBoth(v, x);
      NotBoth(w, x);
    }
  }

  /** No line is both annotations. */
  lemma NotBoth(t: string, x: string)
    requires Tagged(t, "(Rationale:", x)
    ensures DeltaMarkdown.Annotation(t, DeltaMarkdown.PREVIOUSLY).None?
  {
    hide Enclosed, TrimSpace;
    var lead, inner :| t == lead + inner && Spells(lead, "(Rationale:") && Enclosed(TrimSpace(inner), x);
    assert |"(Rationale:"| == 11 && "(Rationale:"[1] == 'R';
    assert t[1] == lead[1];
    if |t| >= |DeltaMarkdown.PREVIOUSLY| {
      assert Lower(t[..|DeltaMarkdown.PREVIOUSLY|])[1] == LowerChar(t[1]);
      assert Lower(DeltaMarkdown.PREVIOUSLY)[1] == 'p';
    }
  }

  /** What a delta does not tell apart. */
  ghost predicate DeltaSame(st: DeltaMarkdown.State, l: string, m: string) {
    || l == m
    || SameButEnd(l, m)
    || SameProse(l, m)
    || (st.current.Some? && st.current.value.open.scenario.Some? && SameStep(l, m))
    || (st.current.Some? && SameNote(l, m))
    || (exists h, k :: Heads(TrimRight(l), "## ", h) && Heads(TrimRight(m), "## ", k) &&
          forall word | word == "added" || word == "modified" || word == "removed" :: Begins(h, word) <==> Begins(k, word))
  }

  lemma DeltaLine(st: DeltaMarkdown.State, l: string, m: string)
    requires DeltaSame(st, l, m)
    ensures DeltaMarkdown.Line(st, l) == DeltaMarkdown.Line(st, m)
  {
    hide Classify, Shows, SameButEnd, SameProse, SameStep, SameNote, Heads, TrimRight, Begins, BulletBody, ParseStep, DeltaMarkdown.SectionOf,
      DeltaMarkdown.Annotation;
    if SameButEnd(l, m) {
      EndRead(l, m);
    } else if SameProse(l, m) {
      ProseRead(l, m);
    } else if st.current.Some? && st.current.value.open.scenario.Some? && SameStep(l, m) {
      var v, w := StepsRead(l, m);
      DeltaMarkdown.NotNoted(v);
      DeltaMarkdown.NotNoted(w);
    } else if st.current.Some? && SameNote(l, m) {
      NotesRead(st.current.value, l, m);
    } else if h, k :| Heads(TrimRight(l), "## ", h) && Heads(TrimRight(m), "## ", k) &&
                      forall word | word == "added" || word == "modified" || word == "removed" :: Begins(h, word) <==> Begins(k, word) {
      SectionsRead(l, m, h, k);
      DeltaSections(h);
      DeltaSections(k);
    }
  }

  lemma DeltaLenient(a: string, b: string)
    requires |Split(a)| == |Split(b)|
    requires forall i | 0 <= i < |Split(a)| ::
               DeltaSame(Fold(DeltaMarkdown.Line, DeltaMarkdown.START, Split(a)[..i]), Split(a)[i], Split(b)[i])
    ensures DeltaMarkdown.Parse(a) == DeltaMarkdown.Parse(b)
  {
    hide Split, DeltaMarkdown.Line, DeltaSame, DeltaMarkdown.Finish;
    forall i | 0 <= i < |Split(a)| ensures SameEffect(DeltaMarkdown.Line, DeltaMarkdown.START, Split(a), Split(b), i) {
      DeltaLine(Fold(DeltaMarkdown.Line, DeltaMarkdown.START, Split(a)[..i]), Split(a)[i], Split(b)[i]);
    }
    AllSame(DeltaMarkdown.Line, DeltaMarkdown.START, Split(a), Split(b));
  }

  // ---------------------------------------------------------------------------------------
  // Proposals
  // ---------------------------------------------------------------------------------------

  lemma ProposalPlaces(h: string)
    ensures ProposalMarkdown.PlaceOf(h) == if Begins(h, "intent") then ProposalMarkdown.InIntent
                                           else if Begins(h, "scope") then ProposalMarkdown.InScope(false)
                                           else if Begins(h, "approach") then ProposalMarkdown.InApproach
                                           else ProposalMarkdown.InExtra(h, [])
  {
    hide Lower, Begins;
    BeginsSmall(h, "intent");
    BeginsSmall(h, "scope");
    BeginsSmall(h, "approach");
  }

  ghost predicate Including(v: string) {
    Begins(v, "in scope")
  }

  ghost predicate Excluding(v: string) {
    Begins(v, "out of scope") || Begins(v, "out-of-scope")
  }

  lemma ScopeLabels(v: string)
    ensures "in scope" <= Lower(v) <==> Including(v)
    ensures "out of scope" <= Lower(v) || "out-of-scope" <= Lower(v) <==> Excluding(v)
  {
    hide Lower, Begins;
    BeginsSmall(v, "in scope");
    BeginsSmall(v, "out of scope");
    BeginsSmall(v, "out-of-scope");
  }

  /** A line in the scope section: a label turns to what is in or out of scope, a bullet is an item, anything else is passed over. */
  lemma ScopeLineIs(st: ProposalMarkdown.State, raw: string, v: string)
    requires st.place.InScope? && Shows(raw, v)
    ensures var next := ProposalMarkdown.Line(st, raw);
            if Including(v) then next == st.(place := ProposalMarkdown.InScope(false))
            else if Excluding(v) then next == st.(place := ProposalMarkdown.InScope(true))
            else if exists b :: Bulleted(v, b) then
              exists b :: Bulleted(v, b) && next == if st.place.excluded then st.(scopeOut := st.scopeOut + [b]) else st.(scopeIn := st.scopeIn + [b])
            else next == st
  {
    hide Lower, ClassifyTop, BulletBody, Including, Excluding, Bulleted, Shows;
    ShownIsRead(raw, v);
    ScopeLabels(v);
    forall b ensures BulletBody(v) == Some(b) <==> Bulleted(v, b) { BulletIs(v, b); }
    if BulletBody(v).Some? { assert Bulleted(v, BulletBody(v).value); }
  }

  /** Until a label says otherwise a scope bullet is in scope. */
  lemma UnlabelledIsInScope(st: ProposalMarkdown.State, head: string, h: string, raw: string, v: string, b: string)
    requires Heads(TrimRight(head), "## ", h) && Begins(h, "scope")
    requires Shows(raw, v) && Bulleted(v, b)
    ensures var before := ProposalMarkdown.Line(st, head);
            ProposalMarkdown.Line(before, raw) == before.(scopeIn := before.scopeIn + [b])
  {
    hide ClassifyTop, Classify, BulletBody, Begins, Heads, Shows, TrimRight, Lower, ProposalMarkdown.PlaceOf;
    SectionsRead(head, head, h, h);
    ProposalPlaces(h);
    NotIntent(h);
    ShownIsRead(raw, v);
    BulletIs(v, b);
    ScopeLabels(v);
    NoLabel(v, b);
  }

  lemma NotIntent(h: string)
    requires Begins(h, "scope")
    ensures !Begins(h, "intent")
  {
    assert "scope"[0] == 's' && "intent"[0] == 'i';
  }

  lemma NoLabel(v: string, b: string)
    requires Bulleted(v, b)
    ensures !Including(v) && !Excluding(v)
  {
    hide TrimSpace;
    assert Marker(v[0]);
    assert "in scope"[0] == 'i' && "out of scope"[0] == 'o' && "out-of-scope"[0] == 'o';
  }

  ghost predicate SameLabel(l: string, m: string) {
    exists v, w :: Shows(l, v) && Shows(m, w) && ((Including(v) && Including(w)) || (Excluding(v) && Excluding(w)))
  }

  ghost predicate SameProposalSection(h: string, k: string) {
    || h == k
    || exists word :: (word == "intent" || word == "scope" || word == "approach") && Begins(h, word) && Begins(k, word)
  }

  /** What a proposal does not tell apart. */
  ghost predicate ProposalSame(st: ProposalMarkdown.State, l: string, m: string) {
    || l == m
    || SameButEnd(l, m)
    || SameProse(l, m)
    || (st.place.InScope? && (SameBullet(l, m) || SameLabel(l, m)))
    || (exists h, k :: Heads(TrimRight(l), "## ", h) && Heads(TrimRight(m), "## ", k) && SameProposalSection(h, k))
  }

  lemma LabelsRead(st: ProposalMarkdown.State, l: string, m: string)
    requires st.place.InScope? && SameLabel(l, m)
    ensures ProposalMarkdown.Line(st, l) == ProposalMarkdown.Line(st, m)
  {
    hide ProposalMarkdown.Line, Shows, Begins;
    var v, w :| Shows(l, v) && Shows(m, w) && ((Including(v) && Including(w)) || (Excluding(v) && Excluding(w)));
    ScopeLineIs(st, l, v);
    ScopeLineIs(st, m, w);
    if Excluding(v) {
      OneLabel(v);
      OneLabel(w);
    }
  }

  lemma OneLabel(v: string)
    requires Excluding(v)
    ensures !Including(v)
  {
    assert "in scope"[0] == 'i' && "out of scope"[0] == 'o' && "out-of-scope"[0] == 'o';
  }

  lemma SamePlace(h: string, k: string)
    requires SameProposalSection(h, k)
    ensures ProposalMarkdown.PlaceOf(h) == ProposalMarkdown.PlaceOf(k)
  {
    hide ProposalMarkdown.PlaceOf;
    ProposalPlaces(h);
    ProposalPlaces(k);
    assert "intent"[0] == 'i' && "scope"[0] == 's' && "approach"[0] == 'a';
  }

  lemma ProposalLine(st: ProposalMarkdown.State, l: string, m: string)
    requires ProposalSame(st, l, m)
    ensures ProposalMarkdown.Line(st, l) == ProposalMarkdown.Line(st, m)
  {
    hide Classify, ClassifyTop, Shows, SameButEnd, SameProse, SameBullet, SameLabel, SameProposalSection, Heads, TrimRight, BulletBody, Lower,
      ProposalMarkdown.PlaceOf;
    if SameButEnd(l, m) {
      EndRead(l, m);
    } else if SameProse(l, m) {
      ProseRead(l, m);
    } else if st.place.InScope? && SameBullet(l, m) {
      var v, w := BulletsRead(l, m);
      MarkerNoLabel(v);
      MarkerNoLabel(w);
    } else if st.place.InScope? && SameLabel(l, m) {
      LabelsRead(st, l, m);
    } else if h, k :| Heads(TrimRight(l), "## ", h) && Heads(TrimRight(m), "## ", k) && SameProposalSection(h, k) {
      SectionsRead(l, m, h, k);
      SamePlace(h, k);
    }
  }

  lemma MarkerNoLabel(v: string)
    requires v != "" && Marker(v[0])
    ensures !("in scope" <= Lower(v)) && !("out of scope" <= Lower(v)) && !("out-of-scope" <= Lower(v))
  {
    assert "in scope"[0] == 'i' && "out of scope"[0] == 'o' && "out-of-scope"[0] == 'o';
    assert Lower(v)[0] == LowerChar(v[0]);
  }

  lemma ProposalLenient(a: string, b: string)
    requires |Split(a)| == |Split(b)|
    requires forall i | 0 <= i < |Split(a)| ::
               ProposalSame(Fold(ProposalMarkdown.Line, ProposalMarkdown.START, Split(a)[..i]), Split(a)[i], Split(b)[i])
    ensures ProposalMarkdown.Parse(a) == ProposalMarkdown.Parse(b)
  {
    hide Split, ProposalMarkdown.Line, ProposalSame, ProposalMarkdown.Finish;
    forall i | 0 <= i < |Split(a)| ensures SameEffect(ProposalMarkdown.Line, ProposalMarkdown.START, Split(a), Split(b), i) {
      ProposalLine(Fold(ProposalMarkdown.Line, ProposalMarkdown.START, Split(a)[..i]), Split(a)[i], Split(b)[i]);
    }
    AllSame(ProposalMarkdown.Line, ProposalMarkdown.START, Split(a), Split(b));
  }

  // ---------------------------------------------------------------------------------------
  // Designs
  // ---------------------------------------------------------------------------------------

  lemma DesignPlaces(h: string)
    ensures DesignMarkdown.PlaceOf(h) == if Begins(h, "technical approach") then DesignMarkdown.InTechnical
                                         else if Begins(h, "architecture decision") then DesignMarkdown.InDecisions
                                         else if Begins(h, "data flow") then DesignMarkdown.InDataFlow
                                         else if Begins(h, "file change") then DesignMarkdown.InFileChanges
                                         else DesignMarkdown.InExtra(h, [])
  {
    hide Lower, Begins;
    BeginsSmall(h, "technical approach");
    BeginsSmall(h, "architecture decision");
    BeginsSmall(h, "data flow");
    BeginsSmall(h, "file change");
  }

  /** A decision heading among the decisions closes the decision before it and opens a new one. */
  lemma DecisionLineIs(st: DesignMarkdown.State, raw: string, name: string)
    requires Heads(TrimRight(raw), "### Decision:", name)
    ensures st.place.InDecisions? ==> DesignMarkdown.Line(st, raw) == st.(place := DesignMarkdown.InDecision(name, []))
    ensures st.place.InDecision? ==>
              DesignMarkdown.Line(st, raw) ==
              st.(decisions := st.decisions + [Decision(st.place.name, Collected(st.place.body))], place := DesignMarkdown.InDecision(name, []))
  {
    hide TrimRight, TrimSpace, ClassifyTop, Collected;
    HeadsIs(TrimRight(raw), "### Decision:", name);
  }

  /** The path between the first two back quotes, and the kind if parentheses enclose all that follows. */
  ghost predicate FileChanged(t: string, path: string, kind: string) {
    exists rest :: Bulleted(t, "`" + path + "`" + rest) && Unquoted(path) && KindOf(TrimSpace(rest), kind)
  }

  predicate Unquoted(path: string) {
    forall i | 0 <= i < |path| :: path[i] != '`'
  }

  ghost predicate KindOf(rest: string, kind: string) {
    || (exists k :: rest == "(" + k + ")" && kind == TrimSpace(k))
    || (kind == "" && forall k :: rest != "(" + k + ")")
  }

  lemma KindIs(rest: string, kind: string)
    ensures KindOf(rest, kind) <==>
            kind == if |rest| >= 2 && rest[0] == '(' && rest[|rest| - 1] == ')' then TrimSpace(rest[1..|rest| - 1]) else ""
  {
    hide TrimSpace;
    if |rest| >= 2 && rest[0] == '(' && rest[|rest| - 1] == ')' {
      var k := rest[1..|rest| - 1];
      assert rest == "(" + k + ")";
      forall j | rest == "(" + j + ")" ensures j == k { assert j == rest[1..|rest| - 1]; }
    }
  }

  lemma QuotedParts(path: string, rest: string)
    requires Unquoted(path)
    ensures var b := ("`" + path + "`" + rest)[1..]; IndexOf(b, '`') == |path| < |b| && b[..|path|] == path && b[|path| + 1..] == rest
  {
    var b := ("`" + path + "`" + rest)[1..];
    assert b == path + "`" + rest;
    assert b[|path|] == '`' && forall i | 0 <= i < |path| :: b[i] == path[i];
  }

  lemma FileChangeIs(t: string, path: string, kind: string)
    ensures DesignMarkdown.ParseFileChange(t) == Some(FileChange(path, kind)) <==> FileChanged(t, path, kind)
  {
    hide TrimSpace, BulletBody, Bulleted, IndexOf, KindOf;
    if DesignMarkdown.ParseFileChange(t) == Some(FileChange(path, kind)) {
      var body := BulletBody(t).value;
      var b := body[1..];
      var end := IndexOf(b, '`');
      BulletIs(t, body);
      assert body == "`" + b[..end] + "`" + b[end + 1..];
      KindIs(TrimSpace(b[end + 1..]), kind);
    }
    if FileChanged(t, path, kind) {
      var rest :| Bulleted(t, "`" + path + "`" + rest) && Unquoted(path) && KindOf(TrimSpace(rest), kind);
      BulletIs(t, "`" + path + "`" + rest);
      QuotedParts(path, rest);
      KindIs(TrimSpace(rest), kind);
    }
  }

  ghost predicate SameDesignSection(h: string, k: string) {
    || h == k
    || exists word :: DesignWord(word) && Begins(h, word) && Begins(k, word)
  }

  predicate DesignWord(word: string) {
    word == "technical approach" || word == "architecture decision" || word == "data flow" || word == "file change"
  }

  /** What a design does not tell apart. */
  ghost predicate DesignSame(st: DesignMarkdown.State, l: string, m: string) {
    || l == m
    || SameButEnd(l, m)
    || SameProse(l, m)
    || (st.place.InFileChanges? && SameBullet(l, m))
    || (exists h, k :: Heads(TrimRight(l), "## ", h) && Heads(TrimRight(m), "## ", k) && SameDesignSection(h, k))
  }

  lemma SameDesignPlace(h: string, k: string)
    requires SameDesignSection(h, k)
    ensures DesignMarkdown.PlaceOf(h) == DesignMarkdown.PlaceOf(k)
  {
    hide DesignMarkdown.PlaceOf;
    DesignPlaces(h);
    DesignPlaces(k);
    assert "technical approach"[0] == 't' && "architecture decision"[0] == 'a' && "data flow"[0] == 'd' && "file change"[0] == 'f';
  }

  lemma SameChange(v: string, w: string)
    requires BulletBody(v) == BulletBody(w)
    ensures DesignMarkdown.ParseFileChange(v) == DesignMarkdown.ParseFileChange(w)
  {
    hide BulletBody, IndexOf, TrimSpace;
  }

  lemma DesignLine(st: DesignMarkdown.State, l: string, m: string)
    requires DesignSame(st, l, m)
    ensures DesignMarkdown.Line(st, l) == DesignMarkdown.Line(st, m)
  {
    hide Classify, ClassifyTop, Shows, SameButEnd, SameProse, SameBullet, SameDesignSection, Heads, TrimRight, BulletBody, IndexOf, TrimSpace,
      DesignMarkdown.PlaceOf, DesignMarkdown.Flush, DesignMarkdown.ParseFileChange;
    if SameButEnd(l, m) {
      EndRead(l, m);
    } else if SameProse(l, m) {
      ProseRead(l, m);
    } else if st.place.InFileChanges? && SameBullet(l, m) {
      var v, w := BulletsRead(l, m);
      SameChange(v, w);
    } else if h, k :| Heads(TrimRight(l), "## ", h) && Heads(TrimRight(m), "## ", k) && SameDesignSection(h, k) {
      SectionsRead(l, m, h, k);
      SameDesignPlace(h, k);
    }
  }

  lemma DesignLenient(a: string, b: string)
    requires |Split(a)| == |Split(b)|
    requires forall i | 0 <= i < |Split(a)| ::
               DesignSame(Fold(DesignMarkdown.Line, DesignMarkdown.START, Split(a)[..i]), Split(a)[i], Split(b)[i])
    ensures DesignMarkdown.Parse(a) == DesignMarkdown.Parse(b)
  {
    hide Split, DesignMarkdown.Line, DesignSame, DesignMarkdown.Finish;
    forall i | 0 <= i < |Split(a)| ensures SameEffect(DesignMarkdown.Line, DesignMarkdown.START, Split(a), Split(b), i) {
      DesignLine(Fold(DesignMarkdown.Line, DesignMarkdown.START, Split(a)[..i]), Split(a)[i], Split(b)[i]);
    }
    AllSame(DesignMarkdown.Line, DesignMarkdown.START, Split(a), Split(b));
  }

  // ---------------------------------------------------------------------------------------
  // Task lists
  // ---------------------------------------------------------------------------------------

  /** A checkbox, ticked or not, or none. */
  ghost predicate Boxed(body: string, done: bool, rest: string) {
    || (done && exists x :: (body == "[x]" + x || body == "[X]" + x) && rest == TrimSpace(x))
    || (!done && exists x :: body == "[ ]" + x && rest == TrimSpace(x))
    || (!done && rest == body && forall x :: body != "[x]" + x && body != "[X]" + x && body != "[ ]" + x)
  }

  lemma BoxIs(body: string, done: bool, rest: string)
    ensures var ticked := "[x]" <= body || "[X]" <= body;
            Boxed(body, done, rest) <==> done == ticked && rest == if ticked || "[ ]" <= body then TrimSpace(body[3..]) else body
  {
    hide TrimSpace;
    assert "[x]"[1] == 'x' && "[X]"[1] == 'X' && "[ ]"[1] == ' ';
    forall box, x | |box| == 3 && body == box + x ensures box <= body && x == body[3..] {}
    if "[x]" <= body { assert body == "[x]" + body[3..]; }
    if "[X]" <= body { assert body == "[X]" + body[3..]; }
    if "[ ]" <= body { assert body == "[ ]" + body[3..]; }
  }

  /** Digits and dots, with at least one digit. */
  predicate Dotted(n: string) {
    && (forall i | 0 <= i < |n| :: n[i] == '.' || '0' <= n[i] <= '9')
    && !(forall i | 0 <= i < |n| :: n[i] == '.')
  }

  /** A dotted number in front, by itself or before a blank. */
  ghost predicate Numbered(s: string, n: string, x: string) {
    Dotted(n) && ((s == n && x == "") || exists y :: s == n + " " + y && x == TrimSpace(y))
  }

  lemma NumberedIs(s: string, n: string, x: string)
    ensures TasksMarkdown.SplitNumber(s) == (n, x) <==>
            || Numbered(s, n, x)
            || (n == "" && x == s && forall k, y :: !Numbered(s, k, y))
  {
    hide TrimSpace, Numbered, IndexOf, CutHead, CutRest, TasksMarkdown.IsNumber;
    forall k, y ensures Numbered(s, k, y) <==> TasksMarkdown.SplitNumber(s) == (k, y) && k != "" { NumberIs(s, k, y); }
    assert !TasksMarkdown.IsNumber("") by { NoDigits(); }
    var (k, y) := TasksMarkdown.SplitNumber(s);
    assert k == "" ==> y == s;
  }

  lemma NoDigits()
    ensures !TasksMarkdown.IsNumber("")
  {
  }

  lemma DottedIs(n: string)
    ensures Dotted(n) <==> TasksMarkdown.IsNumber(n)
    ensures Dotted(n) ==> n != "" && forall i | 0 <= i < |n| :: n[i] != ' '
  {
    if n == "" { NoDigits(); }
  }

  lemma NumberIs(s: string, n: string, x: string)
    ensures Numbered(s, n, x) <==> TasksMarkdown.SplitNumber(s) == (n, x) && n != ""
  {
    hide TrimSpace, IndexOf, CutHead, CutRest, TasksMarkdown.IsNumber, Dotted;
    DottedIs(n);
    DottedIs(s);
    DottedIs(CutHead(s));
    CutParts(s);
    CutIndex(s);
    TrimmedStays("");
    if Numbered(s, n, x) {
      CutKeyword(n, "");
      if y :| s == n + " " + y && x == TrimSpace(y) {
        CutKeyword(n, y);
        BlankInside(n, y);
        BlankNotDotted(n, y);
      } else {
        CutIndex(n);
      }
    }
  }

  lemma BlankNotDotted(n: string, y: string)
    ensures !Dotted(n + " " + y)
  {
    assert (n + " " + y)[|n|] == ' ';
  }

  lemma BlankInside(n: string, y: string)
    ensures IndexOf(n + " " + y, ' ') < |n + " " + y|
  {
    hide IndexOf;
    assert (n + " " + y)[|n|] == ' ';
  }

  lemma CutIndex(s: string)
    ensures IndexOf(s, ' ') < |s| ==> s == CutHead(s) + " " + CutRest(s)
    ensures IndexOf(s, ' ') == |s| <==> forall i | 0 <= i < |s| :: s[i] != ' '
  {
    hide IndexOf;
    BlankFound(s);
    var i := IndexOf(s, ' ');
    if i < |s| {
      CutAt(s, i);
    }
  }

  lemma BlankFound(s: string)
    ensures IndexOf(s, ' ') == |s| <==> forall i | 0 <= i < |s| :: s[i] != ' '
  {
    hide IndexOf;
  }

  lemma CutAt(s: string, i: nat)
    requires i < |s| && s[i] == ' '
    ensures s == s[..i] + " " + s[i + 1..]
  {
  }

  /** A bullet, its box, its number and its text. */
  ghost predicate Tasked(t: string, k: Task) {
    exists b, rest :: Bulleted(t, b) && Boxed(b, k.done, rest) &&
      (Numbered(rest, k.number, k.text) || (k.number == "" && k.text == rest && forall n, x :: !Numbered(rest, n, x)))
  }

  lemma TaskIs(t: string, k: Task)
    ensures TasksMarkdown.ParseTask(t) == Some(k) <==> Tasked(t, k)
  {
    hide TrimSpace, BulletBody, Bulleted, Boxed, Numbered, TasksMarkdown.SplitNumber;
    forall b ensures BulletBody(t) == Some(b) <==> Bulleted(t, b) { BulletIs(t, b); }
    if BulletBody(t).Some? {
      var b := BulletBody(t).value;
      var ticked := "[x]" <= b || "[X]" <= b;
      var rest := if ticked || "[ ]" <= b then TrimSpace(b[3..]) else b;
      forall d, r ensures Boxed(b, d, r) <==> d == ticked && r == rest { BoxIs(b, d, r); }
      NumberedIs(rest, k.number, k.text);
      assert Bulleted(t, b) && Boxed(b, ticked, rest);
    }
  }

  /** Bullets with the same body but for the case of a tick. */
  ghost predicate SameTask(l: string, m: string) {
    || SameBullet(l, m)
    || (exists v, w, x :: Shows(l, v) && Shows(m, w) && Bulleted(v, "[x]" + x) && Bulleted(w, "[X]" + x))
    || (exists v, w, x :: Shows(l, v) && Shows(m, w) && Bulleted(v, "[X]" + x) && Bulleted(w, "[x]" + x))
  }

  /** What a task list does not tell apart. */
  ghost predicate TasksSame(l: string, m: string) {
    l == m || SameButEnd(l, m) || SameProse(l, m) || SameTask(l, m)
  }

  lemma TicksRead(l: string, m: string, v: string, w: string, x: string)
    requires Shows(l, v) && Shows(m, w) && Bulleted(v, "[x]" + x) && Bulleted(w, "[X]" + x)
    ensures ClassifyTop(l) == Other(v) && ClassifyTop(m) == Other(w) && TasksMarkdown.ParseTask(v) == TasksMarkdown.ParseTask(w)
  {
    hide ClassifyTop, Classify, Shows, BulletBody, Bulleted, TasksMarkdown.SplitNumber, TrimSpace, TrimRight;
    ShownIsRead(l, v);
    ShownIsRead(m, w);
    BulletIs(v, "[x]" + x);
    BulletIs(w, "[X]" + x);
    assert ("[x]" + x)[3..] == x && ("[X]" + x)[3..] == x;
  }

  lemma TasksLine(st: TasksMarkdown.State, l: string, m: string)
    requires TasksSame(l, m)
    ensures TasksMarkdown.Line(st, l) == TasksMarkdown.Line(st, m)
  {
    hide Classify, ClassifyTop, Shows, SameButEnd, SameProse, SameBullet, Bulleted, BulletBody, TrimSpace, TasksMarkdown.SplitNumber;
    if SameButEnd(l, m) {
      EndRead(l, m);
    } else if SameProse(l, m) {
      ProseRead(l, m);
    } else if SameBullet(l, m) {
      var v, w := BulletsRead(l, m);
    } else if v, w, x :| Shows(l, v) && Shows(m, w) && Bulleted(v, "[x]" + x) && Bulleted(w, "[X]" + x) {
      TicksRead(l, m, v, w, x);
    } else if v, w, x :| Shows(l, v) && Shows(m, w) && Bulleted(v, "[X]" + x) && Bulleted(w, "[x]" + x) {
      TicksRead(m, l, w, v, x);
    }
  }

  lemma TasksLenient(a: string, b: string)
    requires |Split(a)| == |Split(b)|
    requires forall i | 0 <= i < |Split(a)| :: TasksSame(Split(a)[i], Split(b)[i])
    ensures TasksMarkdown.Parse(a) == TasksMarkdown.Parse(b)
  {
    hide Split, TasksMarkdown.Line, TasksSame, TasksMarkdown.Finish;
    forall i | 0 <= i < |Split(a)| ensures SameEffect(TasksMarkdown.Line, TasksMarkdown.START, Split(a), Split(b), i) {
      TasksLine(Fold(TasksMarkdown.Line, TasksMarkdown.START, Split(a)[..i]), Split(a)[i], Split(b)[i]);
    }
    AllSame(TasksMarkdown.Line, TasksMarkdown.START, Split(a), Split(b));
  }
}

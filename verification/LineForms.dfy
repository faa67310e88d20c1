/** The line forms that the five parsers share, spelled out letter by letter. */
module LineForms {
  import opened Text
  import opened OpenSpec
  import opened Markdown

  // ---------------------------------------------------------------------------------------
  // Letter case
  // ---------------------------------------------------------------------------------------

  predicate SameLetter(a: char, b: char) {
    || a == b
    || ('A' <= a <= 'Z' && b as int == a as int + 32)
    || ('A' <= b <= 'Z' && a as int == b as int + 32)
  }

  /** The same letters, in any case. */
  predicate Spells(s: string, word: string) {
    |s| == |word| && forall i | 0 <= i < |s| :: SameLetter(s[i], word[i])
  }

  predicate Begins(s: string, word: string) {
    |word| <= |s| && forall i | 0 <= i < |word| :: SameLetter(s[i], word[i])
  }

  lemma LetterCase(a: char, b: char)
    ensures SameLetter(a, b) <==> LowerChar(a) == LowerChar(b)
    ensures SameLetter(a, b) <==> UpperChar(a) == UpperChar(b)
  {
  }

  lemma CaseIgnored(s: string, word: string)
    ensures Spells(s, word) <==> Lower(s) == Lower(word)
    ensures Spells(s, word) <==> Upper(s) == Upper(word)
  {
    hide Lower, Upper, SameLetter, LowerChar, UpperChar;
    forall a, b ensures SameLetter(a, b) <==> LowerChar(a) == LowerChar(b) { LetterCase(a, b); }
    forall a, b ensures SameLetter(a, b) <==> UpperChar(a) == UpperChar(b) { LetterCase(a, b); }
    var l, m, u, v := Lower(s), Lower(word), Upper(s), Upper(word);
    if |s| == |word| {
      assert l == m <==> forall i | 0 <= i < |s| :: l[i] == m[i];
      assert u == v <==> forall i | 0 <= i < |s| :: u[i] == v[i];
    }
  }

  lemma CaseIgnoredInFront(s: string, word: string)
    ensures Begins(s, word) <==> Lower(word) <= Lower(s)
    ensures Begins(s, word) <==> Upper(word) <= Upper(s)
  {
    hide Lower, Upper, SameLetter, LowerChar, UpperChar;
    forall a, b ensures SameLetter(a, b) <==> LowerChar(a) == LowerChar(b) { LetterCase(a, b); }
    forall a, b ensures SameLetter(a, b) <==> UpperChar(a) == UpperChar(b) { LetterCase(a, b); }
    var l, m, u, v := Lower(s), Lower(word), Upper(s), Upper(word);
    if |word| <= |s| {
      assert m <= l <==> forall i | 0 <= i < |word| :: l[i] == m[i];
      assert v <= u <==> forall i | 0 <= i < |word| :: u[i] == v[i];
    }
  }

  // ---------------------------------------------------------------------------------------
  // White space around prose
  // ---------------------------------------------------------------------------------------

  predicate AllSpace(s: string) {
    forall i | 0 <= i < |s| :: IsSpace(s[i])
  }

  /** A line that is no heading, whatever its indentation: `v` between white space. */
  ghost predicate Shows(raw: string, v: string) {
    v != "" && Trimmed(v) && v[0] != '#' && exists gap, tail :: raw == gap + v + tail && AllSpace(gap) && AllSpace(tail)
  }

  lemma {:induction false} LeadingSpace(gap: string, s: string)
    requires AllSpace(gap) && s != "" && !IsSpace(s[0])
    ensures TrimStart(gap + s) == s
  {
    hide IsSpace;
    if gap == "" {
      assert gap + s == s;
    } else {
      LeadingSpace(gap[1..], s);
      assert (gap + s)[1..] == gap[1..] + s && (gap + s)[0] == gap[0];
    }
  }

  lemma {:induction false} TrailingSpace(s: string, tail: string)
    requires AllSpace(tail) && s != "" && !IsSpace(s[|s| - 1])
    ensures TrimEnd(s + tail) == s
  {
    hide IsSpace;
    if tail == "" {
      assert s + tail == s;
    } else {
      var all, init := s + tail, tail[..|tail| - 1];
      TrailingSpace(s, init);
      assert all[..|all| - 1] == s + init && all[|all| - 1] == tail[|tail| - 1];
    }
  }

  lemma {:induction false} TrailingBlank(s: string, tail: string) returns (rest: string)
    requires AllSpace(tail) && s != "" && !IsSpace(s[|s| - 1])
    ensures TrimRight(s + tail) == s + rest && AllSpace(rest)
  {
    var all := s + tail;
    if tail != "" && IsBlank(tail[|tail| - 1]) {
      var init := tail[..|tail| - 1];
      assert all[..|all| - 1] == s + init && all[|all| - 1] == tail[|tail| - 1];
      rest := TrailingBlank(s, init);
    } else {
      assert all[|all| - 1] == if tail == "" then s[|s| - 1] else tail[|tail| - 1];
      assert IsBlank(all[|all| - 1]) ==> IsSpace(all[|all| - 1]);
      rest := tail;
    }
  }

  lemma SpaceCut(gap: string, v: string, tail: string)
    requires AllSpace(gap) && AllSpace(tail) && v != "" && Trimmed(v)
    ensures TrimSpace(gap + v + tail) == v
  {
    hide IsSpace, TrimStart, TrimEnd, AllSpace;
    assert gap + v + tail == gap + (v + tail);
    LeadingSpace(gap, v + tail);
    TrailingSpace(v, tail);
  }

  lemma AllSpaceFirst(gap: string)
    requires AllSpace(gap) && gap != ""
    ensures gap[0] != '#'
  {
  }

  /** Prose is read without the white space around it. */
  lemma ShownIsRead(raw: string, v: string)
    requires Shows(raw, v)
    ensures Classify(raw) == Other(v) && ClassifyTop(raw) == Other(v)
    ensures TrimRight(raw) != "" && TrimRight(raw)[0] != '#'
  {
    hide IsSpace, TrimStart, TrimEnd, TrimRight, TrimSpace, AllSpace;
    var gap, tail :| raw == gap + v + tail && AllSpace(gap) && AllSpace(tail);
    var s := gap + v;
    assert s[|s| - 1] == v[|v| - 1];
    var rest := TrailingBlank(s, tail);
    SpaceCut(gap, v, rest);
    if gap != "" { AllSpaceFirst(gap); }
    var line := TrimRight(raw);
    assert line[0] == if gap == "" then v[0] else gap[0];
    NotAHeading(line);
  }

  // ---------------------------------------------------------------------------------------
  // The end of a line
  // ---------------------------------------------------------------------------------------

  /** Blanks, tabs and carriage returns. */
  predicate Ending(tail: string) {
    forall c | c in tail :: c as int == 32 || c as int == 9 || c as int == 13
  }

  lemma {:induction false} EndingCut(s: string, tail: string)
    requires Ending(tail)
    ensures TrimRight(s + tail) == TrimRight(s)
  {
    if tail == "" {
      assert s + tail == s;
    } else {
      var all, init, last := s + tail, tail[..|tail| - 1], tail[|tail| - 1];
      assert last in tail && forall c | c in init :: c in tail;
      assert all[..|all| - 1] == s + init && all[|all| - 1] == last;
      EndingCut(s, init);
    }
  }

  // ---------------------------------------------------------------------------------------
  // Headings
  // ---------------------------------------------------------------------------------------

  /** A heading: its marker flush left, then its name. */
  ghost predicate Heads(line: string, marker: string, name: string) {
    exists rest :: line == marker + rest && name == TrimSpace(rest)
  }

  lemma HeadsIs(line: string, marker: string, name: string)
    ensures Heads(line, marker, name) <==> marker <= line && name == TrimSpace(line[|marker|..])
  {
    hide TrimSpace;
    if marker <= line { assert line == marker + line[|marker|..]; }
    if Heads(line, marker, name) {
      var rest :| line == marker + rest && name == TrimSpace(rest);
      assert line[|marker|..] == rest;
    }
  }

  lemma MarkersApart(line: string)
    ensures !("#### Scenario:" <= line && "### Requirement:" <= line) && !("#### Scenario:" <= line && "## " <= line)
    ensures !("#### Scenario:" <= line && "# " <= line) && !("### Requirement:" <= line && "## " <= line)
    ensures !("### Requirement:" <= line && "# " <= line) && !("## " <= line && "# " <= line)
  {
    assert "#### Scenario:"[1] == '#' && "#### Scenario:"[2] == '#' && "#### Scenario:"[3] == '#';
    assert "### Requirement:"[1] == '#' && "### Requirement:"[2] == '#' && "### Requirement:"[3] == ' ';
    assert "## "[1] == '#' && "## "[2] == ' ' && "# "[1] == ' ';
  }

  /** What a raw line is in a spec or a delta. */
  lemma LineIs(raw: string, name: string)
    ensures var line := TrimRight(raw);
            && (Classify(raw) == ScenarioHead(name) <==> Heads(line, "#### Scenario:", name))
            && (Classify(raw) == RequirementHead(name) <==> Heads(line, "### Requirement:", name))
            && (Classify(raw) == SectionHead(name) <==> Heads(line, "## ", name))
            && (Classify(raw) == TitleHead(name) <==> Heads(line, "# ", name))
            && (Classify(raw) == Other(name) <==>
                  && name == TrimSpace(line) != ""
                  && !("#### Scenario:" <= line) && !("### Requirement:" <= line) && !("## " <= line) && !("# " <= line))
  {
    hide TrimRight, TrimSpace, Heads;
    var line := TrimRight(raw);
    MarkersApart(line);
    HeadsIs(line, "#### Scenario:", name);
    HeadsIs(line, "### Requirement:", name);
    HeadsIs(line, "## ", name);
    HeadsIs(line, "# ", name);
  }

  /** What a raw line is in a proposal, a design or a task list. */
  lemma TopLineIs(raw: string, name: string)
    ensures var line := TrimRight(raw);
            && (ClassifyTop(raw) == SectionHead(name) <==> Heads(line, "## ", name))
            && (ClassifyTop(raw) == TitleHead(name) <==> Heads(line, "# ", name))
            && (ClassifyTop(raw) == Other(name) <==> name == TrimSpace(line) != "" && !("## " <= line) && !("# " <= line))
            && !ClassifyTop(raw).ScenarioHead? && !ClassifyTop(raw).RequirementHead?
  {
    hide TrimRight, TrimSpace, Heads;
    var line := TrimRight(raw);
    MarkersApart(line);
    HeadsIs(line, "## ", name);
    HeadsIs(line, "# ", name);
  }

  // ---------------------------------------------------------------------------------------
  // Bullets
  // ---------------------------------------------------------------------------------------

  predicate Marker(m: char) {
    m == '-' || m == '*' || m == '+'
  }

  /** One of three markers, a blank, and the body. */
  ghost predicate Bulleted(t: string, body: string) {
    exists m, rest :: Marker(m) && t == [m] + " " + rest && body == TrimSpace(rest)
  }

  lemma BulletIs(t: string, body: string)
    ensures BulletBody(t) == Some(body) <==> Bulleted(t, body)
  {
    hide TrimSpace;
    if BulletBody(t) == Some(body) {
      assert t == [t[0]] + " " + t[2..];
    }
    if Bulleted(t, body) {
      var m, rest :| Marker(m) && t == [m] + " " + rest && body == TrimSpace(rest);
      assert t[2..] == rest && t[..2] == [m] + " ";
    }
  }

  // ---------------------------------------------------------------------------------------
  // Steps
  // ---------------------------------------------------------------------------------------

  predicate StepWord(k: string) {
    k == "GIVEN" || k == "WHEN" || k == "THEN" || k == "AND"
  }

  /** The body is the word `k`, in any case, by itself or followed by a blank and a text. */
  ghost predicate Opens(body: string, k: string, text: string) {
    exists head :: Spells(head, k) && ((body == head && text == "") || exists rest :: body == head + " " + rest && text == TrimSpace(rest))
  }

  lemma NoBlank(head: string, k: string)
    requires StepWord(k) && Spells(head, k)
    ensures forall i | 0 <= i < |head| :: head[i] != ' '
  {
    KeywordLetters(k);
  }

  /** A step has one of four keywords, or none and the whole body as its text. */
  lemma StepIs(body: string, k: string, text: string)
    requires Trimmed(body)
    ensures ParseStep(body) == Step(k, text) <==>
            || (StepWord(k) && Opens(body, k, text))
            || (k == "" && text == body && forall w, x | StepWord(w) :: !Opens(body, w, x))
  {
    hide TrimSpace, CutHead, CutRest, Upper, Opens;
    TrimmedStays(body);
    forall w, x ensures StepWord(w) && Opens(body, w, x) <==> StepWord(w) && Upper(CutHead(body)) == w && x == TrimSpace(CutRest(body)) {
      OpensIs(body, w, x);
    }
    var kw := Upper(CutHead(body));
    if IsKeyword(kw) { assert Opens(body, kw, TrimSpace(CutRest(body))); }
  }

  lemma OpensIs(body: string, k: string, text: string)
    ensures StepWord(k) && Opens(body, k, text) <==> StepWord(k) && Upper(CutHead(body)) == k && text == TrimSpace(CutRest(body))
  {
    hide TrimSpace, Upper, Spells, IndexOf;
    if StepWord(k) {
      assert Upper(k) == k by { KeywordShape(k); }
      CaseIgnored(CutHead(body), k);
      TrimmedStays("");
      CutParts(body);
      if Opens(body, k, text) {
        var head :| Spells(head, k) && ((body == head && text == "") || exists rest :: body == head + " " + rest && text == TrimSpace(rest));
        NoBlank(head, k);
        if rest :| body == head + " " + rest && text == TrimSpace(rest) {
          CutKeyword(head, rest);
        } else {
          CutKeyword(head, "");
        }
      }
    }
  }

  lemma CutParts(body: string)
    ensures (CutRest(body) == "" && body == CutHead(body)) || body == CutHead(body) + " " + CutRest(body)
  {
    var i := IndexOf(body, ' ');
    if i < |body| { assert body == body[..i] + " " + body[i + 1..]; }
  }
}

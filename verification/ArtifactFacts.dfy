/**
Proposals and designs as facts: four optional fields under one prefix.
*/
module ArtifactFacts {
  import opened Text
  import opened OpenSpec
  import opened RequirementIds
  import opened Facts

  // ---------------------------------------------------------------------------------------
  // Entries of four optional fields
  // ---------------------------------------------------------------------------------------

  function Add(key: string, o: Option<Object>): seq<Fact> {
    if o.None? then [] else [Fact(key, o.value)]
  }

  function Four(p: string, a: string, oa: Option<Object>, b: string, ob: Option<Object>, c: string, oc: Option<Object>,
                d: string, od: Option<Object>): Entry
  {
    Entry(p, Add(p + a, oa) + Add(p + b, ob) + Add(p + c, oc) + Add(p + d, od))
  }

  predicate FourNames(a: string, b: string, c: string, d: string) {
    && DotFree(a) && DotFree(b) && DotFree(c) && DotFree(d)
    && a != b && a != c && a != d && b != c && b != d && c != d
  }

  lemma FourMembers(p: string, a: string, oa: Option<Object>, b: string, ob: Option<Object>, c: string, oc: Option<Object>,
                    d: string, od: Option<Object>)
    ensures forall f :: f in Four(p, a, oa, b, ob, c, oc, d, od).facts <==>
                        || (oa.Some? && f == Fact(p + a, oa.value))
                        || (ob.Some? && f == Fact(p + b, ob.value))
                        || (oc.Some? && f == Fact(p + c, oc.value))
                        || (od.Some? && f == Fact(p + d, od.value))
  {
  }

  lemma FourApart(p: string, a: string, b: string, c: string, d: string)
    requires FourNames(a, b, c, d)
    ensures p + a != p + b && p + a != p + c && p + a != p + d && p + b != p + c && p + b != p + d && p + c != p + d
    ensures forall x | x == a || x == b || x == c || x == d :: p <= p + x && (p + x)[|p|..] == x
  {
    FieldsApart(p, a, b);
    FieldsApart(p, a, c);
    FieldsApart(p, a, d);
    FieldsApart(p, b, c);
    FieldsApart(p, b, d);
    FieldsApart(p, c, d);
  }

  lemma FourOk(p: string, a: string, oa: Option<Object>, b: string, ob: Option<Object>, c: string, oc: Option<Object>,
               d: string, od: Option<Object>)
    requires Dotted(p) && FourNames(a, b, c, d)
    ensures EntryOk(Four(p, a, oa, b, ob, c, oc, d, od))
  {
    hide Four;
    FourMembers(p, a, oa, b, ob, c, oc, d, od);
    FourApart(p, a, b, c, d);
    assert Four(p, a, oa, b, ob, c, oc, d, od).prefix == p by { FourPrefix(p, a, oa, b, ob, c, oc, d, od); }
  }

  lemma FourPrefix(p: string, a: string, oa: Option<Object>, b: string, ob: Option<Object>, c: string, oc: Option<Object>,
                   d: string, od: Option<Object>)
    ensures Four(p, a, oa, b, ob, c, oc, d, od).prefix == p
  {
  }

  function Find(idx: FactIndex, k: string): Option<Object> {
    if k in idx then Some(idx[k]) else None
  }

  lemma FindShows(idx: FactIndex, e: Entry, field: string, o: Option<Object>)
    requires Shows(idx, e) && DotFree(field)
    requires o.Some? ==> Fact(e.prefix + field, o.value) in e.facts
    requires o.None? ==> forall f | f in e.facts :: f.key != e.prefix + field
    ensures Find(idx, e.prefix + field) == o
  {
  }

  /** The index shows such an entry by its four fields. */
  lemma FourShow(idx: FactIndex, p: string, a: string, oa: Option<Object>, b: string, ob: Option<Object>, c: string,
                 oc: Option<Object>, d: string, od: Option<Object>)
    requires FourNames(a, b, c, d) && Shows(idx, Four(p, a, oa, b, ob, c, oc, d, od))
    ensures Find(idx, p + a) == oa && Find(idx, p + b) == ob && Find(idx, p + c) == oc && Find(idx, p + d) == od
  {
    hide Four, Shows, Find;
    var e := Four(p, a, oa, b, ob, c, oc, d, od);
    FourPrefix(p, a, oa, b, ob, c, oc, d, od);
    FourMembers(p, a, oa, b, ob, c, oc, d, od);
    FourApart(p, a, b, c, d);
    FindShows(idx, e, a, oa);
    FindShows(idx, e, b, ob);
    FindShows(idx, e, c, oc);
    FindShows(idx, e, d, od);
  }

  // ---------------------------------------------------------------------------------------
  // Values: empty ones are not stored
  // ---------------------------------------------------------------------------------------

  function OfText(s: string): Option<Object> {
    if s == "" then None else Some(Prose(s))
  }

  function OfStrings(xs: seq<string>): Option<Object> {
    if xs == [] then None else Some(StringList(xs))
  }

  function OfDecisions(ds: seq<Decision>): Option<Object> {
    if ds == [] then None else Some(DecisionList(ds))
  }

  function OfChanges(fs: seq<FileChange>): Option<Object> {
    if fs == [] then None else Some(FileChangeList(fs))
  }

  function StringsAt(idx: FactIndex, k: string): seq<string> {
    if k in idx && idx[k].StringList? then idx[k].items else []
  }

  function DecisionsAt(idx: FactIndex, k: string): seq<Decision> {
    if k in idx && idx[k].DecisionList? then idx[k].decisions else []
  }

  function ChangesAt(idx: FactIndex, k: string): seq<FileChange> {
    if k in idx && idx[k].FileChangeList? then idx[k].changes else []
  }

  // ---------------------------------------------------------------------------------------
  // Proposal and design
  // ---------------------------------------------------------------------------------------

  function ProposalEntry(p: string, x: Option<Proposal>): Entry {
    if x.None? then Entry(p, [])
    else
      var y := x.value;
      Four(p, "intent", OfText(y.intent), "scope_in", OfStrings(y.scopeIn), "scope_out", OfStrings(y.scopeOut),
           "approach", OfText(y.approach))
  }

  function DesignEntry(p: string, x: Option<Design>): Entry {
    if x.None? then Entry(p, [])
    else
      var y := x.value;
      Four(p, "technical_approach", OfText(y.technical), "decisions", OfDecisions(y.decisions), "data_flow", OfText(y.dataFlow),
           "file_changes", OfChanges(y.fileChanges))
  }

  function ProposalAt(idx: FactIndex, p: string): Option<Proposal> {
    var x := Proposal("", TextAt(idx, p + "intent"), StringsAt(idx, p + "scope_in"), StringsAt(idx, p + "scope_out"),
                      TextAt(idx, p + "approach"), []);
    if x.intent == "" && x.scopeIn == [] && x.scopeOut == [] && x.approach == "" then None else Some(x)
  }

  function DesignAt(idx: FactIndex, p: string): Option<Design> {
    var x := Design("", TextAt(idx, p + "technical_approach"), DecisionsAt(idx, p + "decisions"), TextAt(idx, p + "data_flow"),
                    ChangesAt(idx, p + "file_changes"), []);
    if x.technical == "" && x.decisions == [] && x.dataFlow == "" && x.fileChanges == [] then None else Some(x)
  }

  /** A proposal with some modeled content. */
  predicate ProposalPresent(x: Proposal) {
    x.intent != "" || x.scopeIn != [] || x.scopeOut != [] || x.approach != ""
  }

  predicate DesignPresent(x: Design) {
    x.technical != "" || x.decisions != [] || x.dataFlow != "" || x.fileChanges != []
  }

  /** What the graph keeps of a proposal: not its title, not its unmodeled sections, and nothing if it is empty. */
  function KeptProposal(x: Option<Proposal>): Option<Proposal> {
    if x.Some? && ProposalPresent(x.value) then Some(x.value.(title := "", extras := [])) else None
  }

  function KeptDesign(x: Option<Design>): Option<Design> {
    if x.Some? && DesignPresent(x.value) then Some(x.value.(title := "", extras := [])) else None
  }

  lemma ProposalNames()
    ensures FourNames("intent", "scope_in", "scope_out", "approach")
  {
    assert "scope_in"[0] != "approach"[0];
    assert |"intent"| == 6 && |"scope_in"| == 8 && |"scope_out"| == 9 && |"approach"| == 8;
  }

  lemma DesignNames()
    ensures FourNames("technical_approach", "decisions", "data_flow", "file_changes")
  {
    assert "decisions"[1] != "data_flow"[1];
    assert |"technical_approach"| == 18 && |"decisions"| == 9 && |"data_flow"| == 9 && |"file_changes"| == 12;
  }

  lemma ProposalEntryOk(p: string, x: Option<Proposal>)
    requires Dotted(p)
    ensures EntryOk(ProposalEntry(p, x)) && ProposalEntry(p, x).prefix == p
  {
    hide EntryOk, Four, FourNames, OfText, OfStrings;
    if x.None? {
      assert EntryOk(Entry(p, [])) by { NoFacts(p); }
    } else {
      var y := x.value;
      ProposalNames();
      FourOk(p, "intent", OfText(y.intent), "scope_in", OfStrings(y.scopeIn), "scope_out", OfStrings(y.scopeOut),
             "approach", OfText(y.approach));
      FourPrefix(p, "intent", OfText(y.intent), "scope_in", OfStrings(y.scopeIn), "scope_out", OfStrings(y.scopeOut),
                 "approach", OfText(y.approach));
    }
  }

  lemma DesignEntryOk(p: string, x: Option<Design>)
    requires Dotted(p)
    ensures EntryOk(DesignEntry(p, x)) && DesignEntry(p, x).prefix == p
  {
    hide EntryOk, Four, FourNames, OfText, OfDecisions, OfChanges;
    if x.None? {
      assert EntryOk(Entry(p, [])) by { NoFacts(p); }
    } else {
      var y := x.value;
      DesignNames();
      FourOk(p, "technical_approach", OfText(y.technical), "decisions", OfDecisions(y.decisions), "data_flow", OfText(y.dataFlow),
             "file_changes", OfChanges(y.fileChanges));
      FourPrefix(p, "technical_approach", OfText(y.technical), "decisions", OfDecisions(y.decisions), "data_flow",
                 OfText(y.dataFlow), "file_changes", OfChanges(y.fileChanges));
    }
  }

  lemma NoFacts(p: string)
    requires Dotted(p)
    ensures EntryOk(Entry(p, []))
  {
  }

  lemma NothingShown(idx: FactIndex, p: string, field: string)
    requires Shows(idx, Entry(p, [])) && DotFree(field)
    ensures p + field !in idx
  {
  }

  /** A proposal is rebuilt from its entry. */
  lemma ProposalShows(idx: FactIndex, p: string, x: Option<Proposal>)
    requires Shows(idx, ProposalEntry(p, x))
    ensures ProposalAt(idx, p) == KeptProposal(x)
  {
    hide Shows, Four;
    ProposalNames();
    if x.None? {
      NothingShown(idx, p, "intent");
      NothingShown(idx, p, "scope_in");
      NothingShown(idx, p, "scope_out");
      NothingShown(idx, p, "approach");
    } else {
      var y := x.value;
      FourShow(idx, p, "intent", OfText(y.intent), "scope_in", OfStrings(y.scopeIn), "scope_out", OfStrings(y.scopeOut),
               "approach", OfText(y.approach));
    }
  }

  /** A design is rebuilt from its entry. */
  lemma DesignShows(idx: FactIndex, p: string, x: Option<Design>)
    requires Shows(idx, DesignEntry(p, x))
    ensures DesignAt(idx, p) == KeptDesign(x)
  {
    hide Shows, Four;
    DesignNames();
    if x.None? {
      NothingShown(idx, p, "technical_approach");
      NothingShown(idx, p, "decisions");
      NothingShown(idx, p, "data_flow");
      NothingShown(idx, p, "file_changes");
    } else {
      var y := x.value;
      FourShow(idx, p, "technical_approach", OfText(y.technical), "decisions", OfDecisions(y.decisions), "data_flow",
               OfText(y.dataFlow), "file_changes", OfChanges(y.fileChanges));
    }
  }
}

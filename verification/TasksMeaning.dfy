/** What a task list means, without a parser. */
module TasksMeaning {
  import opened Text
  import opened OpenSpec
  import opened Markdown
  import opened SectionMeaning
  import TasksMarkdown

  /** A task of section heading `s`, or of none. */
  predicate IsTask(ls: seq<string>, s: Option<nat>, i: nat)
    requires i < |ls|
  {
    ClassifyTop(ls[i]).Other? && SectionOver(ls, i) == s && TasksMarkdown.ParseTask(ClassifyTop(ls[i]).text).Some?
  }

  function TasksUpTo(ls: seq<string>, s: Option<nat>, n: nat): seq<Task>
    requires n <= |ls|
  {
    if n == 0 then []
    else TasksUpTo(ls, s, n - 1) + if IsTask(ls, s, n - 1) then [TasksMarkdown.ParseTask(ClassifyTop(ls[n - 1]).text).value] else []
  }

  /** The tasks before any heading make an unnamed section. */
  function LeadUpTo(ls: seq<string>, n: nat): seq<TaskSection>
    requires n <= |ls|
  {
    if TasksUpTo(ls, None, n) == [] then [] else [TaskSection("", TasksUpTo(ls, None, n))]
  }

  /** The sections that begin before line `m`, with their tasks before line `n`. */
  function SectionsUpTo(ls: seq<string>, m: nat, n: nat): seq<TaskSection>
    requires m <= |ls| && n <= |ls|
  {
    if m == 0 then []
    else SectionsUpTo(ls, m - 1, n) +
         if ClassifyTop(ls[m - 1]).SectionHead? then [TaskSection(ClassifyTop(ls[m - 1]).heading, TasksUpTo(ls, Some(m - 1), n))] else []
  }

  function Meaning(text: string): Tasks {
    var ls := Split(text);
    Tasks(TitleUpTo(ls, |ls|), LeadUpTo(ls, |ls|) + SectionsUpTo(ls, |ls|, |ls|))
  }

  // ---------------------------------------------------------------------------------------
  // The parser keeps exactly that
  // ---------------------------------------------------------------------------------------

  lemma TasksMore(ls: seq<string>, s: Option<nat>, n: nat)
    requires n < |ls|
    ensures IsTask(ls, s, n) ==>
              TasksUpTo(ls, s, n + 1) == TasksUpTo(ls, s, n) + [TasksMarkdown.ParseTask(ClassifyTop(ls[n]).text).value]
    ensures !IsTask(ls, s, n) ==> TasksUpTo(ls, s, n + 1) == TasksUpTo(ls, s, n)
  {
    hide ClassifyTop, TasksMarkdown.ParseTask;
  }

  lemma {:induction false} SectionsStay(ls: seq<string>, m: nat, n: nat)
    requires m <= n < |ls| && forall s | 0 <= s < m :: !IsTask(ls, Some(s), n)
    ensures SectionsUpTo(ls, m, n + 1) == SectionsUpTo(ls, m, n)
    decreases m
  {
    hide ClassifyTop, IsTask, TasksUpTo;
    if m > 0 {
      SectionsStay(ls, m - 1, n);
      TasksMore(ls, Some(m - 1), n);
    }
  }

  lemma {:induction false} SectionsEnd(ls: seq<string>, m: nat, m': nat, n: nat)
    requires m <= m' <= |ls| && n <= |ls| && forall s | m <= s < m' :: !ClassifyTop(ls[s]).SectionHead?
    ensures SectionsUpTo(ls, m', n) == SectionsUpTo(ls, m, n)
    decreases m'
  {
    hide ClassifyTop, TasksUpTo;
    if m' > m { SectionsEnd(ls, m, m' - 1, n); }
  }

  lemma {:induction false} NoTasksYet(ls: seq<string>, s: nat, n: nat)
    requires n <= s + 1 <= |ls| && ClassifyTop(ls[s]).SectionHead?
    ensures TasksUpTo(ls, Some(s), n) == []
    decreases n
  {
    hide ClassifyTop;
    if n > 0 { NoTasksYet(ls, s, n - 1); }
  }

  ghost predicate Agrees(ls: seq<string>, n: nat, st: TasksMarkdown.State)
    requires n <= |ls|
  {
    && st.title == TitleUpTo(ls, n)
    && match SectionOver(ls, n)
       case None =>
         && st.sections == []
         && st.current == if TasksUpTo(ls, None, n) == [] then None else Some(TaskSection("", TasksUpTo(ls, None, n)))
       case Some(s) =>
         && st.sections == LeadUpTo(ls, n) + SectionsUpTo(ls, s, n)
         && st.current == Some(TaskSection(ClassifyTop(ls[s]).heading, TasksUpTo(ls, Some(s), n)))
  }

  lemma FlushAgrees(ls: seq<string>, n: nat, st: TasksMarkdown.State)
    requires n <= |ls| && Agrees(ls, n, st)
    ensures TasksMarkdown.Flush(st).sections == LeadUpTo(ls, n) + SectionsUpTo(ls, n, n)
    ensures TasksMarkdown.Flush(st).title == st.title
  {
    hide ClassifyTop, TasksUpTo, TitleUpTo;
    if SectionOver(ls, n).Some? {
      var s := SectionOver(ls, n).value;
      SectionsEnd(ls, s + 1, n, n);
      assert LeadUpTo(ls, n) + SectionsUpTo(ls, s, n) + [st.current.value] == LeadUpTo(ls, n) + (SectionsUpTo(ls, s, n) + [st.current.value]);
    } else {
      SectionsEnd(ls, 0, n, n);
      assert LeadUpTo(ls, n) + [] == LeadUpTo(ls, n);
    }
  }

  lemma LeadStays(ls: seq<string>, n: nat)
    requires n < |ls| && !IsTask(ls, None, n)
    ensures LeadUpTo(ls, n + 1) == LeadUpTo(ls, n)
  {
    hide TasksUpTo, IsTask;
    TasksMore(ls, None, n);
  }

  lemma SectionLine(ls: seq<string>, n: nat, st: TasksMarkdown.State)
    requires n < |ls| && Agrees(ls, n, st) && ClassifyTop(ls[n]).SectionHead?
    ensures Agrees(ls, n + 1, TasksMarkdown.Line(st, ls[n]))
  {
    hide ClassifyTop, TasksUpTo, LeadUpTo, SectionsUpTo, TasksMarkdown.Flush;
    FlushAgrees(ls, n, st);
    LeadStays(ls, n);
    SectionsStay(ls, n, n);
    NoTasksYet(ls, n, n + 1);
  }

  lemma OtherLine(ls: seq<string>, n: nat, st: TasksMarkdown.State)
    requires n < |ls| && Agrees(ls, n, st) && !ClassifyTop(ls[n]).SectionHead?
    ensures Agrees(ls, n + 1, TasksMarkdown.Line(st, ls[n]))
  {
    hide ClassifyTop, TasksUpTo, SectionsUpTo, TasksMarkdown.ParseTask;
    TasksMore(ls, SectionOver(ls, n), n);
    if SectionOver(ls, n).Some? {
      LeadStays(ls, n);
      SectionsStay(ls, SectionOver(ls, n).value, n);
    }
    assert !ClassifyTop(ls[n]).ScenarioHead? && !ClassifyTop(ls[n]).RequirementHead? by { TopLine(ls[n]); }
  }

  lemma TopLine(raw: string)
    ensures !ClassifyTop(raw).ScenarioHead? && !ClassifyTop(raw).RequirementHead?
  {
    hide TrimRight, TrimSpace;
  }

  lemma NoLines(ls: seq<string>)
    ensures Agrees(ls, 0, TasksMarkdown.START)
  {
    hide ClassifyTop;
  }

  lemma {:induction false} LinesAgree(ls: seq<string>, n: nat)
    requires n <= |ls|
    ensures Agrees(ls, n, Fold(TasksMarkdown.Line, TasksMarkdown.START, ls[..n]))
    decreases n
  {
    hide Agrees, TasksMarkdown.Line, ClassifyTop;
    if n == 0 {
      NoLines(ls);
      assert ls[..0] == [];
    } else {
      LinesAgree(ls, n - 1);
      FoldSnoc(TasksMarkdown.Line, TasksMarkdown.START, ls, n - 1);
      var st := Fold(TasksMarkdown.Line, TasksMarkdown.START, ls[..n - 1]);
      if ClassifyTop(ls[n - 1]).SectionHead? { SectionLine(ls, n - 1, st); } else { OtherLine(ls, n - 1, st); }
    }
  }

  /** The parser returns what the text means. */
  lemma ParseIsMeaning(text: string)
    ensures TasksMarkdown.Parse(text) == Meaning(text)
  {
    hide TasksMarkdown.Line, Split, TasksMarkdown.Flush, LeadUpTo, SectionsUpTo;
    var ls := Split(text);
    LinesAgree(ls, |ls|);
    assert ls[..|ls|] == ls;
    FlushAgrees(ls, |ls|, Fold(TasksMarkdown.Line, TasksMarkdown.START, ls));
  }
}

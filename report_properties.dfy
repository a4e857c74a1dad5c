/** What the line pass of `renderResult` promises about the report it
    builds (client/src/pages/assignment.tsx, lines 190-211 and 229-231),
    stated against reference definitions that read each line on its own. */
module ReportProperties {
  import opened Results
  import opened Text
  import opened Keys
  import opened ReportParser

  /** Lines 196-200 on a bullet line: the title is the trimmed text after
      the first character up to the first colon, the grade the trimmed text
      between the first and the second colon; with no colon there is no
      grade and the pass fails. */
  lemma HeaderFields(line: string, current: string)
    requires StartsWith(line, Bullet)
    ensures var rest := line[1..]; var k := Classify(line, current);
      && (k.HeaderWithoutGrade? <==> ':' !in rest)
      && (':' in rest ==>
            k == SectionHeader(Trim(rest[..IndexOfChar(rest, ':').value]), Trim(SecondPiece(rest))))
  {
    var rest := line[1..];
    FindChar(rest, ':');
    if ':' in rest {
      var i := IndexOfChar(rest, ':').value;
      var after := rest[i + 1..];
      FindChar(after, ':');
      assert Split(rest, ":") == [rest[..i]] + Split(after, ":");
    }
  }

  /** The bullet test looks at three characters but `substring(1)` drops
      only the first, so every title starts with the other two and a title
      is never empty. */
  lemma TitleKeepsBulletTail(line: string)
    requires StartsWith(line, Bullet) && ':' in line[1..]
    ensures var rest := line[1..];
      StartsWith(Trim(rest[..IndexOfChar(rest, ':').value]), Bullet[1..])
  {
    var rest := line[1..];
    var i := IndexOfChar(rest, ':').value;
    assert rest[..2] == Bullet[1..] by {
      assert line[..3] == Bullet;
    }
    assert rest[0] != ':' && rest[1] != ':';
    assert rest[..i][..2] == Bullet[1..];
    TrimKeepsPrefix(rest[..i], Bullet[1..]);
  }

  /** Every section title keeps the bullet's tail, so it is never empty. */
  lemma TitleNonEmpty(line: string, current: string)
    requires Classify(line, current).SectionHeader?
    ensures StartsWith(Classify(line, current).title, Bullet[1..])
    ensures Classify(line, current).title != []
  {
    DispatchOrder(line, current);
    HeaderFields(line, current);
    TitleKeepsBulletTail(line);
  }

  /** Reference reading of a header line (lines 196-200): a line starting
      with the bullet and holding a colon after its first character
      introduces the title up to that colon. */
  function HeaderTitle(line: string): Option<string>
  {
    if StartsWith(line, Bullet) && ':' in line[1..] then
      Some(Trim(line[1..][..IndexOfChar(line[1..], ':').value]))
    else None
  }

  /** The titles of the header lines, in the order they occur. */
  function HeaderTitles(lines: seq<string>): seq<string>
  {
    if lines == [] then []
    else
      var t := HeaderTitle(CleanLine(lines[|lines| - 1]));
      HeaderTitles(lines[..|lines| - 1]) + (if t.Some? then [t.value] else [])
  }

  /** Reference reading of the overall feedback: the last cleaned line that
      starts with `Overall` among the lines before the first header, or the
      empty string. */
  function LastOverall(lines: seq<string>): string
  {
    if lines == [] then []
    else
      var prev := lines[..|lines| - 1];
      var line := CleanLine(lines[|lines| - 1]);
      if HeaderTitles(prev) == [] && StartsWith(line, OverallPrefix) then line else LastOverall(prev)
  }

  /** A header line makes its title active and assigns its key; any other
      line leaves the active title and the key order alone. */
  lemma StepTitle(st: ParseState, raw: string)
    requires WellFormed(st) && Step(st, raw).Ok?
    ensures var t := HeaderTitle(CleanLine(raw)); var st' := Step(st, raw).value;
      && (t.Some? ==> st'.current == t.value && st'.order == Insert(st.order, t.value) && t.value != [])
      && (t.None? ==> st'.current == st.current && st'.order == st.order)
  {
    var line := CleanLine(raw);
    var k := Classify(line, st.current);
    DispatchOrder(line, st.current);
    if StartsWith(line, Bullet) {
      HeaderFields(line, st.current);
      TitleKeepsBulletTail(line);
    }
    assert Step(st, raw) == Ok(Apply(st, k));
  }

  /** With no section active, an `Overall` line is captured whole: none
      of the earlier tests matches a line starting with `O`. */
  lemma OverallCaptured(line: string)
    requires StartsWith(line, OverallPrefix)
    ensures Classify(line, []) == OverallLine(line)
  {
    assert line[0] == 'O';
    assert !StartsWith(line, Bullet) && !StartsWith(line, TotalPrefix) && !StartsWith(line, LetterPrefix);
  }

  /** The overall feedback changes only on an `Overall` line read while no
      section is active. */
  lemma StepOverall(st: ParseState, raw: string)
    requires WellFormed(st) && Step(st, raw).Ok?
    ensures var line := CleanLine(raw);
      Step(st, raw).value.overallFeedback ==
        if st.current == [] && StartsWith(line, OverallPrefix) then line else st.overallFeedback
  {
    var line := CleanLine(raw);
    var k := Classify(line, st.current);
    DispatchOrder(line, st.current);
    if st.current == [] && StartsWith(line, OverallPrefix) {
      OverallCaptured(line);
    }
    assert Step(st, raw) == Ok(Apply(st, k));
  }

  /** The active title is the last header's title, and none before the
      first header. */
  lemma {:induction false} RunCurrent(lines: seq<string>)
    requires Run(lines).Ok?
    ensures var titles := HeaderTitles(lines);
      Run(lines).value.current == if titles == [] then [] else titles[|titles| - 1]
    ensures Run(lines).value.current == [] <==> HeaderTitles(lines) == []
  {
    if lines != [] {
      var prefix := lines[..|lines| - 1];
      RunTitle(lines);
      RunCurrent(prefix);
      CurrentStep(HeaderTitles(prefix), HeaderTitle(CleanLine(lines[|lines| - 1])),
                  Run(prefix).value.current, Run(lines).value.current);
    }
  }

  lemma CurrentStep(titles: seq<string>, t: Option<string>, cur: string, cur': string)
    requires cur == (if titles == [] then [] else titles[|titles| - 1])
    requires cur == [] <==> titles == []
    requires t.Some? ==> cur' == t.value && t.value != []
    requires t.None? ==> cur' == cur
    ensures var titles' := titles + (if t.Some? then [t.value] else []);
      && cur' == (if titles' == [] then [] else titles'[|titles'| - 1])
      && (cur' == [] <==> titles' == [])
  {
    if t.None? {
      assert titles + [] == titles;
    }
  }

  /** The last line of a run read through `StepTitle`. */
  lemma RunTitle(lines: seq<string>)
    requires lines != [] && Run(lines).Ok?
    ensures Run(lines[..|lines| - 1]).Ok?
    ensures var t := HeaderTitle(CleanLine(lines[|lines| - 1]));
      var st := Run(lines[..|lines| - 1]).value; var st' := Run(lines).value;
      && (t.Some? ==> st'.current == t.value && st'.order == Insert(st.order, t.value) && t.value != [])
      && (t.None? ==> st'.current == st.current && st'.order == st.order)
  {
    RunLast(lines);
    StepTitle(Run(lines[..|lines| - 1]).value, lines[|lines| - 1]);
  }

  /** Lines 199-200 and 229: the sections are the header titles, each once,
      in the order of their first header; a repeated title keeps its place. */
  lemma {:induction false} RunOrder(lines: seq<string>)
    requires Run(lines).Ok?
    ensures InFirstAppearanceOrder(Run(lines).value.order, HeaderTitles(lines))
  {
    if lines != [] {
      var prefix := lines[..|lines| - 1];
      RunLast(lines);
      RunOrder(prefix);
      StepTitle(Run(prefix).value, lines[|lines| - 1]);
      OrderStep(Run(prefix).value.order, HeaderTitles(prefix), HeaderTitle(CleanLine(lines[|lines| - 1])),
                Run(lines).value.order);
    }
  }

  lemma OrderStep(order: seq<string>, titles: seq<string>, t: Option<string>, order': seq<string>)
    requires InFirstAppearanceOrder(order, titles)
    requires t.Some? ==> order' == Insert(order, t.value)
    requires t.None? ==> order' == order
    ensures InFirstAppearanceOrder(order', titles + (if t.Some? then [t.value] else []))
  {
    if t.Some? {
      InsertKeepsOrder(order, titles, t.value);
    } else {
      assert titles + [] == titles;
    }
  }

  /** The keys of the `sections` object are exactly the header titles. */
  lemma SectionKeys(lines: seq<string>)
    requires Run(lines).Ok?
    ensures forall t :: t in Run(lines).value.sections <==> t in HeaderTitles(lines)
  {
    RunOrder(lines);
  }

  /** Line 209 behind line 205: an `Overall` line is captured only before the
      first header, since a title is never empty and stays active. */
  lemma {:induction false} RunOverall(lines: seq<string>)
    requires Run(lines).Ok?
    ensures Run(lines).value.overallFeedback == LastOverall(lines)
  {
    if lines != [] {
      var prefix := lines[..|lines| - 1];
      RunLast(lines);
      RunOverall(prefix);
      RunCurrent(prefix);
      StepOverall(Run(prefix).value, lines[|lines| - 1]);
    }
  }

  /** One more line: a failed pass stays failed, otherwise it takes a step. */
  lemma RunUnfold(lines: seq<string>)
    requires lines != []
    ensures var prev := Run(lines[..|lines| - 1]);
      Run(lines) == if prev.Err? then prev else Step(prev.value, lines[|lines| - 1])
  {
  }

  /** The pass over a non-empty list succeeds only if the pass over all
      but the last line does, and then takes one more step. */
  lemma RunLast(lines: seq<string>)
    requires lines != [] && Run(lines).Ok?
    ensures Run(lines[..|lines| - 1]).Ok?
    ensures Run(lines) == Step(Run(lines[..|lines| - 1]).value, lines[|lines| - 1])
  {
    RunUnfold(lines);
  }

  /** A bullet line without a colon after its first character. */
  predicate IsBadHeader(line: string)
  {
    StartsWith(line, Bullet) && ':' !in line[1..]
  }

  /** The first cleaned line that is a bullet header without a colon. */
  function BadHeader(lines: seq<string>): Option<string>
  {
    if lines == [] then None
    else
      var before := BadHeader(lines[..|lines| - 1]);
      if before.Some? then before
      else if IsBadHeader(CleanLine(lines[|lines| - 1])) then Some(CleanLine(lines[|lines| - 1]))
      else None
  }

  /** A line fails exactly when it is a bullet header without a colon. */
  lemma StepFails(st: ParseState, raw: string)
    requires WellFormed(st)
    ensures Step(st, raw).Err? <==> IsBadHeader(CleanLine(raw))
    ensures Step(st, raw).Err? ==> Step(st, raw) == Err(GradeMissing(CleanLine(raw)))
  {
    var line := CleanLine(raw);
    DispatchOrder(line, st.current);
    if StartsWith(line, Bullet) {
      HeaderFields(line, st.current);
    }
  }

  /** Lines 198-200: the pass fails exactly when some line is a bullet
      header without a colon, and reports the first one. */
  lemma {:induction false} RunFails(lines: seq<string>)
    ensures Run(lines).Err? <==> BadHeader(lines).Some?
    ensures Run(lines).Err? ==> Run(lines) == Err(GradeMissing(BadHeader(lines).value))
  {
    if lines != [] {
      var prefix := lines[..|lines| - 1];
      RunUnfold(lines);
      RunFails(prefix);
      if Run(prefix).Ok? {
        StepFails(Run(prefix).value, lines[|lines| - 1]);
      }
    }
  }

  /** Line 201: a total grade line (no bullet, the total prefix). */
  predicate IsTotalLine(line: string)
  {
    !StartsWith(line, Bullet) && StartsWith(line, TotalPrefix)
  }

  /** Line 203: a letter grade line, checked after the total grade. */
  predicate IsLetterLine(line: string)
  {
    !StartsWith(line, Bullet) && !StartsWith(line, TotalPrefix) && StartsWith(line, LetterPrefix)
  }

  /** `line.split(':')[1].trim()` of a grade line. */
  function GradeValue(line: string): string
    requires IsTotalLine(line) || IsLetterLine(line)
  {
    if IsTotalLine(line) then PrefixColon(line, TotalPrefix); Trim(SecondPiece(line))
    else PrefixColon(line, LetterPrefix); Trim(SecondPiece(line))
  }

  /** Reference reading of the total grade: the value of the last total
      grade line, or the empty string when there is none. */
  function LastTotal(lines: seq<string>): string
  {
    if lines == [] then []
    else if IsTotalLine(CleanLine(lines[|lines| - 1])) then GradeValue(CleanLine(lines[|lines| - 1]))
    else LastTotal(lines[..|lines| - 1])
  }

  /** The same for the letter grade. */
  function LastLetter(lines: seq<string>): string
  {
    if lines == [] then []
    else if IsLetterLine(CleanLine(lines[|lines| - 1])) then GradeValue(CleanLine(lines[|lines| - 1]))
    else LastLetter(lines[..|lines| - 1])
  }

  /** A grade line overwrites its grade; no other line touches either. */
  lemma StepGrades(st: ParseState, raw: string)
    requires WellFormed(st) && Step(st, raw).Ok?
    ensures var line := CleanLine(raw);
      && Step(st, raw).value.totalGrade == (if IsTotalLine(line) then GradeValue(line) else st.totalGrade)
      && Step(st, raw).value.letterGrade == (if IsLetterLine(line) then GradeValue(line) else st.letterGrade)
  {
    var line := CleanLine(raw);
    DispatchOrder(line, st.current);
    if IsTotalLine(line) {
      TotalLineValue(line, st.current);
    } else if IsLetterLine(line) {
      LetterLineValue(line, st.current);
    }
  }

  /** Lines 201-204: the last total and letter grade lines win. */
  lemma {:induction false} RunGrades(lines: seq<string>)
    requires Run(lines).Ok?
    ensures Run(lines).value.totalGrade == LastTotal(lines)
    ensures Run(lines).value.letterGrade == LastLetter(lines)
  {
    if lines != [] {
      var prefix := lines[..|lines| - 1];
      RunLast(lines);
      RunGrades(prefix);
      StepGrades(Run(prefix).value, lines[|lines| - 1]);
    }
  }

  /** The title a reader of the lines sees as active: the last header's. */
  function ActiveTitle(lines: seq<string>): string
  {
    var titles := HeaderTitles(lines);
    if titles == [] then [] else titles[|titles| - 1]
  }

  /** The grade a header line seeds: the trimmed text between its first
      and second colons. */
  function HeaderGrade(line: string): string
    requires HeaderTitle(line).Some?
  {
    Trim(SecondPiece(line[1..]))
  }

  /** Line 205: a non-empty line that is no header and no grade line. */
  predicate IsDescription(line: string)
  {
    line != [] && !StartsWith(line, Bullet) && !StartsWith(line, TotalPrefix) && !StartsWith(line, LetterPrefix)
  }

  /** Reference reading of a section's grade: the grade of the last header
      with that title (a repeated title overwrites the earlier one). */
  function SeededGrade(lines: seq<string>, t: string): string
  {
    if lines == [] then []
    else
      var line := CleanLine(lines[|lines| - 1]);
      if HeaderTitle(line) == Some(t) then HeaderGrade(line) else SeededGrade(lines[..|lines| - 1], t)
  }

  /** Reference reading of a section's description lines: the description
      lines read while the title was active since its last header, in
      order. */
  function Appended(lines: seq<string>, t: string): seq<string>
  {
    if lines == [] then []
    else
      var prev := lines[..|lines| - 1];
      var line := CleanLine(lines[|lines| - 1]);
      if HeaderTitle(line) == Some(t) then []
      else if IsDescription(line) && ActiveTitle(prev) != [] && ActiveTitle(prev) == t then Appended(prev, t) + [line]
      else Appended(prev, t)
  }

  /** One line's effect on one section: its header resets it to the seeded
      grade, a description line read while it is active is appended to it,
      and every other line leaves it alone. */
  lemma StepSection(st: ParseState, raw: string, t: string)
    requires WellFormed(st) && Step(st, raw).Ok? && t in Step(st, raw).value.sections
    ensures var line := CleanLine(raw); var s' := Step(st, raw).value.sections[t];
      if HeaderTitle(line) == Some(t) then s' == Section(HeaderGrade(line), [])
      else
        (t in st.sections && s' ==
          if IsDescription(line) && st.current != [] && st.current == t
          then st.sections[t].(lines := st.sections[t].lines + [line])
          else st.sections[t])
  {
    var line := CleanLine(raw);
    var k := Classify(line, st.current);
    DispatchOrder(line, st.current);
    if StartsWith(line, Bullet) {
      HeaderFields(line, st.current);
    }
    assert Step(st, raw) == Ok(Apply(st, k));
  }

  /** Lines 199-200, 207 and 229-231: each section holds the grade its last
      header seeded and the description lines appended after it, in order. */
  lemma {:induction false} RunSection(lines: seq<string>, t: string)
    requires Run(lines).Ok? && t in Run(lines).value.sections
    ensures Run(lines).value.sections[t] == Section(SeededGrade(lines, t), Appended(lines, t))
  {
    var prefix := lines[..|lines| - 1];
    var line := CleanLine(lines[|lines| - 1]);
    RunSectionStep(lines, t);
    if HeaderTitle(line) == Some(t) {
      ReadingHeader(lines, t);
    } else {
      RunSection(prefix, t);
      RunCurrent(prefix);
      ReadingKept(lines, t);
      KeptStep(Run(prefix).value.sections[t], Run(lines).value.sections[t], SeededGrade(prefix, t),
               Appended(prefix, t), IsDescription(line), Run(prefix).value.current, ActiveTitle(prefix), t, line);
    }
  }

  /** The last line of a run read through `StepSection`. */
  lemma RunSectionStep(lines: seq<string>, t: string)
    requires Run(lines).Ok? && t in Run(lines).value.sections
    ensures lines != [] && Run(lines[..|lines| - 1]).Ok?
    ensures var line := CleanLine(lines[|lines| - 1]);
      var st := Run(lines[..|lines| - 1]).value; var s' := Run(lines).value.sections[t];
      if HeaderTitle(line) == Some(t) then s' == Section(HeaderGrade(line), [])
      else
        (t in st.sections && s' ==
          if IsDescription(line) && st.current != [] && st.current == t
          then st.sections[t].(lines := st.sections[t].lines + [line])
          else st.sections[t])
  {
    RunLast(lines);
    StepSection(Run(lines[..|lines| - 1]).value, lines[|lines| - 1], t);
  }

  /** A header of `t` seeds its grade and starts an empty description. */
  lemma ReadingHeader(lines: seq<string>, t: string)
    requires lines != [] && HeaderTitle(CleanLine(lines[|lines| - 1])) == Some(t)
    ensures var line := CleanLine(lines[|lines| - 1]);
      SeededGrade(lines, t) == HeaderGrade(line) && Appended(lines, t) == []
  {
  }

  /** Behind a line that is not a header of `t`, the seeded grade stays and
      the line is appended exactly when it describes the active title `t`. */
  lemma ReadingKept(lines: seq<string>, t: string)
    requires lines != [] && HeaderTitle(CleanLine(lines[|lines| - 1])) != Some(t)
    ensures var prefix := lines[..|lines| - 1]; var line := CleanLine(lines[|lines| - 1]);
      && SeededGrade(lines, t) == SeededGrade(prefix, t)
      && Appended(lines, t) ==
           if IsDescription(line) && ActiveTitle(prefix) != [] && ActiveTitle(prefix) == t
           then Appended(prefix, t) + [line] else Appended(prefix, t)
  {
  }

  lemma KeptStep(s: Section, s': Section, g: string, app: seq<string>, desc: bool,
                 cur: string, active: string, t: string, line: string)
    requires s == Section(g, app) && cur == active
    requires s' == if desc && cur != [] && cur == t then s.(lines := s.lines + [line]) else s
    ensures s' == Section(g, if desc && active != [] && active == t then app + [line] else app)
  {
  }

  /** The criteria the results card lists, position by position. */
  lemma {:induction false} EntriesAt(order: seq<string>, sections: map<string, Section>, i: nat)
    requires forall t :: t in order ==> t in sections
    requires i < |order|
    ensures Entries(order, sections)[i] ==
      CriterionEntry(order[i], sections[order[i]].grade, Join(sections[order[i]].lines, "\n"))
  {
    if i < |order| - 1 {
      var prefix := order[..|order| - 1];
      EntriesAt(prefix, sections, i);
    }
  }

  /** The titles of a list of criteria. */
  function Titles(criteria: seq<CriterionEntry>): (r: seq<string>)
    ensures |r| == |criteria|
  {
    if criteria == [] then [] else Titles(criteria[..|criteria| - 1]) + [criteria[|criteria| - 1].title]
  }

  lemma {:induction false} TitlesOfEntries(order: seq<string>, sections: map<string, Section>)
    requires forall t :: t in order ==> t in sections
    ensures Titles(Entries(order, sections)) == order
  {
    if order != [] {
      TitlesOfEntries(order[..|order| - 1], sections);
    }
  }

  /** Lines 184-231 end to end: the report's grades are the last grade
      lines, its overall feedback the last `Overall` line before the first
      header, its criteria the header titles in first-appearance order, and
      each criterion shows the grade its last header seeded and the lines
      appended after that header, joined by line breaks. */
  lemma ParseReport(text: string)
    requires Parse(text).Ok?
    ensures var lines := Split(text, "\n"); var r := Parse(text).value;
      && r.totalGrade == LastTotal(lines) && r.letterGrade == LastLetter(lines)
      && r.overallFeedback == LastOverall(lines)
      && InFirstAppearanceOrder(Titles(r.criteria), HeaderTitles(lines))
      && forall i :: 0 <= i < |r.criteria| ==>
           && r.criteria[i].grade == SeededGrade(lines, r.criteria[i].title)
           && r.criteria[i].description == Join(Appended(lines, r.criteria[i].title), "\n")
  {
    var lines := Split(text, "\n");
    var st := Run(lines).value;
    RunGrades(lines);
    RunOverall(lines);
    RunOrder(lines);
    TitlesOfEntries(st.order, st.sections);
    var criteria := Entries(st.order, st.sections);
    forall i | 0 <= i < |criteria|
      ensures criteria[i].grade == SeededGrade(lines, criteria[i].title)
      ensures criteria[i].description == Join(Appended(lines, criteria[i].title), "\n")
    {
      EntriesAt(st.order, st.sections, i);
      RunSection(lines, st.order[i]);
    }
  }

  /** The parse fails exactly when a bullet header has no colon, with the
      first such line. */
  lemma ParseFails(text: string)
    ensures Parse(text).Err? <==> BadHeader(Split(text, "\n")).Some?
    ensures Parse(text).Err? ==> Parse(text) == Err(GradeMissing(BadHeader(Split(text, "\n")).value))
  {
    RunFails(Split(text, "\n"));
  }

  /** Joining clean lines and cutting at line breaks again gives clean
      lines. */
  lemma JoinedLinesClean(ls: seq<string>)
    requires forall k :: 0 <= k < |ls| ==> IsClean(ls[k])
    ensures forall j :: 0 <= j < |Split(Join(ls, "\n"), "\n")| ==> IsClean(Split(Join(ls, "\n"), "\n")[j])
  {
    if ls == [] {
      assert Split([], "\n") == [[]];
    } else {
      SplitJoin(ls, '\n');
    }
  }

  /** Line 194 for the whole report: no grade, title or feedback holds an
      asterisk or surrounding whitespace, and neither does any line of a
      description. */
  lemma ParseClean(text: string)
    requires Parse(text).Ok?
    ensures var r := Parse(text).value;
      && IsClean(r.totalGrade) && IsClean(r.letterGrade) && IsClean(r.overallFeedback)
      && forall i :: 0 <= i < |r.criteria| ==>
           && IsClean(r.criteria[i].title) && IsClean(r.criteria[i].grade)
           && forall j :: 0 <= j < |Split(r.criteria[i].description, "\n")| ==>
                IsClean(Split(r.criteria[i].description, "\n")[j])
  {
    var lines := Split(text, "\n");
    SplitPiecesFree(text, "\n");
    forall i | 0 <= i < |lines| ensures '\n' !in lines[i] {
      FindChar(lines[i], '\n');
    }
    RunClean(lines);
    var st := Run(lines).value;
    assert Parse(text).value.criteria == Entries(st.order, st.sections);
    EntriesClean(st);
  }

  /** The criteria listed from a clean state are clean, line by line. */
  lemma EntriesClean(st: ParseState)
    requires WellFormed(st) && CleanState(st)
    ensures var criteria := Entries(st.order, st.sections);
      forall i :: 0 <= i < |criteria| ==>
        && IsClean(criteria[i].title) && IsClean(criteria[i].grade)
        && forall j :: 0 <= j < |Split(criteria[i].description, "\n")| ==>
             IsClean(Split(criteria[i].description, "\n")[j])
  {
    var criteria := Entries(st.order, st.sections);
    forall i | 0 <= i < |criteria|
      ensures IsClean(criteria[i].title) && IsClean(criteria[i].grade)
      ensures forall j :: 0 <= j < |Split(criteria[i].description, "\n")| ==>
                IsClean(Split(criteria[i].description, "\n")[j])
    {
      EntriesAt(st.order, st.sections, i);
      var sec := st.sections[st.order[i]];
      JoinedLinesClean(sec.lines);
    }
  }
}

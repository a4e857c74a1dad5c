/** The line-oriented pass of `renderResult` that turns one feedback text
    into a grade summary and an ordered list of criteria
    (client/src/pages/assignment.tsx, lines 184-211 and 229-231). */
module ReportParser {
  import opened Results
  import opened Text
  import opened Keys

  /** The bullet test of line 196 compares against the three characters
      U+00E2 U+20AC U+00A2 (the UTF-8 bytes of a bullet read as
      Windows-1252), while `substring(1)` drops only the first of them. */
  const Bullet: string := ['\U{00E2}', '\U{20AC}', '\U{00A2}']
  const TotalPrefix: string := "Total Percentage Grade:"
  const LetterPrefix: string := "Letter Grade:"
  const OverallPrefix: string := "Overall"

  /** A text the view shows: no asterisk, no surrounding whitespace, a single line. */
  predicate IsClean(s: string)
  {
    '*' !in s && IsTrimmed(s) && '\n' !in s
  }

  /** Line 194: every asterisk removed, then trimmed. */
  function CleanLine(raw: string): (line: string)
    ensures '*' !in line && IsTrimmed(line)
    ensures '\n' !in raw ==> IsClean(line)
  {
    var stripped := RemoveAll(raw, '*');
    RemoveAllKeeps(raw, '*');
    TrimKeeps(stripped);
    Trim(stripped)
  }

  /** What the branch chain of lines 196-210 does with one cleaned line. */
  datatype LineKind =
    | SectionHeader(title: string, grade: string)
    | HeaderWithoutGrade
    | TotalGradeLine(value: string)
    | LetterGradeLine(value: string)
    | DescriptionLine(text: string)
    | OverallLine(text: string)
    | Ignored

  /** `line.split(':')[1]` for a line known to hold a colon. */
  function SecondPiece(line: string): (r: string)
    requires ':' in line
    ensures var i := IndexOfChar(line, ':').value; var after := line[i + 1..];
      r == if ':' in after then after[..IndexOfChar(after, ':').value] else after
  {
    FindChar(line, ':');
    var i := IndexOfChar(line, ':').value;
    var after := line[i + 1..];
    FindChar(after, ':');
    assert Split(line, ":") == [line[..i]] + Split(after, ":");
    Split(line, ":")[1]
  }

  /** Lines 196-210: the branch the line takes. */
  function Classify(line: string, current: string): (k: LineKind)
    ensures k.DescriptionLine? ==> current != [] && k.text == line
    ensures k.OverallLine? ==> current == [] && k.text == line
  {
    if StartsWith(line, Bullet) then
      var pieces := Split(line[1..], ":");
      if |pieces| < 2 then HeaderWithoutGrade
      else SectionHeader(Trim(pieces[0]), Trim(pieces[1]))
    else if StartsWith(line, TotalPrefix) then
      PrefixColon(line, TotalPrefix);
      TotalGradeLine(Trim(SecondPiece(line)))
    else if StartsWith(line, LetterPrefix) then
      PrefixColon(line, LetterPrefix);
      LetterGradeLine(Trim(SecondPiece(line)))
    else if line != [] && current != [] then DescriptionLine(line)
    else if StartsWith(line, OverallPrefix) then OverallLine(line)
    else Ignored
  }

  /** The tests are tried in this order: bullet header, total grade, letter
      grade, description of the active section (a non-empty line while a
      section title is set), overall feedback. */
  lemma DispatchOrder(line: string, current: string)
    ensures var k := Classify(line, current);
      && ((k.SectionHeader? || k.HeaderWithoutGrade?) <==> StartsWith(line, Bullet))
      && (k.TotalGradeLine? <==> !StartsWith(line, Bullet) && StartsWith(line, TotalPrefix))
      && (k.LetterGradeLine? <==>
            !StartsWith(line, Bullet) && !StartsWith(line, TotalPrefix) && StartsWith(line, LetterPrefix))
      && (k.DescriptionLine? <==>
            !StartsWith(line, Bullet) && !StartsWith(line, TotalPrefix) && !StartsWith(line, LetterPrefix)
            && line != [] && current != [])
      && (k.OverallLine? <==>
            !StartsWith(line, Bullet) && !StartsWith(line, TotalPrefix) && !StartsWith(line, LetterPrefix)
            && !(line != [] && current != []) && StartsWith(line, OverallPrefix))
  {
  }

  /** The error the client hits when a header has no colon: `grade` is
      `undefined` and `grade.trim()` throws. */
  datatype ParseError = GradeMissing(line: string)

  /** A section as the pass builds it: the grade its header seeded and the
      description lines appended after it, in order. */
  datatype Section = Section(grade: string, lines: seq<string>)

  /** The variables of the pass: the `sections` object (keys in insertion
      order), `currentSection`, `totalGrade`, `letterGrade` and
      `overallFeedback`. */
  datatype ParseState = ParseState(
    order: seq<string>,
    sections: map<string, Section>,
    current: string,
    totalGrade: string,
    letterGrade: string,
    overallFeedback: string)

  ghost predicate WellFormed(st: ParseState)
  {
    && NoDup(st.order)
    && (forall t :: t in st.sections <==> t in st.order)
    && (st.current != [] ==> st.current in st.sections)
  }

  const Initial: ParseState := ParseState([], map[], [], [], [], [])

  /** What a classified line does to the variables of the pass (lines
      199-210): a header assigns its key and makes it active, a grade line
      or an overall line overwrites its variable, a description line is
      appended to the active section. */
  function Apply(st: ParseState, k: LineKind): (r: ParseState)
    requires WellFormed(st) && !k.HeaderWithoutGrade?
    requires k.DescriptionLine? ==> st.current != []
    ensures WellFormed(r)
  {
    match k
    case SectionHeader(t, g) =>
      st.(order := Insert(st.order, t), sections := st.sections[t := Section(g, [])], current := t)
    case TotalGradeLine(v) => st.(totalGrade := v)
    case LetterGradeLine(v) => st.(letterGrade := v)
    case DescriptionLine(l) =>
      var s := st.sections[st.current];
      st.(sections := st.sections[st.current := s.(lines := s.lines + [l])])
    case OverallLine(l) => st.(overallFeedback := l)
    case Ignored => st
  }

  /** One iteration of the `forEach` of line 192: clean, classify, apply;
      a header without a colon throws. */
  function Step(st: ParseState, raw: string): (r: Result<ParseState, ParseError>)
    requires WellFormed(st)
    ensures r.Ok? ==> WellFormed(r.value)
  {
    var line := CleanLine(raw);
    var k := Classify(line, st.current);
    if k.HeaderWithoutGrade? then Err(GradeMissing(line)) else Ok(Apply(st, k))
  }

  /** The pass over the first lines, stopped by the first error. */
  function Run(lines: seq<string>): (r: Result<ParseState, ParseError>)
    ensures r.Ok? ==> WellFormed(r.value)
  {
    if lines == [] then Ok(Initial)
    else match Run(lines[..|lines| - 1])
      case Err(e) => Err(e)
      case Ok(st) => Step(st, lines[|lines| - 1])
  }

  /** One criterion as the results card shows it. */
  datatype CriterionEntry = CriterionEntry(title: string, grade: string, description: string)

  /** Everything the results card shows for one submission. */
  datatype Report = Report(
    totalGrade: string,
    letterGrade: string,
    criteria: seq<CriterionEntry>,
    overallFeedback: string)

  /** Lines 229-231 on the abstract sections: the grade is the seeded grade
      and the description the appended lines joined by line breaks. */
  function Entries(order: seq<string>, sections: map<string, Section>): (r: seq<CriterionEntry>)
    requires forall t :: t in order ==> t in sections
    ensures |r| == |order|
    ensures forall i :: 0 <= i < |r| ==> r[i].title == order[i]
  {
    if order == [] then []
    else
      var t := order[|order| - 1];
      Entries(order[..|order| - 1], sections)
        + [CriterionEntry(t, sections[t].grade, Join(sections[t].lines, "\n"))]
  }

  /** The parse of a whole feedback text: every criterion title is listed
      once, as the keys of an object are. */
  function Parse(text: string): (r: Result<Report, ParseError>)
    ensures r.Ok? ==> forall i, j :: 0 <= i < j < |r.value.criteria| ==> r.value.criteria[i].title != r.value.criteria[j].title
  {
    match Run(Split(text, "\n"))
    case Err(e) => Err(e)
    case Ok(st) =>
      var es := Entries(st.order, st.sections);
      assert forall i :: 0 <= i < |es| ==> es[i].title == st.order[i];
      Ok(Report(st.totalGrade, st.letterGrade, es, st.overallFeedback))
  }

  /** The text a section's key holds in the `sections` object: the seeded
      grade followed by each appended line after a line break. */
  function Content(s: Section): string
  {
    Join([s.grade] + s.lines, "\n")
  }

  /** The local variables of the pass agree with the abstract state. */
  ghost predicate Mirrors(st: ParseState, order: seq<string>, sections: map<string, string>,
                          current: string, totalGrade: string, letterGrade: string, overallFeedback: string)
  {
    && order == st.order && current == st.current
    && totalGrade == st.totalGrade && letterGrade == st.letterGrade
    && overallFeedback == st.overallFeedback
    && sections.Keys == st.sections.Keys
    && (forall t :: t in sections ==> sections[t] == Content(st.sections[t]))
  }

  /** No field of the state holds an asterisk, surrounding whitespace or a
      line break. */
  ghost predicate CleanState(st: ParseState)
  {
    && IsClean(st.totalGrade) && IsClean(st.letterGrade) && IsClean(st.overallFeedback)
    && (forall t :: t in st.sections ==> IsClean(t))
    && (forall t :: t in st.sections ==> IsClean(st.sections[t].grade))
    && (forall t, i :: t in st.sections && 0 <= i < |st.sections[t].lines| ==> IsClean(st.sections[t].lines[i]))
  }

  /** Trimming any run of a clean line's characters gives a clean text. */
  lemma PieceClean(piece: string, line: string)
    requires IsClean(line) && CharsWithin(piece, line)
    ensures IsClean(Trim(piece))
  {
    TrimKeeps(piece);
  }

  /** A header's title and grade are pieces of a clean line, so clean. */
  lemma HeaderClean(line: string, current: string)
    requires IsClean(line) && StartsWith(line, Bullet)
    requires Classify(line, current).SectionHeader?
    ensures IsClean(Classify(line, current).title) && IsClean(Classify(line, current).grade)
  {
    var rest := line[1..];
    var pieces := Split(rest, ":");
    SplitPiecesWithin(rest, ":");
    assert CharsWithin(pieces[0], rest) && CharsWithin(pieces[1], rest);
    assert CharsWithin(rest, line);
    PieceClean(pieces[0], line);
    PieceClean(pieces[1], line);
  }

  lemma GradeLineClean(line: string)
    requires IsClean(line) && ':' in line
    ensures IsClean(Trim(SecondPiece(line)))
  {
    var i := IndexOfChar(line, ':').value;
    var after := line[i + 1..];
    assert CharsWithin(after, line);
    PieceClean(SecondPiece(line), line);
  }

  lemma HeaderKeepsClean(st: ParseState, t: string, g: string)
    requires CleanState(st) && IsClean(t) && IsClean(g)
    ensures CleanState(st.(order := Insert(st.order, t), sections := st.sections[t := Section(g, [])], current := t))
  {
  }

  lemma DescriptionKeepsClean(st: ParseState, l: string)
    requires CleanState(st) && st.current in st.sections && IsClean(l)
    ensures var s := st.sections[st.current];
      CleanState(st.(sections := st.sections[st.current := s.(lines := s.lines + [l])]))
  {
    var s := st.sections[st.current];
    var m := st.sections[st.current := s.(lines := s.lines + [l])];
    forall t, i | t in m && 0 <= i < |m[t].lines| ensures IsClean(m[t].lines[i]) {
      if t != st.current || i < |s.lines| {
        assert m[t].lines[i] == st.sections[t].lines[i];
      }
    }
  }

  lemma StepClean(st: ParseState, raw: string)
    requires WellFormed(st) && CleanState(st) && '\n' !in raw
    requires Step(st, raw).Ok?
    ensures CleanState(Step(st, raw).value)
  {
    var line := CleanLine(raw);
    var k := Classify(line, st.current);
    if k.SectionHeader? {
      HeaderStepClean(st, raw);
    } else if k.TotalGradeLine? || k.LetterGradeLine? {
      GradeStepClean(st, raw);
    } else if k.DescriptionLine? {
      DescriptionKeepsClean(st, line);
    }
  }

  lemma HeaderStepClean(st: ParseState, raw: string)
    requires WellFormed(st) && CleanState(st) && '\n' !in raw
    requires Classify(CleanLine(raw), st.current).SectionHeader?
    ensures Step(st, raw).Ok? && CleanState(Step(st, raw).value)
  {
    var line := CleanLine(raw);
    DispatchOrder(line, st.current);
    HeaderClean(line, st.current);
    var k := Classify(line, st.current);
    HeaderKeepsClean(st, k.title, k.grade);
  }

  lemma GradeStepClean(st: ParseState, raw: string)
    requires WellFormed(st) && CleanState(st) && '\n' !in raw
    requires Classify(CleanLine(raw), st.current).TotalGradeLine? || Classify(CleanLine(raw), st.current).LetterGradeLine?
    ensures Step(st, raw).Ok? && CleanState(Step(st, raw).value)
  {
    var line := CleanLine(raw);
    if !StartsWith(line, Bullet) && StartsWith(line, TotalPrefix) {
      TotalStepClean(st, raw);
    } else {
      LetterStepClean(st, raw);
    }
  }

  lemma TotalStepClean(st: ParseState, raw: string)
    requires WellFormed(st) && CleanState(st) && '\n' !in raw
    requires !StartsWith(CleanLine(raw), Bullet) && StartsWith(CleanLine(raw), TotalPrefix)
    ensures Step(st, raw).Ok? && CleanState(Step(st, raw).value)
  {
    var line := CleanLine(raw);
    TotalLineValue(line, st.current);
    var v := Trim(SecondPiece(line));
    GradeLineClean(line);
    StepApplies(st, raw, TotalGradeLine(v));
    assert Apply(st, TotalGradeLine(v)) == st.(totalGrade := v);
    GradeKeepsClean(st, v);
  }

  lemma LetterStepClean(st: ParseState, raw: string)
    requires WellFormed(st) && CleanState(st) && '\n' !in raw
    requires !StartsWith(CleanLine(raw), Bullet) && !StartsWith(CleanLine(raw), TotalPrefix)
    requires StartsWith(CleanLine(raw), LetterPrefix)
    ensures Step(st, raw).Ok? && CleanState(Step(st, raw).value)
  {
    var line := CleanLine(raw);
    LetterLineValue(line, st.current);
    var v := Trim(SecondPiece(line));
    GradeLineClean(line);
    StepApplies(st, raw, LetterGradeLine(v));
    assert Apply(st, LetterGradeLine(v)) == st.(letterGrade := v);
    GradeKeepsClean(st, v);
  }

  /** The step of a line the pass does not reject applies its kind. */
  lemma StepApplies(st: ParseState, raw: string, k: LineKind)
    requires WellFormed(st) && k == Classify(CleanLine(raw), st.current) && !k.HeaderWithoutGrade?
    ensures Step(st, raw) == Ok(Apply(st, k))
  {
  }

  lemma GradeKeepsClean(st: ParseState, v: string)
    requires CleanState(st) && IsClean(v)
    ensures CleanState(st.(totalGrade := v)) && CleanState(st.(letterGrade := v))
  {
  }

  lemma PrefixColon(line: string, prefix: string)
    requires |prefix| > 0 && prefix[|prefix| - 1] == ':' && StartsWith(line, prefix)
    ensures ':' in line
  {
    assert line[|prefix| - 1] == prefix[|prefix| - 1];
  }

  /** Piece 1 of the colon split, trimmed, is a total grade line's value. */
  lemma TotalLineValue(line: string, current: string)
    requires !StartsWith(line, Bullet) && StartsWith(line, TotalPrefix)
    ensures ':' in line && Classify(line, current) == TotalGradeLine(Trim(SecondPiece(line)))
  {
    PrefixColon(line, TotalPrefix);
  }

  /** Piece 1 of the colon split, trimmed, is a letter grade line's value. */
  lemma LetterLineValue(line: string, current: string)
    requires !StartsWith(line, Bullet) && !StartsWith(line, TotalPrefix) && StartsWith(line, LetterPrefix)
    ensures ':' in line && Classify(line, current) == LetterGradeLine(Trim(SecondPiece(line)))
  {
    PrefixColon(line, LetterPrefix);
  }

  /** Every line is cleaned before it is dispatched, so nothing the pass
      stores holds an asterisk or surrounding whitespace. */
  lemma {:induction false} RunClean(lines: seq<string>)
    requires forall i :: 0 <= i < |lines| ==> '\n' !in lines[i]
    requires Run(lines).Ok?
    ensures CleanState(Run(lines).value)
  {
    if lines != [] {
      var prefix := lines[..|lines| - 1];
      RunClean(prefix);
      StepClean(Run(prefix).value, lines[|lines| - 1]);
    }
  }

  /** Lines 229-231: a section's text split at its first line break into
      the grade shown beside the title and the description under it. */
  function SectionView(title: string, content: string): (e: CriterionEntry)
    ensures e.title == title
    ensures '\n' !in e.grade
    ensures '\n' in content ==> content == e.grade + "\n" + e.description
    ensures '\n' !in content ==> e.grade == content && e.description == []
  {
    var parts := Split(content, "\n");
    SplitPiecesFree(content, "\n");
    FindChar(parts[0], '\n');
    FindChar(content, '\n');
    JoinSplit(content, "\n");
    assert |parts| >= 2 ==> parts == [parts[0]] + parts[1..];
    CriterionEntry(title, parts[0], Join(parts[1..], "\n"))
  }

  lemma ContentAppend(s: Section, l: string)
    ensures Content(s.(lines := s.lines + [l])) == Content(s) + "\n" + l
  {
    assert [s.grade] + (s.lines + [l]) == ([s.grade] + s.lines) + [l];
    JoinAppend([s.grade] + s.lines, "\n", l);
  }

  /** Splitting a section's text gives back its seeded grade and its
      appended lines, joined by line breaks. */
  lemma {:induction false} ViewOfContent(title: string, s: Section)
    requires '\n' !in s.grade
    requires forall i :: 0 <= i < |s.lines| ==> '\n' !in s.lines[i]
    ensures SectionView(title, Content(s)) == CriterionEntry(title, s.grade, Join(s.lines, "\n"))
  {
    var parts := [s.grade] + s.lines;
    forall i | 0 <= i < |parts| ensures '\n' !in parts[i] {
      if i > 0 { assert parts[i] == s.lines[i - 1]; }
    }
    SplitJoin(parts, '\n');
    assert parts[1..] == s.lines;
  }

  /** Once the pass fails it stays failed. */
  lemma {:induction false} RunErrSticks(lines: seq<string>, k: nat)
    requires k <= |lines| && Run(lines[..k]).Err?
    ensures Run(lines) == Run(lines[..k])
    decreases |lines| - k
  {
    if k < |lines| {
      var prefix := lines[..|lines| - 1];
      assert prefix[..k] == lines[..k];
      RunErrSticks(prefix, k);
    } else {
      assert lines[..k] == lines;
    }
  }

  lemma RunExtend(lines: seq<string>, i: nat)
    requires i < |lines| && Run(lines[..i]).Ok?
    ensures Run(lines[..i + 1]) == Step(Run(lines[..i]).value, lines[i])
  {
    assert lines[..i + 1][..i] == lines[..i];
  }

  lemma EntriesExtend(order: seq<string>, sections: map<string, Section>, j: nat)
    requires j < |order| && forall t :: t in order ==> t in sections
    ensures Entries(order[..j + 1], sections) == Entries(order[..j], sections)
      + [CriterionEntry(order[j], sections[order[j]].grade, Join(sections[order[j]].lines, "\n"))]
  {
    assert order[..j + 1][..j] == order[..j];
  }

  lemma HeaderMirrors(st: ParseState, raw: string, order: seq<string>, sections: map<string, string>,
                      current: string, totalGrade: string, letterGrade: string, overallFeedback: string)
    requires WellFormed(st)
    requires Mirrors(st, order, sections, current, totalGrade, letterGrade, overallFeedback)
    requires Classify(CleanLine(raw), current).SectionHeader?
    ensures var k := Classify(CleanLine(raw), current);
      Step(st, raw).Ok? &&
      Mirrors(Step(st, raw).value, if k.title !in sections then order + [k.title] else order,
              sections[k.title := k.grade], k.title, totalGrade, letterGrade, overallFeedback)
  {
    var k := Classify(CleanLine(raw), current);
    HeaderStep(st, raw);
    HeaderKeepsMirrors(st, k.title, k.grade, order, sections, totalGrade, letterGrade, overallFeedback);
  }

  /** A header's update of the state, mirrored on the local variables. */
  lemma HeaderKeepsMirrors(st: ParseState, t: string, g: string, order: seq<string>, sections: map<string, string>,
                           totalGrade: string, letterGrade: string, overallFeedback: string)
    requires WellFormed(st)
    requires Mirrors(st, order, sections, st.current, totalGrade, letterGrade, overallFeedback)
    ensures Mirrors(st.(order := Insert(st.order, t), sections := st.sections[t := Section(g, [])], current := t),
                    if t !in sections then order + [t] else order,
                    sections[t := g], t, totalGrade, letterGrade, overallFeedback)
  {
    var st' := st.(order := Insert(st.order, t), sections := st.sections[t := Section(g, [])], current := t);
    assert Content(Section(g, [])) == g;
    assert t in sections <==> t in st.order;
    assert st'.sections.Keys == sections[t := g].Keys;
    forall u | u in sections[t := g]
      ensures sections[t := g][u] == Content(st'.sections[u])
    {
    }
  }

  lemma HeaderStep(st: ParseState, raw: string)
    requires WellFormed(st)
    requires Classify(CleanLine(raw), st.current).SectionHeader?
    ensures var k := Classify(CleanLine(raw), st.current);
      Step(st, raw) == Ok(st.(order := Insert(st.order, k.title),
                              sections := st.sections[k.title := Section(k.grade, [])], current := k.title))
  {
  }

  lemma DescriptionMirrors(st: ParseState, raw: string, order: seq<string>, sections: map<string, string>,
                           current: string, totalGrade: string, letterGrade: string, overallFeedback: string)
    requires WellFormed(st)
    requires Mirrors(st, order, sections, current, totalGrade, letterGrade, overallFeedback)
    requires Classify(CleanLine(raw), current).DescriptionLine?
    ensures var l := Classify(CleanLine(raw), current).text;
      current in sections && Step(st, raw).Ok? &&
      Mirrors(Step(st, raw).value, order, sections[current := sections[current] + "\n" + l],
              current, totalGrade, letterGrade, overallFeedback)
  {
    var l := Classify(CleanLine(raw), current).text;
    DescriptionStep(st, raw);
    DescriptionKeepsMirrors(st, l, order, sections, totalGrade, letterGrade, overallFeedback);
  }

  lemma DescriptionStep(st: ParseState, raw: string)
    requires WellFormed(st)
    requires Classify(CleanLine(raw), st.current).DescriptionLine?
    ensures var l := Classify(CleanLine(raw), st.current).text; var s := st.sections[st.current];
      Step(st, raw) == Ok(st.(sections := st.sections[st.current := s.(lines := s.lines + [l])]))
  {
  }

  /** A description line's update of the state, mirrored on the local
      variables. */
  lemma DescriptionKeepsMirrors(st: ParseState, l: string, order: seq<string>, sections: map<string, string>,
                                totalGrade: string, letterGrade: string, overallFeedback: string)
    requires WellFormed(st) && st.current != []
    requires Mirrors(st, order, sections, st.current, totalGrade, letterGrade, overallFeedback)
    ensures var s := st.sections[st.current];
      && st.current in sections
      && Mirrors(st.(sections := st.sections[st.current := s.(lines := s.lines + [l])]), order,
                 sections[st.current := sections[st.current] + "\n" + l],
                 st.current, totalGrade, letterGrade, overallFeedback)
  {
    ContentAppend(st.sections[st.current], l);
  }

  lemma SummaryMirrors(st: ParseState, raw: string, order: seq<string>, sections: map<string, string>,
                       current: string, totalGrade: string, letterGrade: string, overallFeedback: string)
    requires WellFormed(st)
    requires Mirrors(st, order, sections, current, totalGrade, letterGrade, overallFeedback)
    requires var k := Classify(CleanLine(raw), current);
      k.TotalGradeLine? || k.LetterGradeLine? || k.OverallLine? || k.Ignored?
    ensures var k := Classify(CleanLine(raw), current);
      Step(st, raw).Ok? &&
      Mirrors(Step(st, raw).value, order, sections, current,
              if k.TotalGradeLine? then k.value else totalGrade,
              if k.LetterGradeLine? then k.value else letterGrade,
              if k.OverallLine? then k.text else overallFeedback)
  {
  }

  lemma HeaderErr(st: ParseState, raw: string)
    requires WellFormed(st)
    requires Classify(CleanLine(raw), st.current).HeaderWithoutGrade?
    ensures Step(st, raw) == Err(GradeMissing(CleanLine(raw)))
  {
  }

  /** Lines 193-210: the body of the `forEach` callback, updating the
      pass's variables for one raw line; `err` is the exception a header
      without a colon throws. */
  method ApplyLine(ghost st: ParseState, raw: string, order: seq<string>, sections: map<string, string>,
                   current: string, totalGrade: string, letterGrade: string, overallFeedback: string)
    returns (err: Option<ParseError>, order': seq<string>, sections': map<string, string>, current': string,
             totalGrade': string, letterGrade': string, overallFeedback': string)
    requires WellFormed(st)
    requires Mirrors(st, order, sections, current, totalGrade, letterGrade, overallFeedback)
    ensures err.Some? <==> Step(st, raw).Err?
    ensures err.Some? ==> Step(st, raw) == Err(err.value)
    ensures err.None? ==> Mirrors(Step(st, raw).value, order', sections', current', totalGrade', letterGrade', overallFeedback')
  {
    order', sections', current' := order, sections, current;
    totalGrade', letterGrade', overallFeedback' := totalGrade, letterGrade, overallFeedback;
    err := None;
    var line := CleanLine(raw);
    var k := Classify(line, current);
    if k.SectionHeader? {
      HeaderMirrors(st, raw, order, sections, current, totalGrade, letterGrade, overallFeedback);
      current' := k.title;
      if k.title !in sections {
        order' := order + [k.title];
      }
      sections' := sections[k.title := k.grade];
    } else if k.HeaderWithoutGrade? {
      HeaderErr(st, raw);
      err := Some(GradeMissing(line));
    } else if k.DescriptionLine? {
      DescriptionMirrors(st, raw, order, sections, current, totalGrade, letterGrade, overallFeedback);
      sections' := sections[current := sections[current] + "\n" + k.text];
    } else {
      SummaryMirrors(st, raw, order, sections, current, totalGrade, letterGrade, overallFeedback);
      if k.TotalGradeLine? {
        totalGrade' := k.value;
      } else if k.LetterGradeLine? {
        letterGrade' := k.value;
      } else if k.OverallLine? {
        overallFeedback' := k.text;
      }
    }
  }

  /** Lines 190-211: the pass over the lines, filling the insertion-ordered
      `sections` object (held as its key order and a map of content strings)
      and the summary variables, stopped by the first exception. */
  method CollectSections(lines: seq<string>)
    returns (err: Option<ParseError>, order: seq<string>, sections: map<string, string>, current: string,
             totalGrade: string, letterGrade: string, overallFeedback: string)
    ensures err.Some? <==> Run(lines).Err?
    ensures err.Some? ==> Run(lines) == Err(err.value)
    ensures err.None? ==> Mirrors(Run(lines).value, order, sections, current, totalGrade, letterGrade, overallFeedback)
  {
    order, sections, current := [], map[], [];
    totalGrade, letterGrade, overallFeedback := [], [], [];
    var i := 0;
    while i < |lines|
      invariant 0 <= i <= |lines|
      invariant Run(lines[..i]).Ok?
      invariant Mirrors(Run(lines[..i]).value, order, sections, current, totalGrade, letterGrade, overallFeedback)
    {
      ghost var st := Run(lines[..i]).value;
      RunExtend(lines, i);
      err, order, sections, current, totalGrade, letterGrade, overallFeedback :=
        ApplyLine(st, lines[i], order, sections, current, totalGrade, letterGrade, overallFeedback);
      if err.Some? {
        RunErrSticks(lines, i + 1);
        return;
      }
      i := i + 1;
    }
    assert lines[..i] == lines;
    err := None;
  }

  /** Lines 184-231: the parse the results card runs on the active tab's
      text: the pass above, then one split per section in insertion order. */
  method RenderResult(text: string) returns (r: Result<Report, ParseError>)
    ensures r == Parse(text)
  {
    var lines := Split(text, "\n");
    var err, order, sections, current, totalGrade, letterGrade, overallFeedback := CollectSections(lines);
    if err.Some? {
      return Err(err.value);
    }
    ghost var st := Run(lines).value;
    SplitPiecesFree(text, "\n");
    forall i | 0 <= i < |lines| ensures '\n' !in lines[i] {
      FindChar(lines[i], '\n');
    }
    RunClean(lines);
    var criteria := ViewSections(st, order, sections);
    r := Ok(Report(totalGrade, letterGrade, criteria, overallFeedback));
    assert Parse(text) == Ok(Report(st.totalGrade, st.letterGrade, Entries(st.order, st.sections), st.overallFeedback));
  }

  /** Lines 229-231: each key of `sections`, in insertion order, split into
      its grade and its description. */
  method ViewSections(ghost st: ParseState, order: seq<string>, sections: map<string, string>)
    returns (criteria: seq<CriterionEntry>)
    requires WellFormed(st) && CleanState(st)
    requires order == st.order && sections.Keys == st.sections.Keys
    requires forall t :: t in sections ==> sections[t] == Content(st.sections[t])
    ensures criteria == Entries(order, st.sections)
  {
    criteria := [];
    var j := 0;
    while j < |order|
      invariant 0 <= j <= |order|
      invariant criteria == Entries(order[..j], st.sections)
    {
      EntriesExtend(order, st.sections, j);
      ViewOfContent(order[j], st.sections[order[j]]);
      criteria := criteria + [SectionView(order[j], sections[order[j]])];
      j := j + 1;
    }
    assert order[..j] == order;
  }
}

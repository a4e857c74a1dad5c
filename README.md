# Gradify client core in Dafny

This project models the logic in the Gradify grading client that turns the
grading server's free-text reply into what the user sees. It has three parts.

- **The report pipeline of the assignment page** (`client/src/pages/assignment.tsx`):
  - The multi-file splitter cuts one reply into one `{fileName, content}` per uploaded PDF.
  - The line pass of `renderResult` turns one feedback text into a total grade, a letter grade, an overall remark and an insertion-ordered list of criteria. Each criterion has a grade and a description.
  - `handleSubmit` validates the form, chooses the grading request, and processes the reply. It updates the page's state slots.
- **The criterion aggregation of the bar chart** (`client/src/components/graphs.tsx`). This is a reduce that files every `{criteria, scored, total}` item under a normalised label. The chart shows per-label means and a y axis reaching 110% of the largest mean maximum.
- **The criterion aggregation of the pie charts** (`client/src/components/charts.tsx`). This is the same reduce, verbatim. Each label gets one pie, split into the summed score and the rest of the summed maximum.

Modules:

- `Results`: Option and Result.
- `Text`: the JavaScript string operations used: `trim`, `replace`, `split`, `substring`, `startsWith` and `join`.
- `Keys`: insertion-ordered object keys.
- `Splitter`: the multi-file splitter.
- `ReportParser`: the line pass as the source runs it, and its reference semantics.
- `ReportProperties`: what the pass promises, proved against definitions that read each line on its own.
- `Criteria`: the shared reduce, both as a fold and as the in-place loop.
- `Graphs` and `Charts`: the two consumers of the reduce.
- `Samples`: worked examples.
- `AssignmentPage`: the page state as a class, with `HandleSubmit`.

Design choices:

- **Imperative code stays imperative.**
  - The `forEach` of `renderResult` is `ReportParser.CollectSections`. It is a loop over the lines that updates the same local variables as the source: the key order, the content strings, the current title and the three summary strings. It is proved equal to the functional pass `Run`.
  - The in-place reduce is `Criteria.Aggregate`. It bumps the accumulator's fields one by one and is proved equal to the fold `Criteria.Fold`.
- **The page's state slots are fields of the class `AssignmentPage.Page`.**
  - The grading reply and the visualisation reply are parameters of `HandleSubmit`.
  - The random plagiarism figure is a nondeterministic choice in [0, 34].
- **Scores are `real`.** They are taken as already parsed.

Behaviour of the code that is easy to misread, as the model states it:

- **The text before the first `Response for ` is not discarded.** It becomes one more segment. It survives whenever its first line names an uploaded PDF (`Splitter.PreambleKept`).
- **The label normalisation removes the first colon, wherever it is.** `replace(':', '')` on a string pattern is not a trailing-colon strip: it removes the first colon, which is the trailing one only when the label has no other colon (`Samples.TrailingColonDropped`). `Criteria.NormalizeKeepsSecondColon` shows that a second colon survives.
- **The header split cuts at every colon and keeps pieces 0 and 1.** So a grade ends at the second colon; the split is not "once on the first colon".
- **An `Overall` line counts only while no section is active.** The description branch comes first. Every title keeps the two trailing characters of the three-character bullet test, so a title is never empty. So only an `Overall` line before the first header is captured (`RunOverall`). After a header, an `Overall` line is appended to the active section's description.
- **A header without a colon makes the pass fail** (`ParseFails`). It is not a silent default.
- **The bullet test compares against the three characters `â€¢`.** These are the UTF-8 bytes of a bullet read as Windows-1252. A real `•` is not a header.
- **A failed visualisation fetch keeps the previous `visualizationData`.** A failed grading reply clears it. Neither clears `results`.
- **`activeTab` is never reset by a new cycle.**

## Model

| member | source | states |
|---|---|---|
| Text.Trim | client/src/pages/assignment.tsx:194 | the result has no whitespace at either end, and an already trimmed string is returned unchanged |
| Text.TrimSlice | client/src/pages/assignment.tsx:194 | the result is a slice of the input with only whitespace before it and after it, so trimming drops nothing inside the text |
| Text.TrimKeeps | client/src/pages/assignment.tsx:194 | trimming only removes characters: every character of the result is in the input and every non-whitespace character of the input survives |
| Text.TrimKeepsPrefix | client/src/pages/assignment.tsx:198-199 | a leading run of non-whitespace characters is still at the start after trimming |
| Text.RemoveAll | client/src/pages/assignment.tsx:194 | no asterisk is left and the text does not grow |
| Text.RemoveAllKeeps | client/src/pages/assignment.tsx:194 | exactly the characters other than the removed one remain |
| Text.RemoveAllCounts | client/src/pages/assignment.tsx:194 | every other character occurs as often as in the input, and the removed one not at all |
| Text.RemoveAllInOrder | client/src/pages/assignment.tsx:194 | the remaining characters keep the input's order |
| Text.IndexOfChar | client/src/pages/assignment.tsx:125 | absent exactly when the character does not occur; otherwise its first position |
| Text.RemoveFirst | client/src/pages/assignment.tsx:126 | with no colon the string is unchanged; otherwise exactly the first colon is cut out and the string is one shorter |
| Text.Substring | client/src/pages/assignment.tsx:127 | the suffix from the start index, empty when the index is past the end |
| Text.Find | client/src/pages/assignment.tsx:122 | a found position is an occurrence of the separator |
| Text.FindFirst | client/src/pages/assignment.tsx:122 | a found position is the first occurrence, and no position matches when nothing is found |
| Text.FindChar | client/src/pages/assignment.tsx:125 | a one-character separator is found exactly where the character first occurs |
| Text.Split | client/src/pages/assignment.tsx:192 | at least one piece; the whole text when the separator is absent; otherwise the first piece ends at the first occurrence |
| Text.SplitPiecesFree | client/src/pages/assignment.tsx:192 | no piece of a split holds the separator |
| Text.SplitPiecesWithin | client/src/pages/assignment.tsx:198 | every piece is made of the input's characters |
| Text.JoinAppend | client/src/pages/assignment.tsx:207 | appending a part to a join adds the separator and the part at the end |
| Text.JoinSplit | client/src/pages/assignment.tsx:230-231 | joining the pieces of a split gives the text back |
| Text.SplitJoin | client/src/pages/assignment.tsx:229-231 | splitting the join of pieces that do not hold the separator gives the pieces back |
| Text.Join | client/src/pages/assignment.tsx:231 | every character of the join comes from one of the parts or from the separator |
| Text.JoinFree | client/src/pages/assignment.tsx:231 | a character in no part and not in the separator is not in the join |
| Keys.Insert | client/src/pages/assignment.tsx:200 | assigning a key: it is present afterwards, a new key goes last, an existing key keeps its place, and no key is listed twice |
| Keys.InsertKeepsOrder | client/src/components/graphs.tsx:35-36 | assigning keys one after another lists each distinct key once, in first-appearance order |
| Keys.FirstIndexUnique | client/src/components/graphs.tsx:44 | the first occurrence is the only position with no earlier copy |
| Splitter.FirstLine | client/src/pages/assignment.tsx:125 | the text before the first line break, or the whole segment without one; never holds a line break |
| Splitter.SegmentResult | client/src/pages/assignment.tsx:125-132 | the file name is the first line with its first colon removed, then trimmed; the content is everything after the first line break, trimmed, and empty when there is none |
| Splitter.NonBlank | client/src/pages/assignment.tsx:123 | exactly the segments that are not empty once trimmed, in order, each kept as often as it occurs |
| Splitter.SegmentResults | client/src/pages/assignment.tsx:124 | one result per segment, position by position |
| Splitter.KeepUploaded | client/src/pages/assignment.tsx:134 | exactly the results naming an uploaded PDF, in order, each kept as often as it occurs |
| Splitter.Segments | client/src/pages/assignment.tsx:121-123 | the pieces of the reply cut at every marker that are not blank once trimmed, in order, each as often as it occurs; the text before the first marker is one of the pieces |
| Splitter.SplitResponse | client/src/pages/assignment.tsx:121-134 | exactly the results of the segments that name an uploaded PDF, each as often as its segment occurs |
| Splitter.SplitResponseShape | client/src/pages/assignment.tsx:121-134 | every output names an uploaded PDF, the outputs keep their segments' order, and there are no more outputs than non-blank segments |
| Splitter.SplitResponseKeeps | client/src/pages/assignment.tsx:134 | a segment's result is output exactly when its name is an uploaded PDF's, so a segment naming an unsubmitted file is dropped |
| Splitter.SplitResponseOrigin | client/src/pages/assignment.tsx:121-134 | every output is the result of some non-blank segment |
| Splitter.PreambleKept | client/src/pages/assignment.tsx:121-134 | non-blank text before the first marker whose name is an uploaded PDF is the first output |
| ReportParser.CleanLine | client/src/pages/assignment.tsx:194 | the cleaned line has no asterisk and no surrounding whitespace, and no line break when the raw line had none |
| ReportParser.SecondPiece | client/src/pages/assignment.tsx:202 | `split(':')[1]` is the text between the first and the second colon, or to the end |
| ReportParser.Classify | client/src/pages/assignment.tsx:196-210 | a description line needs an active title and an overall line needs none; both carry the line itself |
| ReportParser.DispatchOrder | client/src/pages/assignment.tsx:196-210 | the branches are tried in order: bullet header, total grade, letter grade, description of the active section, overall |
| ReportParser.Apply | client/src/pages/assignment.tsx:199-210 | every update keeps the state well formed: keys once each, exactly the keys holding a section, the active title among them |
| ReportParser.Step | client/src/pages/assignment.tsx:192-210 | one iteration keeps the state well formed |
| ReportParser.Run | client/src/pages/assignment.tsx:192-211 | the pass keeps the state well formed |
| ReportParser.Entries | client/src/pages/assignment.tsx:229-231 | one criterion per key |
| ReportParser.Parse | client/src/pages/assignment.tsx:184-231 | a successful parse lists every criterion title once |
| ReportParser.SectionView | client/src/pages/assignment.tsx:229-231 | a section's text splits into the grade before the first line break and the rest as description; no line break gives that grade and an empty description |
| ReportParser.ViewOfContent | client/src/pages/assignment.tsx:229-231 | the view of a section's text gives back its seeded grade and its appended lines joined by line breaks |
| ReportParser.ContentAppend | client/src/pages/assignment.tsx:207 | appending a line to a section adds a line break and the line to its text |
| ReportParser.RunClean | client/src/pages/assignment.tsx:194 | nothing the pass stores holds an asterisk, surrounding whitespace or a line break |
| ReportParser.StepClean | client/src/pages/assignment.tsx:194-210 | one step keeps every stored text clean |
| ReportParser.HeaderClean | client/src/pages/assignment.tsx:198-200 | a header's title and grade are clean |
| ReportParser.RunErrSticks | client/src/pages/assignment.tsx:192 | once a line throws, the pass stays failed whatever follows |
| ReportParser.ApplyLine | client/src/pages/assignment.tsx:193-210 | the callback body on the local variables throws exactly when the reference step fails, and otherwise keeps the variables mirroring the reference state |
| ReportParser.HeaderMirrors | client/src/pages/assignment.tsx:198-200 | a header assigns its grade to its key, appends a new key last and makes the title active |
| ReportParser.DescriptionMirrors | client/src/pages/assignment.tsx:205-207 | a description line is appended to the active section after a line break |
| ReportParser.SummaryMirrors | client/src/pages/assignment.tsx:201-210 | a grade line or an overall line overwrites only its own variable |
| ReportParser.CollectSections | client/src/pages/assignment.tsx:190-211 | the loop fails exactly when the reference pass fails, with its error, and otherwise ends mirroring the reference state |
| ReportParser.ViewSections | client/src/pages/assignment.tsx:229-231 | splitting each key's text in insertion order gives the criteria of the reference state |
| ReportParser.RenderResult | client/src/pages/assignment.tsx:184-231 | the imperative parse equals the reference parse, error included |
| ReportProperties.HeaderFields | client/src/pages/assignment.tsx:196-200 | the title is the trimmed text after the first character up to the first colon; the grade is the trimmed text between the first and second colons; without a colon there is no grade |
| ReportProperties.TitleKeepsBulletTail | client/src/pages/assignment.tsx:196-198 | every title starts with the two bullet characters that `substring(1)` keeps |
| ReportProperties.TitleNonEmpty | client/src/pages/assignment.tsx:198-199 | a section title is never empty |
| ReportProperties.StepTitle | client/src/pages/assignment.tsx:199-200 | a header makes its title active and assigns its key; any other line leaves both alone |
| ReportProperties.OverallCaptured | client/src/pages/assignment.tsx:208-209 | with no active section an `Overall` line is captured whole |
| ReportProperties.StepOverall | client/src/pages/assignment.tsx:205-209 | the overall feedback changes only on an `Overall` line while no section is active |
| ReportProperties.RunCurrent | client/src/pages/assignment.tsx:199 | the active title is the last header's title, and empty exactly before the first header |
| ReportProperties.RunOrder | client/src/pages/assignment.tsx:199-200 | the keys are the header titles, each once, in first-appearance order; a repeated title keeps its place |
| ReportProperties.SectionKeys | client/src/pages/assignment.tsx:200 | a title has a section exactly when some header carries it |
| ReportProperties.RunOverall | client/src/pages/assignment.tsx:205-209 | the overall feedback is the last `Overall` line before the first header |
| ReportProperties.StepFails | client/src/pages/assignment.tsx:198-200 | a step fails exactly on a bullet line with no colon after its first character |
| ReportProperties.RunFails | client/src/pages/assignment.tsx:198-200 | the pass fails exactly when some header has no colon, with the first such line |
| ReportProperties.StepGrades | client/src/pages/assignment.tsx:201-204 | a grade line sets its grade to the trimmed piece after the first colon; other lines leave it |
| ReportProperties.RunGrades | client/src/pages/assignment.tsx:201-204 | the total and letter grades come from the last line of each kind |
| ReportProperties.StepSection | client/src/pages/assignment.tsx:199-207 | a header of a title resets its section to the seeded grade; a description line while it is active is appended; other lines leave it |
| ReportProperties.RunSection | client/src/pages/assignment.tsx:199-207 | each section holds the grade its last header seeded and the lines appended since, in order |
| ReportProperties.EntriesAt | client/src/pages/assignment.tsx:229-231 | criterion i is key i with its grade and its lines joined by line breaks |
| ReportProperties.TitlesOfEntries | client/src/pages/assignment.tsx:229 | the criteria are listed in key order |
| ReportProperties.ParseReport | client/src/pages/assignment.tsx:184-231 | the grades are the last grade lines; the overall remark is the last `Overall` line before the first header; the criteria are the header titles in first-appearance order; each shows its seeded grade and its appended lines joined by line breaks |
| ReportProperties.ParseFails | client/src/pages/assignment.tsx:198-200 | the parse fails exactly when a header has no colon, naming the first such line |
| ReportProperties.JoinedLinesClean | client/src/pages/assignment.tsx:231 | cutting a description at line breaks gives back clean lines |
| ReportProperties.ParseClean | client/src/pages/assignment.tsx:194 | no grade, title, overall remark or description line of the report holds an asterisk or surrounding whitespace |
| ReportProperties.EntriesClean | client/src/pages/assignment.tsx:229-231 | criteria listed from a clean state are clean, line by line |
| Criteria.NormalizeKey | client/src/components/graphs.tsx:34 | the key is trimmed, and for a label without a colon it is the trimmed label |
| Criteria.NormalizeIdempotent | client/src/components/graphs.tsx:34 | normalising a key with no colon left in it changes nothing |
| Criteria.NormalizeKeepsSecondColon | client/src/components/graphs.tsx:34 | only the first colon is removed: a label with two colons keeps the second |
| Criteria.Keyed | client/src/components/graphs.tsx:34 | one key per item |
| Criteria.FileUnder | client/src/components/graphs.tsx:35-40 | the item's own key gets a record bumped by the item's score, maximum and one; a new key goes last and every other key keeps its record |
| Criteria.Current | client/src/components/graphs.tsx:35-37 | a label already in the accumulator gives its own record; a label not yet seen reads as the zero record with score 0, maximum 0 and count 0 |
| Criteria.Bump | client/src/components/graphs.tsx:38-40 | the count goes up by exactly one, and the score and the maximum grow by exactly the item's score and maximum |
| Criteria.FoldFiled | client/src/components/graphs.tsx:33-42 | the reduce over keyed items has no more labels than items, and at least one label once there is an item |
| Criteria.Fold | client/src/components/graphs.tsx:33-42 | the reduce gives a well-formed accumulator: keys once each, exactly the keys holding a record, every count at least 1 |
| Criteria.FileUnderValid | client/src/components/graphs.tsx:35-40 | filing an item keeps keys once each, exactly the keys holding a record, and every count at least 1 |
| Criteria.FileUnderEntries | client/src/components/graphs.tsx:35-40 | filing an item adds its score and maximum to its own key's record and counts it, and leaves every other key's record unchanged |
| Criteria.FoldValid | client/src/components/graphs.tsx:33-42 | the accumulator stays well formed over the whole reduce |
| Criteria.FileInPlace | client/src/components/charts.tsx:20-25 | creating the zero record for a new key and bumping the three fields one by one is the filing step |
| Criteria.FoldStep | client/src/components/graphs.tsx:33-42 | one more item extends the reduce by one filing of that item under its normalised key, on a well-formed accumulator |
| Criteria.Aggregate | client/src/components/charts.tsx:18-27 | the in-place reduce loop computes the fold |
| Criteria.FoldKeys | client/src/components/graphs.tsx:33-44 | the labels are the distinct keys, each once, in first-appearance order |
| Criteria.FoldHas | client/src/components/graphs.tsx:35-36 | a key holds a record exactly when some item has that key |
| Criteria.FoldEntry | client/src/components/graphs.tsx:35-40 | a key's record holds the sum of the scores, the sum of the maxima and the number of exactly the items with that key |
| Criteria.CountsCoverItems | client/src/components/graphs.tsx:33-44 | the counts over all labels add up to the number of items |
| Criteria.CountSumFileUnder | client/src/components/graphs.tsx:35-40 | filing one item keeps the accumulator well formed and adds exactly one to the sum of the counts |
| Criteria.CountSumOther | client/src/components/graphs.tsx:40 | changing one record leaves the other keys' count sum alone |
| Criteria.CountSumBump | client/src/components/graphs.tsx:40 | counting one more item under a listed key adds one to the count sum |
| Graphs.Bars | client/src/components/graphs.tsx:44-46 | the labels are the accumulator's keys, and both data arrays have one value per label |
| Graphs.BarChart | client/src/components/graphs.tsx:33-46 | both data arrays have one value per label |
| Graphs.BarChartMeans | client/src/components/graphs.tsx:44-46 | labels in first-appearance order; bar i is the sum of its label's scores (maxima) divided by its item count, which is at least 1 |
| Graphs.BarMean | client/src/components/graphs.tsx:44-46 | bar i of a reduce over keyed items is the sum of its label's scores (maxima) over the number of items with that label, which is at least 1 |
| Graphs.MaxOf | client/src/components/graphs.tsx:74 | the largest value of a non-empty list: one of its values, and no value exceeds it |
| Graphs.YAxisMax | client/src/components/graphs.tsx:74 | no bound without bars; otherwise 11/10 of one of the values and at least 11/10 of each, so it covers every bar when it is not negative |
| Graphs.AxisBounded | client/src/components/graphs.tsx:74 | with at least one item there is a bar and the axis has a bound |
| Charts.CreateChartData | client/src/components/charts.tsx:29-40 | the labels are the name and `Remaining`; the slices are the score and the rest, summing to the total; the rest is negative exactly when the score exceeds the total |
| Charts.Cards | client/src/components/charts.tsx:49-53 | one card per key, in key order, headed by the key and its record's two sums, with the pie `createChartData` builds from them |
| Charts.PieCharts | client/src/components/charts.tsx:18-54 | one card per key of the reduce, in key order, each with the pie `createChartData` builds from its name and sums |
| Charts.PieChartsSums | client/src/components/charts.tsx:49-53 | one pie per distinct key in first-appearance order, named after the key, showing the sums over exactly that key's items, built by `createChartData` from those sums |
| Charts.BarsMatchPies | client/src/components/charts.tsx:49-52 | the pies and the bars list the same labels in the same order, and each bar is its pie's sum divided by the label's item count |
| Samples.TrailingColonDropped | client/src/components/graphs.tsx:34 | a clean label and the label with a trailing colon give the same key |
| Samples.FiledTwice | client/src/components/graphs.tsx:35-40 | two items under one key give that key both sums and a count of two |
| Samples.TwoGrammarItems | client/src/components/charts.tsx:18-40 | two items scored 90/100 and 80/100 under one key give sums 170/200, bars 85 and 100, and a pie of 170 and 30 |
| Samples.FiledThree | client/src/components/graphs.tsx:35-40 | three items with distinct keys are filed one per key, in input order |
| Samples.SingleBars | client/src/components/graphs.tsx:45-46 | with one item per label each bar is the item's own score and maximum |
| Samples.SinglePies | client/src/components/charts.tsx:29-53 | with one item per label each pie is the item's own score and the rest of its maximum |
| Samples.DemoLabel | client/src/pages/index.tsx:7-11 | each demonstration label is its own key |
| Samples.KeyedOwnLabels | client/src/components/graphs.tsx:34-35 | items whose labels are their own keys are filed under their labels |
| Samples.ThreeMetrics | client/src/pages/index.tsx:7-11 | the demonstration data, normalised and reduced, gives three labels in input order with one item each, and the pies the landing page draws are 92/8, 88/12 and 95/5 |
| AssignmentPage.Validate | client/src/pages/assignment.tsx:58-73 | each message is chosen exactly when its check is the first to fail, in order (no files, no rubric for PDFs, no question for PDFs); images alone always pass |
| AssignmentPage.FileParts | client/src/pages/assignment.tsx:86-94 | one form field per file under the same name, in upload order |
| AssignmentPage.RequestFor | client/src/pages/assignment.tsx:83-97 | the image endpoint exactly when there are images, with only the images; otherwise the PDF endpoint with the PDFs, then the rubric, then the question |
| AssignmentPage.ReplyError | client/src/pages/assignment.tsx:112-118 | no error exactly for an ok reply with status `success` and a non-empty response; a non-ok reply gives its error or `Something went wrong`; an ok reply otherwise gives `Invalid response format from server`; a thrown error keeps its message |
| AssignmentPage.SingleResultName | client/src/pages/assignment.tsx:148 | the first PDF's name, else the first image's, else `Submission`, skipping empty names; never empty |
| AssignmentPage.Page.constructor | client/src/pages/assignment.tsx:39-52 | the initial values of the state slots |
| AssignmentPage.Page.ActiveContent | client/src/pages/assignment.tsx:531 | the active tab's text exactly when the index names a result |
| AssignmentPage.Page.RenderActive | client/src/pages/assignment.tsx:531 | the active tab's report is its parse, and there is none when the index names no result |
| AssignmentPage.Page.HandleSubmit | client/src/pages/assignment.tsx:54-182 | a failed check sends nothing and only sets its message; otherwise the chosen request is sent, the reply is processed, loading ends false, and neither the inputs nor the active tab change |
| AssignmentPage.Page.ProcessReply | client/src/pages/assignment.tsx:112-178 | an error sets its message and clears the visualisation data but keeps the results; a success clears the message, stores the results and keeps the old visualisation data unless new data arrives |
| AssignmentPage.Page.StoreResults | client/src/pages/assignment.tsx:119-152 | more than one PDF gives the split results and a plagiarism figure in [0, 34]; otherwise one result named by `SingleResultName` holding the whole reply, and no plagiarism figure |
| AssignmentPage.Page.StoreVisualization | client/src/pages/assignment.tsx:155-170 | only decoded data replaces the visualisation data; a failed fetch changes nothing |
| AssignmentPage.Page.Fail | client/src/pages/assignment.tsx:175-178 | the message is set and the visualisation data cleared, nothing else |

## Left out

- **Rendering.** JSX rendering, styling, chart.js registration and every chart option except the y-axis maximum are UI.
- **I/O and the network.**
  - `fetch`, `FormData`, `response.json()` and `console` are I/O. Both server replies are inputs of `HandleSubmit`, already decoded. Files appear by name.
  - The model has no clock or timeout.
- **`Math.random`** (assignment.tsx:139). It is a nondeterministic choice in [0, 34], not an algorithm.
- **Number parsing and formatting.**
  - `parseFloat`, NaN and floating-point rounding are left out; scores are `real`.
  - `toFixed` (charts.tsx:51) is formatting only.
  - The number→string→number round trip at assignment.tsx:537-541 is left out.
- **`visualizationData.criteria` as the chart input.** The Page class holds the visualisation data, and `Graphs.BarChart` takes a criterion list. The model does not connect the two, because the JSX props are UI.
- **Object key order and inherited names.**
  - JavaScript enumerates integer-like keys before other keys. The model uses plain insertion order.
  - Names inherited from `Object.prototype` are left out. For example, in the `!acc[key]` test, `"constructor"` is already truthy.
- Text.Trim: its own contract says only that the result has no whitespace at either end and that a trimmed string is unchanged. That it is the input with the end whitespace cut off is `Text.TrimSlice`. Every proof about the line pass unfolds `Trim` on each line, and the slice clause in the function's contract would make all of those proofs much larger.
- Text.RemoveAll: its own contract says only that no removed character is left and that the text does not grow. That the other characters stay, as often as before and in order, is `Text.RemoveAllKeeps`, `Text.RemoveAllCounts` and `Text.RemoveAllInOrder`, for the same reason as for `Trim`.
- **Graphs.YAxisMax: `Math.max` of no arguments.** JavaScript gives negative infinity there, times 1.1. The model has no bound in that case.
- **The page's own field setters.** The file inputs, the rubric input (which also clears `rubricError`), the question box and the tab buttons are plain field assignments.
- **The plagiarism banner** (assignment.tsx:485-506) is UI.
- **AssignmentPage.Page.HandleSubmit** treats one cycle as atomic.
  - The stale-response race between overlapping submissions is concurrency and is left out.
  - The `loading` flag is only observed as `false` at the end.
  - In the multi-PDF path `result` keeps its stale single-file value, and the model states that.
- **The demo page and the navigation bar** (index.tsx, Navbar.tsx) are UI. Only the index.tsx sample data appears, in `Samples.ThreeMetrics`.

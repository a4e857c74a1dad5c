/** The submission controller of client/src/pages/assignment.tsx: the page's
    state slots (lines 39-52) and `handleSubmit` (lines 54-182), with the two
    network exchanges given as inputs and the random plagiarism figure as a
    nondeterministic choice. */
module AssignmentPage {
  import opened Results
  import opened Splitter
  import opened Criteria
  import opened ReportParser

  const NoFilesMessage := "Please provide at least one file (PDF or Image)"
  const NoRubricMessage := "Please upload a rubric file for PDF grading"
  const NoQuestionMessage := "Please provide a question for PDF grading"
  const FallbackMessage := "Something went wrong"
  const BadFormatMessage := "Invalid response format from server"

  const ImageEndpoint := "http://localhost:8080/api/grade/image"
  const PdfEndpoint := "http://localhost:8080/api/grade/pdf"

  /** The reply to `/api/visualization` once decoded (lines 15-19). */
  datatype VisualizationData = VisualizationData(criteria: seq<Criterion>, percentageGrade: real, letterGrade: string)

  /** Line 34: the stubbed similarity figure. */
  datatype PlagiarismResult = PlagiarismResult(comparisonPercentage: int)

  /** One `formData.append(name, value)`; files appear by name. */
  datatype FormPart = FormPart(name: string, value: string)

  /** The POST the grading call sends: its endpoint and its form fields. */
  datatype Request = Request(endpoint: string, parts: seq<FormPart>)

  /** What the grading call yields: either it throws before a decoded body
      exists (the fetch rejects, or the body is not JSON) with the thrown
      error's message, or it yields the HTTP `ok` flag and the decoded
      `error`, `status` and `response` fields, empty when absent. */
  datatype GradeReply =
    | GradeThrows(message: string)
    | GradeBody(ok: bool, error: string, status: string, response: string)

  /** What the visualisation call yields: a non-ok status (line 160), a
      thrown error (line 168), or the decoded data (line 167). */
  datatype VizReply = VizNotOk | VizThrows | VizOk(data: VisualizationData)

  /** Lines 58-73: the checks in their order, with the message of the first
      one that fails. Images alone never need a rubric or a question. */
  function Validate(pdfs: seq<string>, images: seq<string>, rubric: Option<string>, question: string): (r: Option<string>)
    ensures r == Some(NoFilesMessage) <==> pdfs == [] && images == []
    ensures r == Some(NoRubricMessage) <==> pdfs != [] && rubric.None?
    ensures r == Some(NoQuestionMessage) <==> pdfs != [] && rubric.Some? && question == []
    ensures r.None? <==> (pdfs != [] || images != []) && (pdfs != [] ==> rubric.Some? && question != [])
    ensures pdfs == [] && images != [] ==> r.None?
  {
    if pdfs == [] && images == [] then Some(NoFilesMessage)
    else if pdfs != [] && rubric.None? then Some(NoRubricMessage)
    else if pdfs != [] && question == [] then Some(NoQuestionMessage)
    else None
  }

  /** One form field per file, all under the same name, in upload order. */
  function FileParts(name: string, files: seq<string>): (r: seq<FormPart>)
    ensures |r| == |files|
    ensures forall i :: 0 <= i < |r| ==> r[i] == FormPart(name, files[i])
  {
    seq(|files|, i requires 0 <= i < |files| => FormPart(name, files[i]))
  }

  /** Lines 83-97: with any image the image endpoint and only the images;
      otherwise the PDF endpoint with the PDFs, then the rubric, then the
      question. The rubric is present there because validation passed. */
  function RequestFor(pdfs: seq<string>, images: seq<string>, rubric: Option<string>, question: string): (r: Request)
    requires images != [] || rubric.Some?
    ensures r.endpoint == ImageEndpoint <==> images != []
    ensures images != [] ==> r.parts == FileParts("image", images)
    ensures images == [] ==> r == Request(PdfEndpoint, FileParts("pdf", pdfs) + [FormPart("rubric", rubric.value), FormPart("question", question)])
  {
    if images != [] then Request(ImageEndpoint, FileParts("image", images))
    else Request(PdfEndpoint, FileParts("pdf", pdfs) + [FormPart("rubric", rubric.value), FormPart("question", question)])
  }

  /** Lines 112-118 and 172: the message of the error the grading reply
      throws, or nothing when it is a success with a non-empty response. */
  function ReplyError(reply: GradeReply): (r: Option<string>)
    ensures r.None? <==> reply.GradeBody? && reply.ok && reply.status == "success" && reply.response != []
    ensures reply.GradeThrows? ==> r == Some(reply.message)
    ensures reply.GradeBody? && !reply.ok ==> r == Some(if reply.error != [] then reply.error else FallbackMessage)
    ensures reply.GradeBody? && reply.ok && r.Some? ==> r == Some(BadFormatMessage)
  {
    match reply
    case GradeThrows(m) => Some(m)
    case GradeBody(ok, error, status, response) =>
      if !ok then Some(if error != [] then error else FallbackMessage)
      else if status == "success" && response != [] then None
      else Some(BadFormatMessage)
  }

  /** Line 148: `pdfs[0]?.name || images[0]?.name || 'Submission'`; an empty
      name is falsy and falls through, so the name is never empty. */
  function SingleResultName(pdfs: seq<string>, images: seq<string>): (r: string)
    ensures r != []
    ensures r in pdfs[..if pdfs == [] then 0 else 1] + images[..if images == [] then 0 else 1] + ["Submission"]
    ensures pdfs != [] && pdfs[0] != [] ==> r == pdfs[0]
    ensures (pdfs == [] || pdfs[0] == []) && images != [] && images[0] != [] ==> r == images[0]
    ensures (pdfs == [] || pdfs[0] == []) && (images == [] || images[0] == []) ==> r == "Submission"
  {
    if pdfs != [] && pdfs[0] != [] then pdfs[0]
    else if images != [] && images[0] != [] then images[0]
    else "Submission"
  }

  /** The page component's state slots (lines 39-52). */
  class Page {
    var pdfs: seq<string>
    var images: seq<string>
    var rubricFile: Option<string>
    var question: string
    var result: string
    var loading: bool
    var error: string
    var visualizationData: Option<VisualizationData>
    var rubricError: string
    var results: seq<AssignmentResult>
    var activeTab: int
    var plagiarismResult: Option<PlagiarismResult>

    /** The initial values of the `useState` calls. */
    constructor ()
      ensures pdfs == [] && images == [] && rubricFile.None? && question == []
      ensures result == [] && !loading && error == [] && visualizationData.None?
      ensures rubricError == [] && results == [] && activeTab == 0 && plagiarismResult.None?
    {
      pdfs, images, rubricFile, question := [], [], None, [];
      result, loading, error, visualizationData := [], false, [], None;
      rubricError, results, activeTab, plagiarismResult := [], [], 0, None;
    }

    /** Line 531: the text of the tab to render, if `activeTab` names one. */
    function ActiveContent(): (r: Option<string>)
      reads this
      ensures r.Some? <==> 0 <= activeTab < |results|
      ensures r.Some? ==> r.value == results[activeTab].content
    {
      if 0 <= activeTab < |results| then Some(results[activeTab].content) else None
    }

    /** Line 531: the active tab's report, parsed as `renderResult` does. */
    method RenderActive() returns (r: Option<Result<Report, ParseError>>)
      ensures ActiveContent().None? ==> r.None?
      ensures ActiveContent().Some? ==> r == Some(Parse(ActiveContent().value))
    {
      if 0 <= activeTab < |results| {
        var report := RenderResult(results[activeTab].content);
        r := Some(report);
      } else {
        r := None;
      }
    }

    /** Lines 54-182, one cycle taken as atomic. The request sent, if any, is
        returned. A failed validation only sets the message; otherwise the
        request for the files is sent and the reply is processed. The
        selected tab is never reset. */
    method HandleSubmit(reply: GradeReply, viz: VizReply) returns (sent: Option<Request>)
      modifies this
      ensures pdfs == old(pdfs) && images == old(images) && rubricFile == old(rubricFile) && question == old(question)
      ensures rubricError == old(rubricError) && activeTab == old(activeTab)
      ensures Validate(pdfs, images, rubricFile, question).Some? ==>
        && sent.None? && error == Validate(pdfs, images, rubricFile, question).value
        && loading == old(loading) && result == old(result) && results == old(results)
        && visualizationData == old(visualizationData) && plagiarismResult == old(plagiarismResult)
      ensures Validate(pdfs, images, rubricFile, question).None? ==>
        && (images != [] || rubricFile.Some?)
        && sent == Some(RequestFor(pdfs, images, rubricFile, question))
        && !loading
      ensures Validate(pdfs, images, rubricFile, question).None? ==> Processed(reply, viz, old(result), old(results), old(visualizationData), old(plagiarismResult))
    {
      var invalid := Validate(pdfs, images, rubricFile, question);
      if invalid.Some? {
        error := invalid.value;
        return None;
      }
      loading := true;
      error := [];
      var request := RequestFor(pdfs, images, rubricFile, question);
      sent := Some(request);
      ProcessReply(reply, viz);
      loading := false;
    }

    /** The outcome of processing the grading reply, against the slots before
        the cycle: a thrown error sets its message and clears the
        visualisation data but keeps `result`, `results` and the plagiarism
        figure; a success clears the message, fills `results` (split per file
        for more than one PDF, a single entry otherwise) and keeps the old
        visualisation data unless the second call delivers new data. */
    ghost predicate Processed(reply: GradeReply, viz: VizReply, result0: string, results0: seq<AssignmentResult>,
                              viz0: Option<VisualizationData>, plagiarism0: Option<PlagiarismResult>)
      reads this
    {
      && (ReplyError(reply).Some? ==>
            && error == ReplyError(reply).value && visualizationData.None?
            && result == result0 && results == results0 && plagiarismResult == plagiarism0)
      && (ReplyError(reply).None? ==>
            && error == []
            && visualizationData == (if viz.VizOk? then Some(viz.data) else viz0)
            && (|pdfs| > 1 ==>
                  && results == SplitResponse(reply.response, pdfs)
                  && result == result0
                  && plagiarismResult.Some? && 0 <= plagiarismResult.value.comparisonPercentage <= 34)
            && (|pdfs| <= 1 ==>
                  && result == reply.response
                  && results == [AssignmentResult(SingleResultName(pdfs, images), reply.response)]
                  && plagiarismResult.None?))
    }

    /** Lines 112-178 after the request has gone out: the reply handling,
        the plagiarism stub and the non-fatal visualisation fetch. */
    method ProcessReply(reply: GradeReply, viz: VizReply)
      modifies this
      requires error == []
      ensures pdfs == old(pdfs) && images == old(images) && rubricFile == old(rubricFile) && question == old(question)
      ensures rubricError == old(rubricError) && activeTab == old(activeTab) && loading == old(loading)
      ensures Processed(reply, viz, old(result), old(results), old(visualizationData), old(plagiarismResult))
    {
      var failure := ReplyError(reply);
      if failure.Some? {
        Fail(failure.value);
      } else {
        StoreResults(reply.response);
        StoreVisualization(viz);
      }
    }

    /** Lines 155-170: only decoded data replaces the visualisation data; a
        non-ok status or a thrown error leaves the previous data showing. */
    method StoreVisualization(viz: VizReply)
      modifies this
      ensures visualizationData == (if viz.VizOk? then Some(viz.data) else old(visualizationData))
      ensures pdfs == old(pdfs) && images == old(images) && rubricFile == old(rubricFile) && question == old(question)
      ensures rubricError == old(rubricError) && activeTab == old(activeTab) && loading == old(loading)
      ensures result == old(result) && results == old(results) && plagiarismResult == old(plagiarismResult)
      ensures error == old(error)
    {
      if viz.VizOk? {
        visualizationData := Some(viz.data);
      }
    }

    /** Lines 175-178: the catch block sets the message and clears the
        visualisation data, and nothing else. */
    method Fail(message: string)
      modifies this
      ensures error == message && visualizationData.None?
      ensures pdfs == old(pdfs) && images == old(images) && rubricFile == old(rubricFile) && question == old(question)
      ensures rubricError == old(rubricError) && activeTab == old(activeTab) && loading == old(loading)
      ensures result == old(result) && results == old(results) && plagiarismResult == old(plagiarismResult)
    {
      error := message;
      visualizationData := None;
    }

    /** Lines 119-152: the results of a successful reply, split per uploaded
        file with a plagiarism figure in [0, 34] for more than one PDF, and
        otherwise one entry holding the whole reply. */
    method StoreResults(response: string)
      modifies this
      ensures pdfs == old(pdfs) && images == old(images) && rubricFile == old(rubricFile) && question == old(question)
      ensures rubricError == old(rubricError) && activeTab == old(activeTab) && loading == old(loading)
      ensures error == old(error) && visualizationData == old(visualizationData)
      ensures |pdfs| > 1 ==>
        && results == SplitResponse(response, pdfs)
        && result == old(result)
        && plagiarismResult.Some? && 0 <= plagiarismResult.value.comparisonPercentage <= 34
      ensures |pdfs| <= 1 ==>
        && result == response
        && results == [AssignmentResult(SingleResultName(pdfs, images), response)]
        && plagiarismResult.None?
    {
      if |pdfs| > 1 {
        results := SplitResponse(response, pdfs);
        var p :| 0 <= p <= 34;
        plagiarismResult := Some(PlagiarismResult(p));
      } else {
        result := response;
        results := [AssignmentResult(SingleResultName(pdfs, images), response)];
        plagiarismResult := None;
      }
    }
  }
}

/** The multi-file branch of the submission handler: one grading reply that
    covers several PDFs is cut into one result per uploaded PDF
    (client/src/pages/assignment.tsx, lines 119-134). */
module Splitter {
  import opened Text
  import opened Results

  /** One tab of the results view: a file name and its feedback text. */
  datatype AssignmentResult = AssignmentResult(fileName: string, content: string)

  /** The literal the reply is split on. */
  const Marker: string := "Response for "

  /** `segment.split('\n')[0]`: the text before the first line break, or the
      whole segment when it has none. */
  function FirstLine(segment: string): (r: string)
    ensures '\n' !in r
    ensures '\n' !in segment ==> r == segment
    ensures '\n' in segment ==> r == segment[..IndexOfChar(segment, '\n').value]
  {
    FindChar(segment, '\n');
    Split(segment, "\n")[0]
  }

  /** Lines 125-127: the file name is the first line with its first colon
      removed (wherever it is) and trimmed; the content is everything after
      the first line break, trimmed, and empty when there is no line break. */
  function SegmentResult(segment: string): (r: AssignmentResult)
    ensures IsTrimmed(r.fileName) && IsTrimmed(r.content)
    ensures '\n' !in segment ==> r.content == [] && r.fileName == Trim(RemoveFirst(segment, ':'))
    ensures '\n' in segment ==>
      var i := IndexOfChar(segment, '\n').value;
      r.fileName == Trim(RemoveFirst(segment[..i], ':')) && r.content == Trim(segment[i + 1..])
  {
    var firstLine := FirstLine(segment);
    var rest := Substring(segment, |firstLine| + 1);
    assert '\n' in segment ==> rest == segment[IndexOfChar(segment, '\n').value + 1..];
    AssignmentResult(Trim(RemoveFirst(firstLine, ':')), Trim(rest))
  }

  /** One step of a `filter`: if the rest keeps every kept value as often
      as the tail has it, in order, so does the rest with the head put in
      front when the head is kept. */
  lemma ConsFiltered<T>(head: T, tail: seq<T>, rest: seq<T>, keep: bool)
    requires forall x :: x in rest ==> multiset(rest)[x] == multiset(tail)[x]
    requires Subsequence(rest, tail)
    requires keep && head in tail ==> head in rest
    requires !keep ==> head !in rest
    ensures var r := if keep then [head] + rest else rest;
      && (forall x :: x in r ==> multiset(r)[x] == multiset([head] + tail)[x])
      && Subsequence(r, [head] + tail)
  {
    assert multiset([head] + tail) == multiset([head]) + multiset(tail);
    if keep {
      assert ([head] + rest)[1..] == rest;
      assert multiset([head] + rest) == multiset([head]) + multiset(rest);
    } else {
      assert rest == [] || rest[0] != head;
    }
  }

  /** Line 123: drop the segments that are empty once trimmed. */
  function NonBlank(segments: seq<string>): (r: seq<string>)
    ensures forall s :: s in r <==> s in segments && Trim(s) != []
    ensures forall s :: s in r ==> multiset(r)[s] == multiset(segments)[s]
    ensures Subsequence(r, segments)
  {
    if segments == [] then []
    else
      var head, rest := segments[0], NonBlank(segments[1..]);
      assert segments == [head] + segments[1..];
      ConsFiltered(head, segments[1..], rest, Trim(head) != []);
      if Trim(head) != [] then [head] + rest else rest
  }

  /** Line 124: one result per segment. */
  function SegmentResults(segments: seq<string>): (r: seq<AssignmentResult>)
    ensures |r| == |segments|
    ensures forall i :: 0 <= i < |r| ==> r[i] == SegmentResult(segments[i])
  {
    seq(|segments|, i requires 0 <= i < |segments| => SegmentResult(segments[i]))
  }

  /** Line 134: keep a result only when some uploaded PDF has its name. */
  function KeepUploaded(results: seq<AssignmentResult>, pdfNames: seq<string>): (r: seq<AssignmentResult>)
    ensures forall x :: x in r <==> x in results && x.fileName in pdfNames
    ensures forall x :: x in r ==> multiset(r)[x] == multiset(results)[x]
    ensures Subsequence(r, results)
  {
    if results == [] then []
    else
      var head, rest := results[0], KeepUploaded(results[1..], pdfNames);
      assert results == [head] + results[1..];
      ConsFiltered(head, results[1..], rest, head.fileName in pdfNames);
      if head.fileName in pdfNames then [head] + rest else rest
  }

  /** The segments the reply is cut into, blank ones dropped. Nothing
      discards the text before the first marker: it is one more segment. */
  function Segments(response: string): (r: seq<string>)
    ensures forall s :: s in r <==> s in Split(response, Marker) && Trim(s) != []
    ensures forall s :: s in r ==> multiset(r)[s] == multiset(Split(response, Marker))[s]
    ensures Subsequence(r, Split(response, Marker))
  {
    NonBlank(Split(response, Marker))
  }

  /** Lines 121-134: split on the marker, drop blank segments, derive a
      result per segment and keep those naming an uploaded PDF. */
  function SplitResponse(response: string, pdfNames: seq<string>): (r: seq<AssignmentResult>)
    ensures forall x :: x in r <==> x in SegmentResults(Segments(response)) && x.fileName in pdfNames
    ensures forall x :: x in r ==> multiset(r)[x] == multiset(SegmentResults(Segments(response)))[x]
  {
    KeepUploaded(SegmentResults(Segments(response)), pdfNames)
  }

  /** Every result names an uploaded PDF; the results keep the order of
      their segments; there are never more results than non-blank
      segments. */
  lemma SplitResponseShape(response: string, pdfNames: seq<string>)
    ensures forall i :: 0 <= i < |SplitResponse(response, pdfNames)| ==> SplitResponse(response, pdfNames)[i].fileName in pdfNames
    ensures Subsequence(SplitResponse(response, pdfNames), SegmentResults(Segments(response)))
    ensures |SplitResponse(response, pdfNames)| <= |Segments(response)|
  {
    var all := SegmentResults(Segments(response));
    var r := KeepUploaded(all, pdfNames);
    assert SplitResponse(response, pdfNames) == r;
    SubsequenceLength(r, all);
    forall i | 0 <= i < |r| ensures r[i].fileName in pdfNames {
      assert r[i] in r;
    }
  }

  /** A segment is kept exactly when its name is one of the uploaded PDFs. */
  lemma SplitResponseKeeps(response: string, pdfNames: seq<string>, s: string)
    requires s in Segments(response)
    ensures SegmentResult(s) in SplitResponse(response, pdfNames) <==> SegmentResult(s).fileName in pdfNames
  {
    var i :| 0 <= i < |Segments(response)| && Segments(response)[i] == s;
    assert SegmentResults(Segments(response))[i] == SegmentResult(s);
  }

  /** Every result comes from a non-blank segment of the reply. */
  lemma SplitResponseOrigin(response: string, pdfNames: seq<string>, x: AssignmentResult)
    requires x in SplitResponse(response, pdfNames)
    ensures exists s :: s in Segments(response) && x == SegmentResult(s)
  {
    var all := SegmentResults(Segments(response));
    assert x in all;
    var i :| 0 <= i < |all| && all[i] == x;
    assert Segments(response)[i] in Segments(response);
  }

  /** The text before the first marker is kept as a result whenever it is
      not blank and its first line names an uploaded PDF. */
  lemma PreambleKept(response: string, pdfNames: seq<string>, k: nat)
    requires Find(response, Marker) == Some(k)
    requires Trim(response[..k]) != []
    requires SegmentResult(response[..k]).fileName in pdfNames
    ensures |SplitResponse(response, pdfNames)| >= 1
    ensures SplitResponse(response, pdfNames)[0] == SegmentResult(response[..k])
  {
    SegmentsHead(response, k);
    var segments := Segments(response);
    FirstResultKept(segments, pdfNames);
    SplitResponseHead(response, pdfNames, SegmentResult(segments[0]));
  }

  lemma SplitResponseHead(response: string, pdfNames: seq<string>, x: AssignmentResult)
    requires |KeepUploaded(SegmentResults(Segments(response)), pdfNames)| >= 1
    requires KeepUploaded(SegmentResults(Segments(response)), pdfNames)[0] == x
    ensures |SplitResponse(response, pdfNames)| >= 1 && SplitResponse(response, pdfNames)[0] == x
  {
  }

  lemma SegmentsHead(response: string, k: nat)
    requires Find(response, Marker) == Some(k)
    requires Trim(response[..k]) != []
    ensures |Segments(response)| > 0 && Segments(response)[0] == response[..k]
  {
    NonBlankHead(Split(response, Marker));
  }

  lemma FirstResultKept(segments: seq<string>, pdfNames: seq<string>)
    requires |segments| > 0
    requires SegmentResult(segments[0]).fileName in pdfNames
    ensures |KeepUploaded(SegmentResults(segments), pdfNames)| > 0
    ensures KeepUploaded(SegmentResults(segments), pdfNames)[0] == SegmentResult(segments[0])
  {
    KeepUploadedHead(SegmentResults(segments), pdfNames);
  }

  lemma NonBlankHead(segs: seq<string>)
    requires |segs| > 0 && Trim(segs[0]) != []
    ensures |NonBlank(segs)| > 0 && NonBlank(segs)[0] == segs[0]
  {
  }

  lemma KeepUploadedHead(all: seq<AssignmentResult>, pdfNames: seq<string>)
    requires |all| > 0 && all[0].fileName in pdfNames
    ensures |KeepUploaded(all, pdfNames)| > 0 && KeepUploaded(all, pdfNames)[0] == all[0]
  {
  }
}

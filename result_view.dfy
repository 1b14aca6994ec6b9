/** The solution panel shown after an answer (app/quiz/Result.tsx). */
module ResultView {
  import opened Wrappers
  import LineBreaks

  datatype ResultProps = ResultProps(solutionText: string)

  /**
   * The rendered solution: nothing for a missing result, otherwise the
   * solution text split at every `<br>` (any letter case), the segments in
   * order with one line break between consecutive segments. The
   * "Next Question" button calls the handler it is given; its effect is
   * modelled by the quiz screen.
   */
  function Render(result: Option<ResultProps>): (r: Option<seq<LineBreaks.Fragment>>)
    ensures result.None? <==> r.None?
    ensures result.Some? ==>
      var text := result.value.solutionText;
      && |r.value| == |LineBreaks.Split(text)|
      && (forall i :: 0 <= i < |r.value| ==> r.value[i].segment == LineBreaks.Split(text)[i])
      && LineBreaks.CountBreaks(r.value) == |r.value| - 1 == |LineBreaks.Delimiters(text)|
      && (LineBreaks.BreakFree(text) <==> r.value == [LineBreaks.Fragment(text, false)])
  {
    match result
    case None => None
    case Some(res) =>
      LineBreaks.RenderLinesShape(res.solutionText);
      Some(LineBreaks.RenderLines(res.solutionText))
  }
}

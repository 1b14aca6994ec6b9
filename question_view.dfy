/** The question panel (app/quiz/Question.tsx). */
module QuestionView {
  import opened Wrappers
  import LineBreaks

  datatype QuestionProps = QuestionProps(questionText: string)

  /**
   * What the component renders: nothing for a missing question, otherwise
   * the question text split at every `<br>` (any letter case), the segments
   * in order with one line break between consecutive segments.
   */
  function Render(question: Option<QuestionProps>): (r: Option<seq<LineBreaks.Fragment>>)
    ensures question.None? <==> r.None?
    ensures question.Some? ==>
      var text := question.value.questionText;
      && |r.value| == |LineBreaks.Split(text)|
      && (forall i :: 0 <= i < |r.value| ==> r.value[i].segment == LineBreaks.Split(text)[i])
      && LineBreaks.CountBreaks(r.value) == |r.value| - 1 == |LineBreaks.Delimiters(text)|
      && (LineBreaks.BreakFree(text) <==> r.value == [LineBreaks.Fragment(text, false)])
  {
    match question
    case None => None
    case Some(q) =>
      LineBreaks.RenderLinesShape(q.questionText);
      Some(LineBreaks.RenderLines(q.questionText))
  }
}

/**
 * The quiz-taking screen (app/quiz/QuizApp.tsx): the question, the chosen
 * option, the result of a submission, the loading and error flags, the
 * session information and the two timers. The screen's handlers are
 * events; an awaited API call is a `Reply` given with the event. The
 * screen's visible phase (loading, an error, awaiting a selection, showing a
 * result) is a function of the state, and a handler whose control is not on
 * screen cannot fire.
 */
module Quiz {
  import opened Wrappers
  import Js
  import Text
  import Api

  datatype QuestionData = QuestionData(id: string, questionText: string, section: string, options: seq<string>)
  datatype SessionInfo = SessionInfo(sessionId: string, attemptedCount: int, questionCount: int, timeLeft: Option<int>)
  datatype ResultData = ResultData(answer: string, solutionText: string)

  /** The body of a `getQuestion` response: the question, and session information when in a session. */
  datatype QuestionResponse = QuestionResponse(data: QuestionData, sessionInfo: Option<SessionInfo>)

  const FetchFailed := "Failed to fetch question. Please try again."
  const SubmitFailed := "Failed to submit answer. Please try again."
  const MissingId := "No session ID or question ID provided"

  /**
   * The component's state, plus what it did to the outside world: the URLs
   * requested, in order, and how often it asked the browser to reload.
   */
  datatype QuizState = QuizState(
    question: Option<QuestionData>,
    selectedOption: string,
    result: Option<ResultData>,
    loading: bool,
    error: Option<string>,
    sessionInfo: Option<SessionInfo>,
    questionTime: int,
    totalTime: Option<int>,
    requests: seq<string>,
    reloads: nat)

  function Initial(): QuizState {
    QuizState(None, "", None, true, None, None, 0, None, [], 0)
  }

  /** What the screen shows: the two early returns, then the question with or without its result. */
  datatype Phase = Loading | Failed(message: string) | AwaitingSelection | ShowingResult

  function PhaseOf(s: QuizState): Phase {
    if s.loading then Loading
    else if s.error.Some? then Failed(s.error.value)
    else if s.result.None? then AwaitingSelection
    else ShowingResult
  }

  // ------------------------------------------------------------ handlers

  /** `fetchQuestion(params)` once its request has settled. */
  function Fetched(s: QuizState, params: Api.QuestionParams, reply: Api.Reply<QuestionResponse>): (t: QuizState)
    ensures !t.loading && t.requests == s.requests + [Api.QuestionUrl(params)] && t.reloads == s.reloads
    ensures s.error.Some? ==> t.error.Some?
    ensures reply.Delivered? ==>
      && t.question == Some(reply.value.data)
      && t.selectedOption == "" && t.result.None? && t.questionTime == 0
      && t.error == s.error
      && (s.error.None? ==> PhaseOf(t) == AwaitingSelection)
    ensures reply.Delivered? ==>
      if reply.value.sessionInfo.Some? then
        t.sessionInfo == reply.value.sessionInfo && t.totalTime == reply.value.sessionInfo.value.timeLeft
      else
        t.sessionInfo == s.sessionInfo && t.totalTime == s.totalTime
    ensures reply.NetworkError? ==>
      PhaseOf(t) == Failed(FetchFailed) &&
      t == s.(loading := false, error := Some(FetchFailed), requests := t.requests)
  {
    var requested := s.(loading := true, requests := s.requests + [Api.QuestionUrl(params)]);
    match reply
    case Delivered(response) => QuestionShown(requested, response)
    case NetworkError => requested.(error := Some(FetchFailed), loading := false)
  }

  /** The delivered question on screen: session information taken when present, selection, result and timer reset. */
  function QuestionShown(s: QuizState, response: QuestionResponse): QuizState {
    var withQuestion := s.(question := Some(response.data));
    var withSession :=
      if response.sessionInfo.Some? then
        withQuestion.(sessionInfo := response.sessionInfo, totalTime := response.sessionInfo.value.timeLeft)
      else withQuestion;
    withSession.(loading := false, selectedOption := "", result := None, questionTime := 0)
  }

  /** `handleConfirm` once the submission has settled. */
  function Confirmed(s: QuizState, reply: Api.Reply<ResultData>): (t: QuizState)
    ensures s.selectedOption == "" ==> t == s
    ensures s.selectedOption != "" ==> !t.loading
    ensures s.selectedOption != "" && s.question.Some? ==>
      t.requests == s.requests + [Api.AnswerUrl(s.selectedOption, s.question.value.id)]
    ensures s.selectedOption != "" && s.question.Some? && reply.Delivered? ==>
      t == s.(result := Some(reply.value), loading := false, requests := t.requests) &&
      (s.error.None? ==> PhaseOf(t) == ShowingResult)
    ensures s.selectedOption != "" && (s.question.None? || reply.NetworkError?) ==>
      t.error == Some(SubmitFailed) && PhaseOf(t) == Failed(SubmitFailed) &&
      t.result == s.result && t.selectedOption == s.selectedOption
    ensures s.selectedOption != "" && s.question.None? ==>
      t == s.(error := Some(SubmitFailed), loading := false)
    ensures s.selectedOption != "" && s.question.Some? && reply.NetworkError? ==>
      t == s.(error := Some(SubmitFailed), loading := false, requests := t.requests)
    ensures s.error.Some? ==> t.error.Some?
  {
    if s.selectedOption == "" then s
    else if s.question.None? then
      // `question!.id` throws inside the try block, before any request
      s.(error := Some(SubmitFailed), loading := false)
    else
      var requested := s.(loading := true, requests := s.requests + [Api.AnswerUrl(s.selectedOption, s.question.value.id)]);
      match reply
      case Delivered(r) => requested.(result := Some(r), loading := false)
      case NetworkError => requested.(error := Some(SubmitFailed), loading := false)
  }

  /** The session parameters `handleNextQuestion` fetches with. */
  function SessionParams(info: SessionInfo): Api.QuestionParams {
    Api.QuestionParams(Some(info.sessionId), None)
  }

  /** `handleNextQuestion`: the next question of the session, or a page reload outside a session. */
  function NextRequested(s: QuizState, reply: Api.Reply<QuestionResponse>): (t: QuizState)
    ensures s.sessionInfo.Some? ==>
      t.requests == s.requests + [Api.QuestionUrl(SessionParams(s.sessionInfo.value))] && t.reloads == s.reloads
    ensures s.sessionInfo.Some? ==> t == Fetched(s, SessionParams(s.sessionInfo.value), reply)
    ensures s.sessionInfo.None? ==> t == s.(reloads := s.reloads + 1)
  {
    if s.sessionInfo.Some? then Fetched(s, SessionParams(s.sessionInfo.value), reply)
    else s.(reloads := s.reloads + 1)
  }

  /** The timer runs while in a session, not loading, and with no result shown. */
  predicate CanTick(s: QuizState) {
    s.sessionInfo.Some? && !s.loading && s.result.None?
  }

  /** One second of the interval: the question timer up by one, the session budget (if any) down by one. */
  function Ticked(s: QuizState): (t: QuizState)
    ensures t.questionTime == s.questionTime + 1
    ensures t.totalTime.Some? <==> s.totalTime.Some?
    ensures s.totalTime.Some? ==> t.totalTime.value == s.totalTime.value - 1
    ensures t.(questionTime := s.questionTime, totalTime := s.totalTime) == s
    ensures PhaseOf(t) == PhaseOf(s) && CanTick(t) == CanTick(s)
  {
    s.(questionTime := s.questionTime + 1,
       totalTime := if s.totalTime.Some? then Some(s.totalTime.value - 1) else None)
  }

  /** The mount effect as written: with no id the error is set but `loading` stays as it was. */
  function MountedAsWritten(s: QuizState, sessionId: Option<string>, questionId: Option<string>,
                            reply: Api.Reply<QuestionResponse>): QuizState
  {
    if Api.Truthy(sessionId) then Fetched(s, Api.QuestionParams(sessionId, None), reply)
    else if Api.Truthy(questionId) then Fetched(s, Api.QuestionParams(None, questionId), reply)
    else s.(error := Some(MissingId))
  }

  /** The mount effect with `loading` cleared next to the error, so that the message is shown. */
  function Mounted(s: QuizState, sessionId: Option<string>, questionId: Option<string>,
                   reply: Api.Reply<QuestionResponse>): (t: QuizState)
    ensures !t.loading
    ensures Api.Truthy(sessionId) ==> t == Fetched(s, Api.QuestionParams(sessionId, None), reply)
    ensures !Api.Truthy(sessionId) && Api.Truthy(questionId) ==> t == Fetched(s, Api.QuestionParams(None, questionId), reply)
    ensures !Api.Truthy(sessionId) && !Api.Truthy(questionId) ==>
      t == s.(error := Some(MissingId), loading := false) && PhaseOf(t) == Failed(MissingId)
    ensures s.error.Some? ==> t.error.Some?
  {
    if Api.Truthy(sessionId) then Fetched(s, Api.QuestionParams(sessionId, None), reply)
    else if Api.Truthy(questionId) then Fetched(s, Api.QuestionParams(None, questionId), reply)
    else s.(error := Some(MissingId), loading := false)
  }

  // ---------------------------------------------------------- option rows

  /** The number of option rows the letter mapping is modelled for: code points 65 to 127. */
  const AsciiOptions := 63

  /** `String.fromCharCode(65 + index)`: A, B, C, ... */
  function OptionLetter(index: nat): (c: char)
    requires index < AsciiOptions
    ensures c as int == 65 + index
    ensures index < 26 ==> 'A' <= c <= 'Z'
  {
    Js.FromCharCode(65 + index)
  }

  /** The row is checked: the selection equals the lower-case letter. */
  predicate IsSelected(selectedOption: string, index: nat)
    requires index < AsciiOptions
  {
    selectedOption == [Js.ToLower(OptionLetter(index))]
  }

  /** The row is marked correct: a result exists and its answer is the upper-case letter. */
  predicate IsCorrect(result: Option<ResultData>, index: nat)
    requires index < AsciiOptions
  {
    result.Some? && result.value.answer == [OptionLetter(index)]
  }

  /** Reference reading of an answer label: the row a single upper-case letter names. */
  function LetterIndex(answer: string): Option<nat> {
    if |answer| == 1 && 'A' <= answer[0] <= 'Z' then Some(answer[0] as int - 'A' as int) else None
  }

  /** Among the first 26 rows, the correct one is the row the answer letter names, and it is unique. */
  lemma CorrectRow(result: Option<ResultData>, i: nat, j: nat)
    requires i < 26 && j < 26
    ensures IsCorrect(result, i) <==> result.Some? && LetterIndex(result.value.answer) == Some(i)
    ensures IsCorrect(result, i) && IsCorrect(result, j) ==> i == j
  {
  }

  /** Choosing row i checks row j exactly when j is i, among the first 26 rows. */
  lemma SelectedRow(i: nat, j: nat)
    requires i < 26 && j < 26
    ensures IsSelected([Js.ToLower(OptionLetter(i))], j) <==> i == j
  {
    if IsSelected([Js.ToLower(OptionLetter(i))], j) {
      assert Js.ToLower(OptionLetter(i)) == Js.ToLower(OptionLetter(j));
    }
  }

  // ---------------------------------------------------------------- events

  datatype Event =
    | Mount(sessionId: Option<string>, questionId: Option<string>, reply: Api.Reply<QuestionResponse>)
    | SelectOption(index: nat)
    | Confirm(submission: Api.Reply<ResultData>)
    | NextQuestion(reply: Api.Reply<QuestionResponse>)
    | Tick

  /**
   * Whether the event can happen: the radio buttons are enabled and the
   * "Next" button is shown only while awaiting a selection, the
   * "Next Question" button only with a result, and the interval runs only
   * while `CanTick`.
   */
  predicate Enabled(s: QuizState, e: Event) {
    match e
    case Mount(_, _, _) => true
    case SelectOption(i) =>
      PhaseOf(s) == AwaitingSelection && s.question.Some? && i < |s.question.value.options| && i < AsciiOptions
    case Confirm(_) => PhaseOf(s) == AwaitingSelection
    case NextQuestion(_) => PhaseOf(s) == ShowingResult
    case Tick => CanTick(s)
  }

  /** One event; an event that cannot happen leaves the state as it is. */
  function Step(s: QuizState, e: Event): QuizState {
    if !Enabled(s, e) then s
    else match e
      case Mount(sid, qid, reply) => Mounted(s, sid, qid, reply)
      case SelectOption(i) => s.(selectedOption := [Js.ToLower(OptionLetter(i))])
      case Confirm(reply) => Confirmed(s, reply)
      case NextQuestion(reply) => NextRequested(s, reply)
      case Tick => Ticked(s)
  }

  function Run(s: QuizState, events: seq<Event>): QuizState
    decreases |events|
  {
    if events == [] then s else Run(Step(s, events[0]), events[1..])
  }

  /** A fetch or submit failure is terminal: no event ever clears the error or leaves the error screen. */
  lemma {:induction false} ErrorIsTerminal(s: QuizState, events: seq<Event>)
    requires PhaseOf(s).Failed?
    ensures Run(s, events).error.Some? && PhaseOf(Run(s, events)).Failed?
    decreases |events|
  {
    if events != [] {
      var t := Step(s, events[0]);
      assert PhaseOf(t).Failed?;
      ErrorIsTerminal(t, events[1..]);
    }
  }

  /**
   * "Next Question" in a session goes back to answering: the next question
   * is on screen with no selection, no result and the question timer at 0.
   */
  lemma NextQuestionShowsQuestion(s: QuizState, response: QuestionResponse)
    requires PhaseOf(s) == ShowingResult && s.sessionInfo.Some?
    ensures var t := Step(s, NextQuestion(Api.Delivered(response)));
      && PhaseOf(t) == AwaitingSelection
      && t.question == Some(response.data)
      && t.result.None? && t.selectedOption == "" && t.questionTime == 0
      && t.requests == s.requests + [Api.QuestionUrl(SessionParams(s.sessionInfo.value))]
  {
  }

  predicate Fetches(e: Event) {
    e.Mount? || e.NextQuestion?
  }

  /**
   * Once a result is shown, nothing changes until the next fetch: the
   * selection, the result and the timers are frozen and no answer is
   * submitted again.
   */
  lemma {:induction false} ResultFreezesScreen(s: QuizState, events: seq<Event>)
    requires PhaseOf(s) == ShowingResult
    requires forall k :: 0 <= k < |events| ==> !Fetches(events[k])
    ensures Run(s, events) == s
    decreases |events|
  {
    if events != [] {
      assert Step(s, events[0]) == s;
      ResultFreezesScreen(s, events[1..]);
    }
  }

  function Ticks(n: nat): (events: seq<Event>)
    ensures |events| == n && forall k :: 0 <= k < n ==> events[k] == Tick
  {
    if n == 0 then [] else [Tick] + Ticks(n - 1)
  }

  /** n seconds of an active timer: n more on the question timer, n fewer on the session budget. */
  lemma {:induction false} TicksAccumulate(s: QuizState, n: nat)
    requires CanTick(s)
    ensures Run(s, Ticks(n)).questionTime == s.questionTime + n
    ensures Run(s, Ticks(n)).totalTime == if s.totalTime.Some? then Some(s.totalTime.value - n) else None
    ensures Run(s, Ticks(n)).(questionTime := s.questionTime, totalTime := s.totalTime) == s
    decreases n
  {
    if n > 0 {
      var t := Ticked(s);
      assert Step(s, Tick) == t;
      assert Ticks(n)[1..] == Ticks(n - 1);
      TicksAccumulate(t, n - 1);
    }
  }

  /** As written, opening the screen without an id leaves it on "Loading..." with the message set but hidden. */
  lemma MissingIdHidden(sessionId: Option<string>, questionId: Option<string>, reply: Api.Reply<QuestionResponse>)
    requires !Api.Truthy(sessionId) && !Api.Truthy(questionId)
    ensures MountedAsWritten(Initial(), sessionId, questionId, reply).error == Some(MissingId)
    ensures PhaseOf(MountedAsWritten(Initial(), sessionId, questionId, reply)) == Loading
  {
  }

  /** ... and a loading screen stays exactly as it is under every event but a new mount. */
  lemma {:induction false} MissingIdStuck(s: QuizState, events: seq<Event>)
    requires s.loading
    requires forall k :: 0 <= k < |events| ==> !events[k].Mount?
    ensures Run(s, events) == s
    decreases |events|
  {
    if events != [] {
      assert Step(s, events[0]) == s;
      MissingIdStuck(s, events[1..]);
    }
  }

  /** With the correction, the missing-id message is what the screen shows. */
  lemma MissingIdShown(sessionId: Option<string>, questionId: Option<string>, reply: Api.Reply<QuestionResponse>)
    requires !Api.Truthy(sessionId) && !Api.Truthy(questionId)
    ensures PhaseOf(Step(Initial(), Mount(sessionId, questionId, reply))) == Failed(MissingId)
  {
  }

  // ------------------------------------------------------------ the timer text

  /** A number as text, padded on the left with zeros to at least two characters. */
  function TwoDigits(n: int): string {
    Js.PadStart(Js.IntToString(n), 2, '0')
  }

  /** `formatTime(seconds)`: minutes and seconds, each padded to two digits, joined by a colon. */
  function FormatTime(seconds: int): string {
    TwoDigits(Js.FloorDiv(seconds, 60)) + ":" + TwoDigits(Js.Rem(seconds, 60))
  }

  /**
   * Reference reader for `mm:ss`: minutes before the first colon, seconds
   * after it. A seconds field of 60 or more is not a timer text.
   */
  function ParseTime(t: string): Option<int> {
    match Text.IndexOf(t, ':')
    case None => None
    case Some(i) =>
      match (Text.ParseNat(t[..i]), Text.ParseNat(t[i + 1..]))
      case (Some(m), Some(sec)) => if sec < 60 then Some(m * 60 + sec) else None
      case _ => None
  }

  lemma TwoDigitsReadBack(n: nat)
    ensures Text.ParseNat(TwoDigits(n)) == Some(n) && ':' !in TwoDigits(n)
  {
    var p := TwoDigits(n);
    assert Js.IntToString(n) == Js.NatToString(n);
    Text.ReadNatToString(n);
    Text.ZeroPadding(Js.NatToString(n), 2);
    Text.DigitsLackChar(p, ':');
  }

  /** Below 100 the padded number is exactly two characters. */
  lemma TwoDigitsWidth(n: nat)
    requires n < 100
    ensures |TwoDigits(n)| == 2
  {
    assert Js.IntToString(n) == Js.NatToString(n);
    if 10 <= n {
      assert |Js.NatToString(n / 10)| == 1;
    }
  }

  lemma ReadTimeParts(mm: string, ss: string, m: nat, r: nat)
    requires Text.ParseNat(mm) == Some(m) && Text.ParseNat(ss) == Some(r) && ':' !in mm
    ensures ParseTime(mm + ":" + ss) == if r < 60 then Some(m * 60 + r) else None
  {
    var t := mm + ":" + ss;
    Text.IndexOfAfter(mm, ':', ss);
    assert t == mm + [':'] + ss;
    assert t[..|mm|] == mm;
    assert t[|mm| + 1..] == ss;
  }

  /** Below 100 minutes the timer text is exactly five characters, `mm:ss`. */
  lemma FormatTimeWidth(seconds: nat)
    requires seconds < 6000
    ensures |FormatTime(seconds)| == 5 && FormatTime(seconds)[2] == ':'
  {
    var m := Js.FloorDiv(seconds, 60);
    var r := Js.Rem(seconds, 60);
    assert 0 <= m < 100 && 0 <= r < 60;
    TwoDigitsWidth(m);
    TwoDigitsWidth(r);
    ColonAtTwo(TwoDigits(m), TwoDigits(r));
  }

  lemma ColonAtTwo(mm: string, ss: string)
    requires |mm| == 2 && |ss| == 2
    ensures |mm + ":" + ss| == 5 && (mm + ":" + ss)[2] == ':'
  {
  }

  /** For a non-negative count of seconds the timer text reads back as that count. */
  lemma FormatTimeReadBack(seconds: nat)
    ensures ParseTime(FormatTime(seconds)) == Some(seconds)
  {
    var m := Js.FloorDiv(seconds, 60);
    var r := Js.Rem(seconds, 60);
    assert 0 <= m && 0 <= r && m * 60 + r == seconds;
    TwoDigitsReadBack(m);
    TwoDigitsReadBack(r);
    ReadTimeParts(TwoDigits(m), TwoDigits(r), m, r);
    assert FormatTime(seconds) == TwoDigits(m) + ":" + TwoDigits(r);
  }

  // ------------------------------------------------------------- the component

  class QuizApp {
    var question: Option<QuestionData>
    var selectedOption: string
    var result: Option<ResultData>
    var loading: bool
    var error: Option<string>
    var sessionInfo: Option<SessionInfo>
    var questionTime: int
    var totalTime: Option<int>
    var requests: seq<string>
    var reloads: nat

    function State(): QuizState
      reads this
    {
      QuizState(question, selectedOption, result, loading, error, sessionInfo, questionTime, totalTime, requests, reloads)
    }

    constructor ()
      ensures State() == Initial()
    {
      question, selectedOption, result := None, "", None;
      loading, error := true, None;
      sessionInfo, questionTime, totalTime := None, 0, None;
      requests, reloads := [], 0;
    }

    method FetchQuestion(params: Api.QuestionParams, reply: Api.Reply<QuestionResponse>)
      modifies this
      ensures State() == Fetched(old(State()), params, reply)
    {
      loading := true;
      requests := requests + [Api.QuestionUrl(params)];
      match reply {
        case Delivered(response) =>
          ShowQuestion(response);
        case NetworkError =>
          error := Some(FetchFailed);
          loading := false;
      }
    }

    /** The success path of `fetchQuestion`, once the response is in. */
    method ShowQuestion(response: QuestionResponse)
      modifies this
      ensures State() == QuestionShown(old(State()), response)
    {
      question := Some(response.data);
      if response.sessionInfo.Some? {
        sessionInfo := response.sessionInfo;
        totalTime := response.sessionInfo.value.timeLeft;
      }
      loading := false;
      selectedOption := "";
      result := None;
      questionTime := 0;
    }

    /** The effect that runs on mount, with the search parameters of the page URL. */
    method Mount(sessionId: Option<string>, questionId: Option<string>, reply: Api.Reply<QuestionResponse>)
      modifies this
      ensures State() == Step(old(State()), Event.Mount(sessionId, questionId, reply))
    {
      if Api.Truthy(sessionId) {
        FetchQuestion(Api.QuestionParams(sessionId, None), reply);
      } else if Api.Truthy(questionId) {
        FetchQuestion(Api.QuestionParams(None, questionId), reply);
      } else {
        error := Some(MissingId);
        loading := false;
      }
    }

    method HandleOptionSelect(index: nat)
      requires Enabled(State(), SelectOption(index))
      modifies this
      ensures State() == Step(old(State()), SelectOption(index))
    {
      selectedOption := [Js.ToLower(OptionLetter(index))];
    }

    method HandleConfirm(reply: Api.Reply<ResultData>)
      requires Enabled(State(), Confirm(reply))
      modifies this
      ensures State() == Step(old(State()), Confirm(reply))
    {
      if selectedOption == "" {
        return;  // alert('Please select an option')
      }
      loading := true;
      if question.None? {
        error := Some(SubmitFailed);
        loading := false;
        return;
      }
      requests := requests + [Api.AnswerUrl(selectedOption, question.value.id)];
      match reply {
        case Delivered(r) =>
          result := Some(r);
          loading := false;
        case NetworkError =>
          error := Some(SubmitFailed);
          loading := false;
      }
    }

    method HandleNextQuestion(reply: Api.Reply<QuestionResponse>)
      requires Enabled(State(), NextQuestion(reply))
      modifies this
      ensures State() == Step(old(State()), NextQuestion(reply))
    {
      if sessionInfo.Some? {
        FetchQuestion(SessionParams(sessionInfo.value), reply);
      } else {
        reloads := reloads + 1;  // window.location.reload()
      }
    }

    /** The body of the one-second interval. */
    method Tick()
      requires CanTick(State())
      modifies this
      ensures State() == Step(old(State()), Event.Tick)
    {
      questionTime := questionTime + 1;
      if totalTime.Some? {
        totalTime := Some(totalTime.value - 1);
      }
    }
  }
}

/**
 * The sessions dashboard (app/dashboard/Dashboard.tsx): loading the list of
 * past sessions, sending the user to the session form when there is none,
 * and the per-session texts: duration, percentage, the section/topic label
 * and whether a Resume button is offered.
 */
module DashboardPage {
  import opened Wrappers
  import Js
  import Text
  import Api

  datatype Session = Session(
    sessionId: int,
    sections: Option<seq<string>>,
    topics: Option<seq<string>>,
    createdAt: string,
    duration: Option<int>,
    attemptedCount: int,
    questionCount: int,
    correctCount: int)

  // ------------------------------------------------------------- duration

  /** Whole hours of a duration in seconds. */
  function Hours(duration: int): int {
    Js.FloorDiv(duration, 3600)
  }

  /** Whole minutes left over after the hours. */
  function Minutes(duration: int): int {
    Js.FloorDiv(Js.Rem(duration, 3600), 60)
  }

  /**
   * For a non-negative duration the breakdown is exact up to the dropped
   * seconds: fewer than 60 minutes, and hours and minutes together are the
   * duration in whole minutes.
   */
  lemma DurationBreakdown(duration: nat)
    ensures 0 <= Hours(duration) && 0 <= Minutes(duration) < 60
    ensures 3600 * Hours(duration) + 60 * Minutes(duration) <= duration
    ensures duration < 3600 * Hours(duration) + 60 * Minutes(duration) + 60
    ensures Hours(duration) * 60 + Minutes(duration) == duration / 60
  {
    var h := Hours(duration);
    var rest := Js.Rem(duration, 3600);
    var m := Minutes(duration);
    assert rest == duration - 3600 * h && 0 <= rest < 3600;
    assert 60 * m <= rest < 60 * m + 60;
    assert 0 <= m < 60;
  }

  /** `formatDuration`: "Untimed", "<m>mins", or "<h>h <m>mins". */
  function FormatDuration(duration: Option<int>): (shown: string)
    ensures duration.None? <==> shown == "Untimed"
  {
    match duration
    case None => "Untimed"
    case Some(d) =>
      var text :=
        if Hours(d) == 0 then Js.IntToString(Minutes(d)) + "mins"
        else Js.IntToString(Hours(d)) + "h " + Js.IntToString(Minutes(d)) + "mins";
      assert text[|text| - 4..] == "mins";
      assert "Untimed"[3..] != "mins";
      text
  }

  /** Reference reader for the duration text: the total number of whole minutes it shows. */
  function ParseDuration(text: string): Option<int> {
    if |text| < 4 || text[|text| - 4..] != "mins" then None
    else ParseHoursMinutes(text[..|text| - 4])
  }

  /** Reads `<m>` or `<h>h <m>` as a number of minutes. */
  function ParseHoursMinutes(body: string): Option<int> {
    match Text.IndexOf(body, 'h')
    case None => Text.ParseNat(body)
    case Some(i) =>
      if i + 1 < |body| && body[i + 1] == ' ' then
        match (Text.ParseNat(body[..i]), Text.ParseNat(body[i + 2..]))
        case (Some(h), Some(m)) => Some(h * 60 + m)
        case _ => None
      else None
  }

  lemma ReadMinutesSuffix(body: string)
    ensures ParseDuration(body + "mins") == ParseHoursMinutes(body)
  {
    var text := body + "mins";
    assert text[..|text| - 4] == body;
    assert text[|text| - 4..] == "mins";
  }

  lemma ReadHoursAndMinutes(hs: string, ms: string, h: nat, m: nat)
    requires Text.ParseNat(hs) == Some(h) && Text.ParseNat(ms) == Some(m)
    ensures ParseHoursMinutes(hs + "h " + ms) == Some(h * 60 + m)
  {
    var body := hs + "h " + ms;
    Text.DigitsLackChar(hs, 'h');
    assert body == hs + ['h'] + (" " + ms);
    Text.IndexOfAfter(hs, 'h', " " + ms);
    assert body[..|hs|] == hs;
    assert body[|hs| + 1] == ' ';
    assert body[|hs| + 2..] == ms;
  }

  lemma ReadMinutesOnly(ms: string, m: nat)
    requires Text.ParseNat(ms) == Some(m)
    ensures ParseHoursMinutes(ms) == Some(m)
  {
    Text.DigitsLackChar(ms, 'h');
  }

  /** The hours-and-minutes text after "mins" is stripped: `<m>` or `<h>h <m>`. */
  function DurationBody(h: int, m: int): string {
    if h == 0 then Js.IntToString(m) else Js.IntToString(h) + "h " + Js.IntToString(m)
  }

  lemma DurationText(duration: int)
    ensures FormatDuration(Some(duration)) == DurationBody(Hours(duration), Minutes(duration)) + "mins"
  {
  }

  lemma ReadDurationBody(h: nat, m: nat)
    ensures ParseHoursMinutes(DurationBody(h, m)) == Some(h * 60 + m)
  {
    var hs, ms := Js.NatToString(h), Js.NatToString(m);
    Text.ReadNatToString(m);
    if h == 0 {
      ReadMinutesOnly(ms, m);
    } else {
      Text.ReadNatToString(h);
      ReadHoursAndMinutes(hs, ms, h, m);
    }
  }

  /** The duration text of a non-negative duration reads back as the duration in whole minutes. */
  lemma FormatDurationReadBack(duration: nat)
    ensures ParseDuration(FormatDuration(Some(duration))) == Some(duration / 60)
  {
    DurationBreakdown(duration);
    var body := DurationBody(Hours(duration), Minutes(duration));
    DurationText(duration);
    ReadMinutesSuffix(body);
    ReadDurationBody(Hours(duration), Minutes(duration));
  }

  // ------------------------------------------------------ percentage, resume

  /** What `calculatePercentCorrect` shows; the two-decimal percentage text itself is not modelled. */
  datatype PercentLabel = Unlimited | Percent(correct: int, attempted: int)

  function PercentCorrect(correct: int, attempted: int): (shown: PercentLabel)
    ensures shown.Unlimited? <==> attempted == 0
    ensures shown.Percent? ==> shown.correct == correct && shown.attempted == attempted != 0
  {
    if attempted == 0 then Unlimited else Percent(correct, attempted)
  }

  /** The Resume button is shown for a session not yet attempted or not yet finished. */
  predicate ShowResume(s: Session) {
    s.attemptedCount == 0 || s.attemptedCount != s.questionCount
  }

  /**
   * Resume is hidden exactly for a finished session with at least one
   * question attempted, and such a session always shows a percentage.
   */
  lemma ResumeHiddenWhenFinished(s: Session)
    ensures !ShowResume(s) <==> s.attemptedCount == s.questionCount && s.questionCount != 0
    ensures !ShowResume(s) ==> PercentCorrect(s.correctCount, s.attemptedCount).Percent?
    ensures s.attemptedCount == 3 && s.questionCount == 10 ==> ShowResume(s)
  {
  }

  // ---------------------------------------------------------------- label

  /** The label line: sections joined by " / ", a " / " if both lists exist, then the topics. */
  function SessionLabel(sections: Option<seq<string>>, topics: Option<seq<string>>): (shown: string)
    ensures sections.None? && topics.None? ==> shown == ""
    ensures sections.Some? && topics.None? ==> shown == Js.Join(sections.value, " / ")
    ensures sections.None? && topics.Some? ==> shown == Js.Join(topics.value, " / ")
    ensures sections.Some? && topics.Some? ==>
      shown == Js.Join(sections.value, " / ") + " / " + Js.Join(topics.value, " / ")
  {
    (if sections.Some? then Js.Join(sections.value, " / ") else "") +
    (if sections.Some? && topics.Some? then " / " else "") +
    (if topics.Some? then Js.Join(topics.value, " / ") else "")
  }

  /**
   * With both lists present and non-empty the label reads as one
   * " / "-separated list, sections first; an empty but present list still
   * contributes its separator.
   */
  lemma LabelIsOneList(sections: seq<string>, topics: seq<string>)
    ensures sections != [] && topics != [] ==>
      SessionLabel(Some(sections), Some(topics)) == Js.Join(sections + topics, " / ")
    ensures sections == [] ==> SessionLabel(Some(sections), Some(topics)) == " / " + Js.Join(topics, " / ")
  {
    if sections != [] && topics != [] {
      Js.JoinAppend(sections, topics, " / ");
    }
  }

  // ------------------------------------------------------------ the page

  const LoadFailed := "Failed to load sessions. Please try again later."
  const CreateSessionPath := "/create-session"

  /** What `getSessions` delivered in `data`: an array of sessions, or anything else. */
  datatype SessionsBody = SessionList(items: seq<Session>) | NotAList

  /** The page state, plus the router pushes it made, in order. */
  datatype DashboardState = DashboardState(
    sessions: seq<Session>,
    loading: bool,
    error: Option<string>,
    navigations: seq<string>)

  function InitialDashboard(): DashboardState {
    DashboardState([], true, None, [])
  }

  /** The redirect effect: once loading is over with no sessions, go to the session form. */
  function Redirected(s: DashboardState): (t: DashboardState)
    ensures t.(navigations := s.navigations) == s
    ensures !s.loading && s.sessions == [] ==> t.navigations == s.navigations + [CreateSessionPath]
    ensures s.loading || s.sessions != [] ==> t.navigations == s.navigations
  {
    if !s.loading && s.sessions == [] then s.(navigations := s.navigations + [CreateSessionPath]) else s
  }

  /** `fetchSessions` once its request has settled, followed by the redirect effect. */
  function SessionsFetched(s: DashboardState, reply: Api.Reply<SessionsBody>): (t: DashboardState)
    ensures !t.loading
    ensures reply.Delivered? && reply.value.SessionList? ==>
      t.sessions == reply.value.items && t.error == s.error
    ensures !(reply.Delivered? && reply.value.SessionList?) ==>
      t.sessions == s.sessions && t.error == Some(LoadFailed)
    ensures t.navigations == s.navigations + (if t.sessions == [] then [CreateSessionPath] else [])
  {
    var settled :=
      match reply
      case Delivered(SessionList(items)) => s.(sessions := items)
      case _ => s.(error := Some(LoadFailed));
    Redirected(settled.(loading := false))
  }

  /**
   * On the first load the page navigates to the session form exactly when
   * it did not receive at least one session, including after a failure.
   */
  lemma FirstLoadRedirect(reply: Api.Reply<SessionsBody>)
    ensures var t := SessionsFetched(InitialDashboard(), reply);
      (t.navigations == [CreateSessionPath]) <==> !(reply.Delivered? && reply.value.SessionList? && reply.value.items != [])
    ensures var t := SessionsFetched(InitialDashboard(), reply);
      t.navigations == [] <==> reply.Delivered? && reply.value.SessionList? && reply.value.items != []
  {
  }

  class Dashboard {
    var sessions: seq<Session>
    var loading: bool
    var error: Option<string>
    var navigations: seq<string>

    function State(): DashboardState
      reads this
    {
      DashboardState(sessions, loading, error, navigations)
    }

    constructor ()
      ensures State() == InitialDashboard()
    {
      sessions, loading, error, navigations := [], true, None, [];
    }

    /** The effect on `[loading, sessions]`. */
    method RedirectIfEmpty()
      modifies this
      ensures State() == Redirected(old(State()))
    {
      if !loading && |sessions| == 0 {
        navigations := navigations + [CreateSessionPath];
      }
    }

    method FetchSessions(reply: Api.Reply<SessionsBody>)
      modifies this
      ensures State() == SessionsFetched(old(State()), reply)
    {
      loading := true;
      match reply {
        case Delivered(SessionList(items)) =>
          sessions := items;
        case _ =>
          error := Some(LoadFailed);  // the thrown 'Invalid response format' lands here too
      }
      loading := false;  // finally
      RedirectIfEmpty();
    }
  }
}

/**
 * The session form (app/create-session/CreateSession.tsx): the chosen
 * sections and topics, the question-count and duration choices, and the
 * request `handleStart` sends to create the session.
 */
module SessionSetup {
  import opened Wrappers
  import Js
  import Api
  import Selection
  import DashboardPage

  datatype Section = Section(sectionId: int, title: string, count: int)
  datatype Topic = Topic(topicId: int, title: string, count: int)

  function SectionKey(s: Section): int { s.sectionId }
  function TopicKey(t: Topic): int { t.topicId }

  datatype QuestionOption = AllQuestions | IncorrectOnly | ManualCount
  datatype DurationOption = UnlimitedTime | ManualDuration

  /** The body of the `POST /mockme/session` request. */
  datatype SessionRequest = SessionRequest(
    topicIds: seq<int>,
    sectionIds: seq<int>,
    numberOfQuestions: Option<int>,
    durationSeconds: Option<int>)

  /** The request `handleStart` builds from the form. */
  function BuildRequest(
    selectedTopics: seq<Topic>, selectedSections: seq<Section>,
    questionOption: QuestionOption, manualQuestionCount: int,
    durationOption: DurationOption, hours: int, minutes: int): (r: SessionRequest)
    ensures |r.topicIds| == |selectedTopics| && forall i :: 0 <= i < |selectedTopics| ==> r.topicIds[i] == selectedTopics[i].topicId
    ensures |r.sectionIds| == |selectedSections| && forall i :: 0 <= i < |selectedSections| ==> r.sectionIds[i] == selectedSections[i].sectionId
    ensures r.numberOfQuestions.Some? <==> questionOption == ManualCount
    ensures r.numberOfQuestions.Some? ==> r.numberOfQuestions.value == manualQuestionCount
    ensures r.durationSeconds.Some? <==> durationOption == ManualDuration
    ensures r.durationSeconds.Some? ==> r.durationSeconds.value == hours * 3600 + minutes * 60
  {
    SessionRequest(
      Selection.Keys(selectedTopics, TopicKey),
      Selection.Keys(selectedSections, SectionKey),
      if questionOption == ManualCount then Some(manualQuestionCount) else None,
      if durationOption == ManualDuration then Some(hours * 3600 + minutes * 60) else None)
  }

  /**
   * The duration sent is the one the dashboard later shows: with the form's
   * bounds (hours from 0, minutes 0 to 59) the dashboard's breakdown gives
   * back the hours and minutes entered, and an unlimited session shows as
   * "Untimed".
   */
  lemma DurationShownBack(hours: int, minutes: int)
    requires 0 <= hours && 0 <= minutes <= 59
    ensures var r := BuildRequest([], [], AllQuestions, 1, ManualDuration, hours, minutes);
      DashboardPage.Hours(r.durationSeconds.value) == hours &&
      DashboardPage.Minutes(r.durationSeconds.value) == minutes
    ensures DashboardPage.FormatDuration(BuildRequest([], [], AllQuestions, 1, UnlimitedTime, hours, minutes).durationSeconds) == "Untimed"
  {
    var d := hours * 3600 + minutes * 60;
    DashboardPage.DurationBreakdown(d);
    var h, m := DashboardPage.Hours(d), DashboardPage.Minutes(d);
    assert h == hours by {
      if h < hours {
        assert false;
      } else if h > hours {
        assert false;
      }
    }
  }

  /** The session quiz page the form navigates to once the session exists. */
  function QuizPath(sessionId: int): string {
    "/quiz?session_id=" + Js.IntToString(sessionId)
  }

  /** What `createSession` delivered: the new session's id. */
  datatype CreatedSession = CreatedSession(sessionId: int)

  class CreateSession {
    var selectedSections: seq<Section>
    var selectedTopics: seq<Topic>
    var questionOption: QuestionOption
    var manualQuestionCount: int
    var durationOption: DurationOption
    var hours: int
    var minutes: int
    var sent: seq<SessionRequest>
    var navigations: seq<string>

    /** The request the form would send now. */
    function Request(): SessionRequest
      reads this
    {
      BuildRequest(selectedTopics, selectedSections, questionOption, manualQuestionCount, durationOption, hours, minutes)
    }

    /** The form's initial values. */
    constructor ()
      ensures selectedSections == [] && selectedTopics == []
      ensures questionOption == AllQuestions && manualQuestionCount == 1
      ensures durationOption == UnlimitedTime && hours == 1 && minutes == 0
      ensures sent == [] && navigations == []
    {
      selectedSections, selectedTopics := [], [];
      questionOption, manualQuestionCount := AllQuestions, 1;
      durationOption, hours, minutes := UnlimitedTime, 1, 0;
      sent, navigations := [], [];
    }

    /** `handleSectionSelect`: deselect every entry with the section's id, or append the section. */
    method HandleSectionSelect(section: Section)
      modifies this`selectedSections
      ensures selectedSections == Selection.Toggle(old(selectedSections), section, SectionKey)
    {
      var isSelected := Selection.HasKey(selectedSections, section.sectionId, SectionKey);
      if isSelected {
        selectedSections := Selection.Without(selectedSections, section.sectionId, SectionKey);
      } else {
        selectedSections := selectedSections + [section];
      }
    }

    /** `handleTopicSelect`: the same toggle, keyed on the topic id. */
    method HandleTopicSelect(topic: Topic)
      modifies this`selectedTopics
      ensures selectedTopics == Selection.Toggle(old(selectedTopics), topic, TopicKey)
    {
      var isSelected := Selection.HasKey(selectedTopics, topic.topicId, TopicKey);
      if isSelected {
        selectedTopics := Selection.Without(selectedTopics, topic.topicId, TopicKey);
      } else {
        selectedTopics := selectedTopics + [topic];
      }
    }

    /** The question-count radio buttons. */
    method SetQuestionOption(option: QuestionOption)
      modifies this`questionOption
      ensures questionOption == option
    {
      questionOption := option;
    }

    /** The question-count input, its value already parsed. */
    method SetManualQuestionCount(count: int)
      modifies this`manualQuestionCount
      ensures manualQuestionCount == count
    {
      manualQuestionCount := count;
    }

    /** The duration radio buttons. */
    method SetDurationOption(option: DurationOption)
      modifies this`durationOption
      ensures durationOption == option
    {
      durationOption := option;
    }

    /** The hours input, its value already parsed. */
    method SetHours(h: int)
      modifies this`hours
      ensures hours == h
    {
      hours := h;
    }

    /** The minutes input, its value already parsed. */
    method SetMinutes(m: int)
      modifies this`minutes
      ensures minutes == m
    {
      minutes := m;
    }

    /** `handleStart`: send the request; on success go to the new session's quiz, on failure stay. */
    method HandleStart(reply: Api.Reply<CreatedSession>)
      modifies this`sent, this`navigations
      ensures sent == old(sent) + [Request()]
      ensures reply.Delivered? ==> navigations == old(navigations) + [QuizPath(reply.value.sessionId)]
      ensures reply.NetworkError? ==> navigations == old(navigations)
    {
      var request := BuildRequest(selectedTopics, selectedSections, questionOption, manualQuestionCount,
                                  durationOption, hours, minutes);
      sent := sent + [request];
      match reply {
        case Delivered(created) =>
          navigations := navigations + [QuizPath(created.sessionId)];
        case NetworkError =>
      }
    }
  }
}

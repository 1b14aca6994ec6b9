/**
 * The REST client wrapper (app/utils/api.tsx): the URLs the endpoint helpers
 * build, the request interceptor that attaches the bearer token, and the
 * response-error interceptor that evicts the token on a 401-coded body.
 * The HTTP round trip itself is not modelled: a call's outcome is an input,
 * a `Reply`.
 */
module Api {
  import opened Wrappers
  import Text

  /** What an awaited request yields: the response body, or a thrown error. */
  datatype Reply<+T> = Delivered(value: T) | NetworkError

  /** JavaScript truthiness of an optional string: present and non-empty. */
  predicate Truthy(s: Option<string>) {
    s.Some? && s.value != ""
  }

  // ---------------------------------------------------------------- URLs

  const QuestionPath := "/mockme/question"
  const SessionQuery := "/mockme/question?session_id="
  const QuestionQuery := "/mockme/question?question_id="
  const AnswerQuery := "/mockme/answer?option="
  const AnswerSeparator := "&question_id="
  const SectionsPath := "/mockme/sections"
  const TopicsPath := "/mockme/topics"

  datatype QuestionParams = QuestionParams(sessionId: Option<string>, questionId: Option<string>)

  /** Which question the server is asked for. */
  datatype QuestionTarget = BySession(sessionId: string) | ByQuestion(questionId: string) | Unscoped

  /** The question `getQuestion` asks for: a session id wins over a question id; empty ids count as absent. */
  function Target(p: QuestionParams): (t: QuestionTarget)
    ensures t.BySession? <==> Truthy(p.sessionId)
    ensures t.ByQuestion? <==> !Truthy(p.sessionId) && Truthy(p.questionId)
    ensures t.BySession? ==> t.sessionId == p.sessionId.value
    ensures t.ByQuestion? ==> t.questionId == p.questionId.value
  {
    if Truthy(p.sessionId) then BySession(p.sessionId.value)
    else if Truthy(p.questionId) then ByQuestion(p.questionId.value)
    else Unscoped
  }

  /** The URL `getQuestion` requests. */
  function QuestionUrl(p: QuestionParams): string {
    var url := QuestionPath;
    if Truthy(p.sessionId) then url + "?session_id=" + p.sessionId.value
    else if Truthy(p.questionId) then url + "?question_id=" + p.questionId.value
    else url
  }

  /** Reference reader: which question a `/mockme/question` URL asks for. */
  function ParseQuestionUrl(url: string): Option<QuestionTarget> {
    if url == QuestionPath then Some(Unscoped)
    else if SessionQuery <= url then Some(BySession(url[|SessionQuery|..]))
    else if QuestionQuery <= url then Some(ByQuestion(url[|QuestionQuery|..]))
    else None
  }

  /** The three URL shapes never collide: reading the URL back recovers exactly the target. */
  lemma QuestionUrlReadBack(p: QuestionParams)
    ensures ParseQuestionUrl(QuestionUrl(p)) == Some(Target(p))
  {
    var url := QuestionUrl(p);
    match Target(p)
    case BySession(id) =>
      assert url == SessionQuery + id;
      assert url[..|SessionQuery|] == SessionQuery;
    case ByQuestion(id) =>
      assert url == QuestionQuery + id;
      assert url[..|QuestionQuery|] == QuestionQuery;
      assert url[17] == 'q' && SessionQuery[17] == 's';
    case Unscoped =>
  }

  /** The URL `submitAnswer` requests; the values are pasted in without escaping. */
  function AnswerUrl(option: string, questionId: string): string {
    AnswerQuery + option + AnswerSeparator + questionId
  }

  /** Reference reader: the option and question id of an answer URL, split at the first `&`. */
  function ParseAnswerUrl(url: string): Option<(string, string)> {
    if AnswerQuery <= url then SplitAnswerQuery(url[|AnswerQuery|..]) else None
  }

  /** Splits `<option>&question_id=<id>` at its first `&`. */
  function SplitAnswerQuery(rest: string): Option<(string, string)> {
    match Text.IndexOf(rest, '&')
    case None => None
    case Some(i) =>
      if AnswerSeparator <= rest[i..] then Some((rest[..i], rest[i + |AnswerSeparator|..]))
      else None
  }

  /** An option without `&` and any question id are recovered from the answer URL. */
  lemma AnswerUrlReadBack(option: string, questionId: string)
    requires '&' !in option
    ensures ParseAnswerUrl(AnswerUrl(option, questionId)) == Some((option, questionId))
  {
    var rest := option + AnswerSeparator + questionId;
    var url := AnswerQuery + rest;
    assert AnswerUrl(option, questionId) == url;
    assert url[..|AnswerQuery|] == AnswerQuery;
    assert url[|AnswerQuery|..] == rest;
    SplitReadBack(option, questionId);
  }

  lemma SplitReadBack(option: string, questionId: string)
    requires '&' !in option
    ensures SplitAnswerQuery(option + AnswerSeparator + questionId) == Some((option, questionId))
  {
    assert AnswerSeparator[0] == '&';
    SplitAtAmpersand(option, AnswerSeparator, questionId);
  }

  /** The first `&` of `a + sep + b` is where `sep` starts, when `sep` starts with the only `&` before it. */
  lemma SplitAtAmpersand(a: string, sep: string, b: string)
    requires |sep| > 0 && sep[0] == '&' && '&' !in a
    ensures var rest := a + sep + b;
      && Text.IndexOf(rest, '&') == Some(|a|)
      && sep <= rest[|a|..]
      && rest[..|a|] == a
      && rest[|a| + |sep|..] == b
  {
    var rest := a + sep + b;
    var tail := sep[1..] + b;
    assert rest == a + ['&'] + tail;
    Text.IndexOfAfter(a, '&', tail);
    assert rest[|a|..] == sep + b;
  }

  /** A catalogue URL with an optional search parameter (`getSections`, `getTopics`). */
  function SearchUrl(path: string, key: string, term: string): string {
    if term != "" then path + "?" + key + "=" + term else path
  }

  /** Reference reader: the search term of a catalogue URL. */
  function SearchTermOf(path: string, key: string, url: string): Option<string> {
    var prefix := path + "?" + key + "=";
    if url == path then Some("")
    else if prefix <= url then Some(url[|prefix|..])
    else None
  }

  /** The term is appended verbatim: reading it back gives exactly the term typed. */
  lemma SearchUrlReadBack(path: string, key: string, term: string)
    ensures SearchTermOf(path, key, SearchUrl(path, key, term)) == Some(term)
  {
    if term != "" {
      var prefix := path + "?" + key + "=";
      assert SearchUrl(path, key, term) == prefix + term;
      assert (prefix + term)[..|prefix|] == prefix;
    }
  }

  /** The URL `getSections(term)` requests. */
  function SectionsUrl(term: string): (url: string)
    ensures term == "" <==> url == SectionsPath
    ensures SearchTermOf(SectionsPath, "search_section", url) == Some(term)
  {
    SearchUrlReadBack(SectionsPath, "search_section", term);
    SearchUrl(SectionsPath, "search_section", term)
  }

  /** The URL `getTopics(term)` requests. */
  function TopicsUrl(term: string): (url: string)
    ensures term == "" <==> url == TopicsPath
    ensures SearchTermOf(TopicsPath, "search_topic", url) == Some(term)
  {
    SearchUrlReadBack(TopicsPath, "search_topic", term);
    SearchUrl(TopicsPath, "search_topic", term)
  }

  // -------------------------------------------------------- interceptors

  const TokenKey := "jwt_token"
  const AuthorizationHeader := "Authorization"

  /** The browser-global state the interceptors touch. `hasWindow` is false during server rendering. */
  datatype BrowserState = BrowserState(hasWindow: bool, storage: map<string, string>, location: string)

  /** `localStorage.getItem('jwt_token')` is truthy, and the code runs in a browser. */
  predicate HasToken(b: BrowserState) {
    b.hasWindow && TokenKey in b.storage && b.storage[TokenKey] != ""
  }

  /** The headers after the request interceptor; `None` is a config without a headers object. */
  function Authorized(b: BrowserState, headers: Option<map<string, string>>): (h: Option<map<string, string>>)
    ensures h.Some? <==> headers.Some?
    ensures !HasToken(b) ==> h == headers
    ensures HasToken(b) && headers.Some? ==>
      h.value.Keys == headers.value.Keys + {AuthorizationHeader} &&
      h.value[AuthorizationHeader] == "Bearer " + b.storage[TokenKey] &&
      forall name :: name in headers.value && name != AuthorizationHeader ==> h.value[name] == headers.value[name]
  {
    if HasToken(b) && headers.Some? then
      Some(headers.value[AuthorizationHeader := "Bearer " + b.storage[TokenKey]])
    else headers
  }

  /** Intercepting a request twice is the same as intercepting it once. */
  lemma AuthorizedIdempotent(b: BrowserState, headers: Option<map<string, string>>)
    ensures Authorized(b, Authorized(b, headers)) == Authorized(b, headers)
  {
    if HasToken(b) && headers.Some? {
      var m := headers.value[AuthorizationHeader := "Bearer " + b.storage[TokenKey]];
      assert m[AuthorizationHeader := "Bearer " + b.storage[TokenKey]] == m;
    }
  }

  /** A value of the `code` field of an error body, as JSON gives it. */
  datatype JsonValue = Number(n: int) | Text(s: string) | Other

  /** An axios error: the parsed body of the error response, if there was one. */
  datatype ApiError = ApiError(responseData: Option<map<string, JsonValue>>)

  /** `error.response?.data && error.response.data.code === 401` (strict: the string "401" does not count). */
  predicate IsUnauthorized(e: ApiError) {
    e.responseData.Some? && "code" in e.responseData.value && e.responseData.value["code"] == Number(401)
  }

  /** The browser state after the response-error interceptor. */
  function AfterError(b: BrowserState, e: ApiError): (b': BrowserState)
    ensures b'.hasWindow == b.hasWindow
    ensures IsUnauthorized(e) && b.hasWindow ==>
      b'.storage.Keys == b.storage.Keys - {TokenKey} && b'.location == "/" &&
      forall k :: k in b'.storage ==> b'.storage[k] == b.storage[k]
    ensures !(IsUnauthorized(e) && b.hasWindow) ==> b' == b
  {
    if IsUnauthorized(e) && b.hasWindow then b.(storage := b.storage - {TokenKey}, location := "/")
    else b
  }

  /** After a 401, later requests carry no bearer token. */
  lemma EvictionStopsAuthorization(b: BrowserState, e: ApiError, headers: Option<map<string, string>>)
    requires IsUnauthorized(e)
    ensures Authorized(AfterError(b, e), headers) == headers
  {
  }

  /** The eviction happens once: a second 401 changes nothing more. */
  lemma EvictionIdempotent(b: BrowserState, e: ApiError)
    ensures AfterError(AfterError(b, e), e) == AfterError(b, e)
  {
  }

  /** `window` with its `localStorage` and `location`. */
  class Browser {
    var hasWindow: bool
    var storage: map<string, string>
    var location: string

    function State(): BrowserState
      reads this
    {
      BrowserState(hasWindow, storage, location)
    }

    constructor (hasWindow: bool, storage: map<string, string>, location: string)
      ensures State() == BrowserState(hasWindow, storage, location)
    {
      this.hasWindow := hasWindow;
      this.storage := storage;
      this.location := location;
    }

    /** The response-error interceptor: evicts the token on a 401 body, then rethrows the error. */
    method InterceptError(e: ApiError) returns (rejected: ApiError)
      modifies this
      ensures rejected == e
      ensures State() == AfterError(old(State()), e)
    {
      if IsUnauthorized(e) {
        if hasWindow {
          storage := storage - {TokenKey};
          location := "/";
        }
      }
      rejected := e;
    }
  }

  /** An axios request config; only its headers matter here. */
  class RequestConfig {
    var headers: Option<map<string, string>>

    constructor (headers: Option<map<string, string>>)
      ensures this.headers == headers
    {
      this.headers := headers;
    }
  }

  /** The request interceptor: attaches `Bearer <token>` in place and hands the same config on. */
  method InterceptRequest(browser: Browser, config: RequestConfig) returns (out: RequestConfig)
    modifies config
    ensures out == config
    ensures config.headers == Authorized(browser.State(), old(config.headers))
  {
    if browser.hasWindow {
      if TokenKey in browser.storage && browser.storage[TokenKey] != "" && config.headers.Some? {
        config.headers := Some(config.headers.value[AuthorizationHeader := "Bearer " + browser.storage[TokenKey]]);
      }
    }
    out := config;
  }
}

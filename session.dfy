/** The review session: the component's six state cells, what each event
    does to them, and the `ReviewSession` object whose handlers update the
    cells in place as the component's setters do. */
module Session {
  import opened ReviewTypes
  import Text
  import Prompt
  import Report

  /** The state cells of the component. */
  datatype SessionState = SessionState(
    code: string,
    language: string,
    review: Option<Review>,
    isLoading: bool,
    error: Option<string>,
    activeTab: Tab)

  /** The state on first render. */
  const Initial: SessionState := SessionState("", "javascript", None, false, None, Overall)

  const EmptyCodeMessage: string := "Please enter or upload some code to review."
  const MissingKeyMessage: string :=
    "API key is not configured. Please add VITE_GEMINI_API_KEY to your .env file."
  const NoReviewMessage: string := "Failed to get a valid review from the model."

  /** The message the `catch` block shows for an error with message `message`. */
  function Caught(message: string): string {
    "An error occurred: " + message
  }

  /** The message of the error thrown for a non-success HTTP status. */
  function HttpFailureMessage(message: string): string {
    "API request failed: " + message
  }

  /** What `JSON.parse` makes of a non-empty reply text. */
  datatype ParseOutcome = Parsed(review: Review) | ParseError(message: string)

  /** How the request settles, in place of the network call:
      - `HttpFailure`: the status is not ok and the body's `error.message` is `message`;
      - `Reply`: the status is ok, `jsonText` is the first candidate's first part's
        text (`None` when any link of that path is missing), and `parse` is what
        parsing it gives;
      - `Thrown`: the transport or reading the body failed with `message`. */
  datatype Outcome =
    | HttpFailure(message: string)
    | Reply(jsonText: Option<string>, parse: ParseOutcome)
    | Thrown(message: string)

  /** JavaScript truthiness of the reply text: present and non-empty. */
  predicate Truthy(text: Option<string>) {
    text.Some? && text.value != ""
  }

  /** The checks `handleReview` makes before any request: the error message
      it sets, or `None` when the submission passes. */
  function Validate(code: string, apiKey: string): (r: Option<string>)
    ensures r == None <==> !Text.IsBlank(code) && apiKey != ""
    ensures Text.IsBlank(code) ==> r == Some(EmptyCodeMessage)
    ensures !Text.IsBlank(code) && apiKey == "" ==> r == Some(MissingKeyMessage)
  {
    Text.TrimEmptyIffBlank(code);
    if Text.Trim(code) == "" then Some(EmptyCodeMessage)
    else if apiKey == "" then Some(MissingKeyMessage)
    else None
  }

  /** The state after pressing the review button, and the user query of the
      request it issues (`None` when it issues none). */
  datatype Submission = Submission(state: SessionState, request: Option<string>)

  /** The synchronous part of `handleReview`, up to issuing the request. */
  function Submit(s: SessionState, apiKey: string): (r: Submission)
    ensures r.request.Some? <==> !Text.IsBlank(s.code) && apiKey != ""
    ensures r.request.None? ==> r.state == s.(error := Validate(s.code, apiKey))
    ensures r.request.Some? ==>
      r.state == s.(isLoading := true, error := None, review := None, activeTab := Overall)
  {
    match Validate(s.code, apiKey)
    case Some(message) => Submission(s.(error := Some(message)), None)
    case None =>
      Submission(
        s.(isLoading := true, error := None, review := None, activeTab := Overall),
        Some(Prompt.UserQuery(s.language, s.code)))
  }

  /** The issued request embeds the editor's code verbatim in the query: the
      code is read back from it exactly. */
  lemma SubmitQuery(s: SessionState, apiKey: string)
    ensures var r := Submit(s, apiKey);
      r.request.Some? ==> Prompt.QueryCode(s.language, r.request.value) == Some(s.code)
  {
    Prompt.QueryCodeOfUserQuery(s.language, s.code);
  }

  /** A rejected submission only records the message. */
  lemma SubmitRejected(s: SessionState, apiKey: string)
    requires Validate(s.code, apiKey).Some?
    ensures Submit(s, apiKey) == Submission(s.(error := Validate(s.code, apiKey)), None)
  {
  }

  /** An accepted submission issues the user query and applies the resets. */
  lemma SubmitAccepted(s: SessionState, apiKey: string)
    requires Validate(s.code, apiKey) == None
    ensures Submit(s, apiKey)
      == Submission(SessionState(s.code, s.language, None, true, None, Overall), Some(Prompt.UserQuery(s.language, s.code)))
  {
  }

  /** The review an outcome delivers, if any. */
  function Delivered(o: Outcome): Option<Review> {
    if o.Reply? && Truthy(o.jsonText) && o.parse.Parsed? then Some(o.parse.review) else None
  }

  /** The error message an outcome leads to, if any. */
  function Failure(o: Outcome): Option<string> {
    match o
    case HttpFailure(message) => Some(Caught(HttpFailureMessage(message)))
    case Thrown(message) => Some(Caught(message))
    case Reply(text, parse) =>
      if !Truthy(text) then Some(NoReviewMessage)
      else if parse.ParseError? then Some(Caught(parse.message))
      else None
  }

  /** The rest of `handleReview` once the request settles with `o`, including
      the `finally` that clears the loading flag. */
  function Resolve(s: SessionState, o: Outcome): (r: SessionState)
    ensures !r.isLoading
    ensures r.code == s.code && r.language == s.language && r.activeTab == s.activeTab
    ensures r.review == (if Delivered(o).Some? then Delivered(o) else s.review)
    ensures r.error == (if Failure(o).Some? then Failure(o) else s.error)
    ensures Delivered(o).Some? <==> Failure(o).None?
  {
    match o
    case HttpFailure(message) =>
      s.(error := Some(Caught(HttpFailureMessage(message))), isLoading := false)
    case Reply(text, parse) =>
      if Truthy(text) then
        match parse
        case Parsed(review) => s.(review := Some(review), isLoading := false)
        case ParseError(message) => s.(error := Some(Caught(message)), isLoading := false)
      else s.(error := Some(NoReviewMessage), isLoading := false)
    case Thrown(message) =>
      s.(error := Some(Caught(message)), isLoading := false)
  }

  /** The report `handleDownload` offers: none without a review. */
  function DownloadText(s: SessionState): (r: Option<string>)
    ensures r.None? <==> s.review.None?
    ensures r.Some? ==> Report.StartsWith(r.value, Report.ReportHead(s.review.value, s.language))
  {
    if s.review.None? then None
    else
      Report.ReportFrame(s.review.value, s.language);
      Some(Report.ReportText(s.review.value, s.language))
  }

  // ---------------------------------------------------------------------
  // Event traces

  /** The events the page delivers to the component. */
  datatype Event =
    | EditCode(text: string)           // typing in the text area, or a file read completing
    | ChooseLanguage(language: string) // the language selector
    | PressReview                      // the review button
    | Respond(outcome: Outcome)        // the in-flight request settles
    | ClickTab(tab: Tab)               // a tab button

  /** The session state and the number of requests issued and not yet settled. */
  datatype Config = Config(state: SessionState, inFlight: nat)

  /** The tab bar is rendered only for a review shown without error or spinner. */
  predicate TabsShown(s: SessionState) {
    s.review.Some? && !s.isLoading && s.error.None?
  }

  /** Which events can happen: the review button is disabled while loading,
      only an issued request can settle, and tabs can only be clicked when shown. */
  predicate Enabled(c: Config, e: Event) {
    match e
    case PressReview => !c.state.isLoading
    case Respond(_) => c.inFlight > 0
    case ClickTab(_) => TabsShown(c.state)
    case _ => true
  }

  function Step(c: Config, e: Event, apiKey: string): Config
    requires Enabled(c, e)
  {
    match e
    case EditCode(text) => Config(c.state.(code := text), c.inFlight)
    case ChooseLanguage(language) => Config(c.state.(language := language), c.inFlight)
    case PressReview =>
      var sub := Submit(c.state, apiKey);
      Config(sub.state, c.inFlight + if sub.request.Some? then 1 else 0)
    case Respond(o) => Config(Resolve(c.state, o), c.inFlight - 1)
    case ClickTab(tab) => Config(c.state.(activeTab := tab), c.inFlight)
  }

  /** Runs a trace of events; `None` when some event of it cannot happen. */
  function Run(c: Config, events: seq<Event>, apiKey: string): Option<Config>
    decreases |events|
  {
    if events == [] then Some(c)
    else if !Enabled(c, events[0]) then None
    else Run(Step(c, events[0], apiKey), events[1..], apiKey)
  }

  /** The loading flag is up exactly while one request is in flight, and while
      it is up no review, no error and the overall tab are shown. */
  predicate Consistent(c: Config) {
    c.inFlight == (if c.state.isLoading then 1 else 0)
    && (c.state.isLoading ==> c.state.review.None? && c.state.error.None? && c.state.activeTab == Overall)
  }

  lemma StepConsistent(c: Config, e: Event, apiKey: string)
    requires Consistent(c) && Enabled(c, e)
    ensures Consistent(Step(c, e, apiKey))
  {
  }

  lemma {:induction false} RunConsistent(c: Config, events: seq<Event>, apiKey: string)
    requires Consistent(c)
    ensures Run(c, events, apiKey).Some? ==> Consistent(Run(c, events, apiKey).value)
    decreases |events|
  {
    if events != [] && Enabled(c, events[0]) {
      StepConsistent(c, events[0], apiKey);
      RunConsistent(Step(c, events[0], apiKey), events[1..], apiKey);
    }
  }

  /** From the first render, along any trace of events that can happen, at
      most one request is in flight, the loading flag is up exactly while one
      is, and while it is up nothing but the spinner is shown. */
  lemma AtMostOneInFlight(events: seq<Event>, apiKey: string)
    ensures var r := Run(Config(Initial, 0), events, apiKey);
      r.Some? ==> Consistent(r.value) && r.value.inFlight <= 1
  {
    RunConsistent(Config(Initial, 0), events, apiKey);
  }

  /** A passing submission followed by its outcome: loading ends, the overall
      tab is active, and exactly one of the review and the error message is
      set, as the outcome dictates. */
  lemma ReviewRound(s: SessionState, o: Outcome, apiKey: string)
    requires !s.isLoading && !Text.IsBlank(s.code) && apiKey != ""
    ensures var r := Run(Config(s, 0), [PressReview, Respond(o)], apiKey);
      r.Some? && r.value.inFlight == 0
      && r.value.state == s.(review := Delivered(o), error := Failure(o), isLoading := false, activeTab := Overall)
      && (r.value.state.review.Some? <==> r.value.state.error.None?)
  {
    var c1 := Step(Config(s, 0), PressReview, apiKey);
    assert c1.state == s.(isLoading := true, error := None, review := None, activeTab := Overall);
    assert [PressReview, Respond(o)][1..] == [Respond(o)];
    var c2 := Step(c1, Respond(o), apiKey);
    assert [Respond(o)][1..] == [];
    assert Run(c1, [Respond(o)], apiKey) == Run(c2, [], apiKey);
  }

  // ---------------------------------------------------------------------
  // The component object

  /** The component's state cells, updated in place by its handlers. */
  class ReviewSession {
    var code: string
    var language: string
    var review: Option<Review>
    var isLoading: bool
    var error: Option<string>
    var activeTab: Tab
    /** The configured access key; the empty string when none is configured. */
    const apiKey: string

    function State(): SessionState
      reads this
    {
      SessionState(code, language, review, isLoading, error, activeTab)
    }

    /** The initial values of the state cells. */
    constructor (apiKey: string)
      ensures State() == Initial && this.apiKey == apiKey
    {
      code := "";
      language := "javascript";
      review := None;
      isLoading := false;
      error := None;
      activeTab := Overall;
      this.apiKey := apiKey;
    }

    /** `setCode`, from the text area or a completed file read. */
    method SetCode(text: string)
      modifies this
      ensures State() == old(State()).(code := text)
    {
      code := text;
    }

    /** `setLanguage`, from the language selector. */
    method SetLanguage(tag: string)
      modifies this
      ensures State() == old(State()).(language := tag)
    {
      language := tag;
    }

    /** `handleReview` up to the request: the two local checks, then the
      resets before the call; returns the user query of the request issued. */
    method HandleReview() returns (request: Option<string>)
      modifies this
      ensures Submission(State(), request) == Submit(old(State()), apiKey)
    {
      ghost var before := State();
      var rejection := Validate(code, apiKey);
      if rejection.Some? {
        SubmitRejected(before, apiKey);
        error := rejection;
        return None;
      }
      SubmitAccepted(before, apiKey);
      var query := StartRequest();
      request := Some(query);
    }

    /** The resets before the call, and the user query of the request. */
    method StartRequest() returns (query: string)
      modifies this
      ensures State() == SessionState(old(code), old(language), None, true, None, Overall)
      ensures query == Prompt.UserQuery(old(language), old(code))
    {
      isLoading := true;
      error := None;
      review := None;
      activeTab := Overall;
      query := Prompt.UserQuery(language, code);
    }

    /** `handleReview` after the request settles with `outcome`: the result
      or error branch, then the `finally` that clears the loading flag. */
    method ReceiveOutcome(outcome: Outcome)
      modifies this
      ensures State() == Resolve(old(State()), outcome)
    {
      match outcome {
        case HttpFailure(message) =>
          error := Some(Caught(HttpFailureMessage(message)));
        case Reply(text, parse) =>
          if Truthy(text) {
            match parse {
              case Parsed(parsedReview) => review := Some(parsedReview);
              case ParseError(message) => error := Some(Caught(message));
            }
          } else {
            error := Some(NoReviewMessage);
          }
        case Thrown(message) =>
          error := Some(Caught(message));
      }
      isLoading := false;
    }

    /** `setActiveTab`, from a tab button. */
    method SetActiveTab(tab: Tab)
      modifies this
      ensures State() == old(State()).(activeTab := tab)
    {
      activeTab := tab;
    }

    /** `handleDownload`: nothing without a review, else the report text. */
    method HandleDownload() returns (report: Option<string>)
      ensures report == DownloadText(State())
    {
      if review.None? {
        return None;
      }
      var text := Report.BuildReport(review.value, language);
      report := Some(text);
    }
  }
}

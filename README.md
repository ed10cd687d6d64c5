# Code Review Assistant: a verified model of the review component

The Code Review Assistant is a single React component. The user pastes or
uploads source code, picks a language tag and presses "Review My Code". The
component checks the input, sends a review request to a remote language
model, and shows the structured review it gets back (an overall assessment
and three lists of findings: readability, modularity, potential bugs) under
four tabs. The review can be downloaded as a plain-text report.

This project models that component in Dafny and proves properties of the
model:

- `ReviewTypes` holds the values: a finding, a review, the four tab ids.
- `Text` holds JavaScript's `trim` over the ECMAScript whitespace set, and
  `split`/`join` on one separator character.
- `Decimal` holds the decimal numerals that number the report's findings.
- `Prompt` holds the user query sent with a request. Partner: a reader that
  recovers the code from the query.
- `Report` holds the downloadable report:
  - the layout as functions;
  - the handler's `+=` accumulation as methods proved equal to that layout;
  - a reader that recovers a category's findings from its text, proved to
    be an exact inverse.
- `Display` holds what the result panel shows for each tab.
- `Session` holds the component's six state cells:
  - the pure effect of each event on them;
  - traces of events with the enabling conditions the page imposes, and the
    invariant those traces keep;
  - the `ReviewSession` class, whose handlers update the cells in place and
    are proved to agree with the pure effects.

The network is replaced by an `Outcome` value that says how the request
settled. The outcomes are:

- an HTTP failure with the error body's message;
- a reply whose text is present or missing, and parses or fails to parse;
- a thrown error with its message.

Two behaviours of the code that a reader might not expect are modelled as
written:

- A failed validation (empty code or missing key) sets the error but keeps
  a review already on screen (App.jsx:137-143). The page then hides that
  review behind the error, but the download button stays.
- Every error raised inside the request handler reaches the screen as
  `"An error occurred: " + message`. This includes the HTTP failure
  message, which becomes `"An error occurred: API request failed: …"`.

## Model

| member | source | states |
|---|---|---|
| Text.TrimStart | code-review-assistant/src/App.jsx:137 | the result is a suffix of the input, everything removed before it is whitespace, and it does not begin with whitespace |
| Text.TrimEnd | code-review-assistant/src/App.jsx:137 | the result is a prefix of the input, everything removed after it is whitespace, and it does not end with whitespace |
| Text.TrimEmptyIffBlank | code-review-assistant/src/App.jsx:137 | `code.trim()` is empty exactly when every character of the code is whitespace |
| Text.Split | code-review-assistant/src/App.jsx:192 | `split` always yields at least one piece, and no piece contains the separator |
| Text.JoinSplit | code-review-assistant/src/App.jsx:192 | joining the pieces of a split with the separator gives back the original string |
| Text.SplitJoin | code-review-assistant/src/App.jsx:192 | splitting a join of separator-free pieces gives back exactly those pieces |
| Decimal.Show | code-review-assistant/src/App.jsx:110 | the numeral of `index + 1` is non-empty, all digits, and has no leading zero |
| Decimal.ValueShow | code-review-assistant/src/App.jsx:110 | reading a rendered numeral gives the number back |
| Decimal.ShowInjective | code-review-assistant/src/App.jsx:110 | distinct finding numbers get distinct numerals |
| Prompt.UserQuery | code-review-assistant/src/App.jsx:150 | the query is the prefix naming the language twice (in the sentence and on the fence opener), then the code verbatim, then the closing fence |
| Prompt.QueryCodeOfUserQuery | code-review-assistant/src/App.jsx:150 | the code is embedded verbatim: the reader recovers it from the query |
| Prompt.UserQueryOfQueryCode | code-review-assistant/src/App.jsx:150 | every text the reader accepts is the query of the code it returns |
| Report.BlocksAppend | code-review-assistant/src/App.jsx:109-115 | the blocks of two lists in a row are those of the first, then those of the second, numbered on from where the first stopped |
| Report.BlocksPrefixStep | code-review-assistant/src/App.jsx:109-115 | one more iteration of the `forEach` appends the block of the next finding, numbered by its position plus one |
| Report.BlockAt | code-review-assistant/src/App.jsx:109-115 | finding `j` appears as block number `j + 1`, after the blocks of the earlier findings and before those of the later ones |
| Report.UpperReadability | code-review-assistant/src/App.jsx:120 | the first heading is `READABILITY` |
| Report.UpperModularity | code-review-assistant/src/App.jsx:121 | the second heading is `MODULARITY & STRUCTURE` |
| Report.UpperBugs | code-review-assistant/src/App.jsx:122 | the third heading is `POTENTIAL BUGS & ERRORS` |
| Report.ReportLayout | code-review-assistant/src/App.jsx:100-123 | the whole report: the header with the language and the assessment, the three sections in order under their upper-case headings, and the closing rule |
| Report.ReportFrame | code-review-assistant/src/App.jsx:100-123 | the report starts with its header and ends with the rule line |
| Report.TakeLine | code-review-assistant/src/App.jsx:110-114 | the first line is split off at the first line break, and there is none when the text holds no line break |
| Report.TakeLineOf | code-review-assistant/src/App.jsx:110-114 | a line without line breaks followed by `\n` is split off exactly |
| Report.ParseSnippet | code-review-assistant/src/App.jsx:111-114 | what the snippet reader accepts is a snippet line (or none, for an empty snippet), then the blank line |
| Report.ParseSnippetOf | code-review-assistant/src/App.jsx:111-114 | the snippet line and the blank line are read back, and an empty snippet gives no snippet line |
| Report.ParseBlock | code-review-assistant/src/App.jsx:110-114 | a block reader that accepts something always consumes some text |
| Report.ParseBlockSound | code-review-assistant/src/App.jsx:110-114 | the block reader accepts only the block of a line-free finding with that number, followed by the rest it returns |
| Report.ParseBlockOf | code-review-assistant/src/App.jsx:110-114 | the block of a line-free finding is read back as that finding, with the text after it |
| Report.ParseBlocks | code-review-assistant/src/App.jsx:109-115 | what the multi-block reader accepts is exactly the blocks of the line-free findings it returns, numbered consecutively |
| Report.ParseBlocksCons | code-review-assistant/src/App.jsx:109-115 | a block followed by readable blocks numbered on from it is read as one longer list |
| Report.ParseBlocksOf | code-review-assistant/src/App.jsx:109-115 | the blocks of line-free findings are read back as exactly those findings |
| Report.BodyRoundTrip | code-review-assistant/src/App.jsx:106-116 | a section body is read as a list exactly when it is that list's body: the placeholder for an empty list, one numbered block per finding otherwise |
| Report.SectionRoundTrip | code-review-assistant/src/App.jsx:104-118 | after any heading, a section is read as a list exactly when it is that heading followed by the list's body |
| Report.CategoryRoundTrip | code-review-assistant/src/App.jsx:104-118 | `formatCategory` loses nothing: a text is read as a list of line-free findings exactly when it is the section `formatCategory` builds for it |
| Report.AppendFinding | code-review-assistant/src/App.jsx:109-115 | one call of the `forEach` callback appends that finding's block, numbered `index + 1` |
| Report.FormatCategory | code-review-assistant/src/App.jsx:104-118 | the string the loop accumulates is the category section: the upper-case heading, then the placeholder or the numbered blocks |
| Report.BuildReport | code-review-assistant/src/App.jsx:100-123 | the string the handler accumulates is the report layout |
| Display.ParagraphsRejoin | code-review-assistant/src/App.jsx:189-194 | an assessment shows nothing exactly when it is empty; otherwise it shows paragraphs without line breaks that rejoin to the assessment |
| Display.ListViewFaithful | code-review-assistant/src/App.jsx:196-213 | a list shows the "no issues" notice exactly when it is empty. Otherwise it shows one card per finding, in order, each finding can be read back from its card, and a snippet block appears exactly for a non-empty snippet |
| Display.TabViewOfTab | code-review-assistant/src/App.jsx:323-326 | only the overall tab shows paragraphs, and they rejoin to the assessment; each finding tab shows its own list: the notice when it is empty, otherwise one card per finding of that list, in the order received |
| Session.Validate | code-review-assistant/src/App.jsx:137-144 | a submission passes exactly when the code is not all whitespace and a key is configured. Blank code gives the "enter or upload" message even without a key; otherwise a missing key gives the configuration message |
| Session.Submit | code-review-assistant/src/App.jsx:136-150 | a request is issued exactly when validation passes; if not, only the error changes; if so, loading starts and the error, the review and the tab are reset |
| Session.SubmitQuery | code-review-assistant/src/App.jsx:150 | the code of the editor can be read back from the query of the issued request |
| Session.SubmitRejected | code-review-assistant/src/App.jsx:137-143 | a rejected submission issues nothing and changes only the error message |
| Session.SubmitAccepted | code-review-assistant/src/App.jsx:145-150 | an accepted submission applies the four resets and issues the user query for the current language and code |
| Session.Resolve | code-review-assistant/src/App.jsx:166-186 | once the request settles, loading ends; code, language and tab are kept; exactly one of "a review is delivered" and "an error is shown" happens, and each replaces the old value |
| Session.DownloadText | code-review-assistant/src/App.jsx:98-123 | there is a report exactly when there is a review, and it opens with the header for the current language |
| Session.StepConsistent | code-review-assistant/src/App.jsx:145-186 | every event that can happen keeps the loading invariant |
| Session.RunConsistent | code-review-assistant/src/App.jsx:258-262 | every trace of events that can happen keeps the loading invariant |
| Session.AtMostOneInFlight | code-review-assistant/src/App.jsx:258-262 | from the first render, since the button is disabled while loading, at most one request is ever in flight. The loading flag is up exactly while one is, and meanwhile no review, no error and the overall tab are set |
| Session.ReviewRound | code-review-assistant/src/App.jsx:136-186 | a passing submission followed by its outcome ends with loading off, the overall tab active, and exactly one of the delivered review and the outcome's error message |
| Session.ReviewSession.constructor | code-review-assistant/src/App.jsx:79-84 | the state cells start empty, with the `javascript` tag, no review, no error, not loading, on the overall tab |
| Session.ReviewSession.SetCode | code-review-assistant/src/App.jsx:244 | typing or a completed file read replaces the code and nothing else |
| Session.ReviewSession.SetLanguage | code-review-assistant/src/App.jsx:234 | the selector replaces the language tag and nothing else |
| Session.ReviewSession.HandleReview | code-review-assistant/src/App.jsx:136-150 | the handler's updates up to the request leave the state that `Submit` gives, and issue its request |
| Session.ReviewSession.StartRequest | code-review-assistant/src/App.jsx:145-150 | the four resets, and the user query built from the current language and code |
| Session.ReviewSession.ReceiveOutcome | code-review-assistant/src/App.jsx:166-186 | the handler's updates after the request settles leave the state that `Resolve` gives |
| Session.ReviewSession.SetActiveTab | code-review-assistant/src/App.jsx:309 | a tab click replaces the active tab and nothing else |
| Session.ReviewSession.HandleDownload | code-review-assistant/src/App.jsx:98-123 | without a review there is no download; with one, the text is the report layout |

## Left out

- The request itself (`fetch`, the URL built with the key, the HTTP
  status, `response.json()`, the optional chain down to the first part's
  text) is not modelled. The abstract `Outcome` says how the request
  settled; reading the error body of a failed response is folded into
  `HttpFailure` or `Thrown`.
- `JSON.parse` is reduced to two results: a review with the four fields, or
  an error message. A reply text that parses to a value of another shape
  (for example `null`, which the code would store as "no review" without an
  error) is outside the model.
- The system prompt, the response schema (App.jsx:7-52) and the model name
  in the URL are constant request parameters, and are not modelled.
- `FileReader` is not modelled: a completed file read is the same event as
  typing, `SetCode`. The hidden file input, the Blob, the object URL and
  the link click that save the report are also left out; `HandleDownload`
  returns the text instead.
- The language list (App.jsx:54-69) and the placeholder text are not
  modelled: any string can be a language tag.
- The JSX layout is not modelled beyond three things: the tab set, what each
  tab shows, and the conditions under which the tab bar and the review
  button can be used. Styling, icons, the spinner and the empty-state text
  are left out. So are the event handlers' asynchrony and React's batching
  of updates.
- Report.UpperChar: `toUpperCase` is modelled on ASCII letters only. The
  three titles it is applied to are ASCII.
- Report.CategoryRoundTrip: the round trip is proved only for findings
  whose suggestion and snippet contain no line break. A field containing
  `\n` makes the text report ambiguous.
- Decimal.Show: JavaScript's number-to-string conversion is modelled only
  for the natural numbers that number findings.
- `console.error(err)` in the catch block (App.jsx:183) writes to the
  browser console only; it changes no state and is not modelled.
- Strings are sequences of Unicode scalar values, while JavaScript strings
  are sequences of UTF-16 code units. A lone surrogate, which `JSON.parse`
  can produce from an escape, cannot be represented. Lengths such as the
  one `Prompt.UserQuery` states count scalar values, not code units.
- Session.AtMostOneInFlight: the button's `disabled={isLoading}` is
  modelled as a condition on which traces can happen, not as rendering.
  A second press while loading is not an event of the model.

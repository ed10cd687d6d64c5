/** The `ReviewContent` view and the tab panel: which content each tab shows
    and what the view renders for it. */
module Display {
  import opened ReviewTypes
  import Text

  /** The paragraphs shown for `content`: none for the empty string (the
      view renders nothing for a falsy value), otherwise the pieces of
      `content.split('\n')`. */
  function Paragraphs(content: string): seq<string> {
    if content == "" then [] else Text.Split(content, '\n')
  }

  /** Nothing is shown exactly for an empty assessment; otherwise the
      paragraphs hold no line break and, joined with line breaks, give the
      assessment back verbatim. */
  lemma ParagraphsRejoin(content: string)
    ensures Paragraphs(content) == [] <==> content == ""
    ensures forall i | 0 <= i < |Paragraphs(content)| :: '\n' !in Paragraphs(content)[i]
    ensures content != "" ==> Text.Join(Paragraphs(content), '\n') == content
  {
    if content != "" {
      Text.JoinSplit(content, '\n');
    }
  }

  /** One rendered finding: its suggestion, and its snippet block when shown. */
  datatype Card = Card(suggestion: string, snippet: Option<string>)

  /** What the panel renders: a string as paragraphs, an empty list as the
      "no issues" notice, a non-empty list as one card per finding. */
  datatype View =
    | Lines(paragraphs: seq<string>)
    | EmptyNotice
    | Cards(cards: seq<Card>)

  /** The card of a finding: the snippet block only for a non-empty snippet. */
  function CardOf(f: Finding): Card {
    Card(f.suggestion, if f.codeSnippet != "" then Some(f.codeSnippet) else None)
  }

  /** The finding a card displays, with "" for a hidden snippet. */
  function FindingOf(c: Card): Finding {
    Finding(c.suggestion, if c.snippet.Some? then c.snippet.value else "")
  }

  /** The array branch of the view. */
  function ListView(items: seq<Finding>): View {
    if |items| == 0 then EmptyNotice
    else Cards(seq(|items|, i requires 0 <= i < |items| => CardOf(items[i])))
  }

  /** The panel for the active tab. */
  function TabView(review: Review, tab: Tab): View {
    match tab
    case Overall => Lines(Paragraphs(review.overallAssessment))
    case Readability => ListView(review.readability)
    case Modularity => ListView(review.modularity)
    case Bugs => ListView(review.bugs)
  }

  /** A list renders the notice exactly when it is empty, and otherwise one
      card per finding, in order, from which each finding is read back; a
      snippet block is shown exactly for a non-empty snippet. */
  lemma ListViewFaithful(items: seq<Finding>)
    ensures ListView(items) == EmptyNotice <==> items == []
    ensures ListView(items).Cards? ==>
      var cards := ListView(items).cards;
      |cards| == |items|
      && (forall i | 0 <= i < |items| :: FindingOf(cards[i]) == items[i])
      && (forall i | 0 <= i < |items| :: cards[i].snippet.Some? <==> items[i].codeSnippet != "")
  {
  }

  /** `v` shows exactly the findings `items`, in order: the notice for an
      empty list, otherwise one card per finding from which it is read back. */
  predicate ShowsList(v: View, items: seq<Finding>) {
    (items == [] ==> v == EmptyNotice)
    && (items != [] ==>
      v.Cards? && |v.cards| == |items| && forall i | 0 <= i < |items| :: FindingOf(v.cards[i]) == items[i])
  }

  /** Each tab shows its own part of the review: the assessment tab, and only
      it, shows paragraphs that rejoin to the assessment; each finding tab
      shows its own list of findings, in the order received. */
  lemma TabViewOfTab(review: Review, tab: Tab)
    ensures TabView(review, tab).Lines? <==> tab == Overall
    ensures tab == Overall ==>
      review.overallAssessment != "" ==> Text.Join(TabView(review, tab).paragraphs, '\n') == review.overallAssessment
    ensures tab == Readability ==> ShowsList(TabView(review, tab), review.readability)
    ensures tab == Modularity ==> ShowsList(TabView(review, tab), review.modularity)
    ensures tab == Bugs ==> ShowsList(TabView(review, tab), review.bugs)
  {
    ParagraphsRejoin(review.overallAssessment);
    ListViewFaithful(review.readability);
    ListViewFaithful(review.modularity);
    ListViewFaithful(review.bugs);
  }
}

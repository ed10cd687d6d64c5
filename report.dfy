/** The downloadable text report: the layout `handleDownload` builds, a
    reader that recovers a category's findings from its text, and the
    `+=` accumulation the handler performs, proved equal to the layout. */
module Report {
  import opened ReviewTypes
  import Decimal

  /** The rule line that follows the header and closes the report. */
  const Rule: string := "========================\n"
  /** The rest of a category section whose list of findings is empty. */
  const Placeholder: string := "No specific issues found.\n\n"
  const SuggestionTag: string := ". Suggestion: "
  const SnippetTag: string := "   Code Snippet: "

  predicate StartsWith(t: string, p: string) {
    |p| <= |t| && t[..|p|] == p
  }

  /** `toUpperCase` on the ASCII letters; every other character is kept. */
  function UpperChar(c: char): char {
    if 'a' <= c <= 'z' then (c as int - 32) as char else c
  }

  /** `toUpperCase`, character by character. */
  function Upper(s: string): string {
    seq(|s|, i requires 0 <= i < |s| => UpperChar(s[i]))
  }

  /** The numbered suggestion line of finding number `n`. */
  function SuggestionLine(n: nat, f: Finding): string {
    Decimal.Show(n) + SuggestionTag + f.suggestion + "\n"
  }

  /** The snippet line, present only for a non-empty snippet. */
  function SnippetLine(codeSnippet: string): string {
    if codeSnippet == "" then "" else SnippetTag + codeSnippet + "\n"
  }

  /** The text one finding contributes, numbered `n`. */
  function FindingBlock(n: nat, f: Finding): string {
    SuggestionLine(n, f) + SnippetLine(f.codeSnippet) + "\n"
  }

  /** The blocks of `items`, numbered consecutively from `first`. */
  function Blocks(items: seq<Finding>, first: nat): string
    decreases |items|
  {
    if items == [] then "" else FindingBlock(first, items[0]) + Blocks(items[1..], first + 1)
  }

  /** What follows a category's heading line. */
  function CategoryBody(items: seq<Finding>): string {
    if |items| == 0 then Placeholder else Blocks(items, 1)
  }

  /** The section `formatCategory(title, items)` returns. */
  function CategoryText(title: string, items: seq<Finding>): string {
    Upper(title) + ":\n" + CategoryBody(items)
  }

  /** The report header: title, language tag, rule, and the overall assessment. */
  function ReportHead(review: Review, language: string): string {
    "Code Review Report\nLanguage: " + language + "\n"
    + "========================\n\n"
    + "OVERALL ASSESSMENT:\n" + review.overallAssessment + "\n\n"
  }

  /** The three category sections, in the order the handler appends them. */
  function Sections(review: Review): string {
    CategoryText("Readability", review.readability)
    + CategoryText("Modularity & Structure", review.modularity)
    + CategoryText("Potential Bugs & Errors", review.bugs)
  }

  /** The whole report for `review`, tagged with `language`. */
  function ReportText(review: Review, language: string): string {
    ReportHead(review, language) + Sections(review) + Rule
  }

  /** The blocks of two lists one after the other are the blocks of the first,
      then those of the second numbered on from where the first stopped. */
  lemma {:induction false} BlocksAppend(a: seq<Finding>, b: seq<Finding>, first: nat)
    ensures Blocks(a + b, first) == Blocks(a, first) + Blocks(b, first + |a|)
    decreases |a|
  {
    if a == [] {
      assert a + b == b;
    } else {
      assert (a + b)[0] == a[0];
      assert (a + b)[1..] == a[1..] + b;
      BlocksAppend(a[1..], b, first + 1);
    }
  }

  /** One more finding of `items` adds its block, numbered by its position. */
  lemma BlocksPrefixStep(items: seq<Finding>, index: nat, first: nat)
    requires index < |items|
    ensures Blocks(items[..index + 1], first) == Blocks(items[..index], first) + FindingBlock(first + index, items[index])
  {
    var x := items[index];
    assert items[..index + 1] == items[..index] + [x];
    BlocksAppend(items[..index], [x], first);
    assert [x][1..] == [];
  }

  /** Finding `j` of a list is written as block number `first + j`, after the
      blocks of the findings before it and before those of the findings after it. */
  lemma BlockAt(items: seq<Finding>, first: nat, j: nat)
    requires j < |items|
    ensures Blocks(items, first)
      == Blocks(items[..j], first) + FindingBlock(first + j, items[j]) + Blocks(items[j + 1..], first + j + 1)
  {
    var tail := items[j..];
    assert items == items[..j] + tail;
    BlocksAppend(items[..j], tail, first);
    assert tail[0] == items[j] && tail[1..] == items[j + 1..];
    var block := FindingBlock(first + j, items[j]);
    var after := Blocks(items[j + 1..], first + j + 1);
    assert Blocks(tail, first + j) == block + after;
    Assoc(Blocks(items[..j], first), block, after);
  }

  /** The category headings are the titles in upper case. */
  lemma UpperReadability()
    ensures Upper("Readability") == "READABILITY"
  {
  }
  lemma UpperModularity()
    ensures Upper("Modularity & Structure") == "MODULARITY & STRUCTURE"
  {
  }
  lemma UpperBugs()
    ensures Upper("Potential Bugs & Errors") == "POTENTIAL BUGS & ERRORS"
  {
  }

  /** The fixed layout: the header with the language tag and the assessment,
      the three sections in the order Readability, Modularity & Structure,
      Potential Bugs & Errors under their upper-case headings, and the closing rule. */
  lemma ReportLayout(review: Review, language: string)
    ensures ReportText(review, language) ==
      "Code Review Report\nLanguage: " + language + "\n"
      + "========================\n\n"
      + "OVERALL ASSESSMENT:\n" + review.overallAssessment + "\n\n"
      + ("READABILITY" + ":\n" + CategoryBody(review.readability))
      + ("MODULARITY & STRUCTURE" + ":\n" + CategoryBody(review.modularity))
      + ("POTENTIAL BUGS & ERRORS" + ":\n" + CategoryBody(review.bugs))
      + "========================\n"
  {
    UpperReadability();
    UpperModularity();
    UpperBugs();
  }

  /** Regrouping a concatenation, stated over variables so that callers can
      regroup strings built from literals without unfolding them. */
  lemma Assoc(a: string, b: string, c: string)
    ensures (a + b) + c == a + (b + c)
  {
  }

  /** A string `a + b + c` opens with `a` and closes with `c`; stated over
      variables, the shape `ReportFrame` instantiates with header, sections and rule. */
  lemma Framed(a: string, b: string, c: string)
    ensures StartsWith(a + b + c, a)
    ensures |c| <= |a + b + c| && (a + b + c)[|a + b + c| - |c|..] == c
  {
  }

  /** The report opens with the header and the assessment and closes with the rule. */
  lemma ReportFrame(review: Review, language: string)
    ensures StartsWith(ReportText(review, language), ReportHead(review, language))
    ensures var t := ReportText(review, language); |Rule| <= |t| && t[|t| - |Rule|..] == Rule
  {
    Framed(ReportHead(review, language), Sections(review), Rule);
  }

  // ---------------------------------------------------------------------
  // Reading a category back

  /** No field of the finding contains a line break. */
  predicate LineFree(f: Finding) {
    '\n' !in f.suggestion && '\n' !in f.codeSnippet
  }

  predicate AllLineFree(items: seq<Finding>) {
    forall i | 0 <= i < |items| :: LineFree(items[i])
  }

  /** Splits off the first line of `t` (None when `t` holds no line break). */
  function TakeLine(t: string): (r: Option<(string, string)>)
    ensures r.Some? ==> '\n' !in r.value.0 && t == r.value.0 + "\n" + r.value.1
    ensures r.None? ==> '\n' !in t
    decreases |t|
  {
    if t == [] then None
    else if t[0] == '\n' then Some(([], t[1..]))
    else match TakeLine(t[1..])
      case None => None
      case Some((line, rest)) => Some(([t[0]] + line, rest))
  }

  lemma {:induction false} TakeLineOf(line: string, rest: string)
    requires '\n' !in line
    ensures TakeLine(line + "\n" + rest) == Some((line, rest))
    decreases |line|
  {
    var t := line + "\n" + rest;
    if line == [] {
      assert t == "\n" + rest;
    } else {
      assert t[0] == line[0];
      assert t[1..] == line[1..] + "\n" + rest;
      TakeLineOf(line[1..], rest);
      assert [line[0]] + line[1..] == line;
    }
  }

  /** Reads what follows a suggestion line: an optional snippet line and the
      blank line that ends the block; returns the snippet ("" when absent)
      and the text after the block. */
  function ParseSnippet(t: string): (r: Option<(string, string)>)
    ensures r.Some? ==> '\n' !in r.value.0 && t == SnippetLine(r.value.0) + "\n" + r.value.1
  {
    if StartsWith(t, SnippetTag) then
      match TakeLine(t[|SnippetTag|..])
      case None => None
      case Some((snippet, rest)) =>
        if snippet != "" && StartsWith(rest, "\n") then
          assert t == SnippetTag + (snippet + "\n" + rest);
          assert rest == "\n" + rest[1..];
          Some((snippet, rest[1..]))
        else None
    else if StartsWith(t, "\n") then
      assert t == "\n" + t[1..];
      Some(("", t[1..]))
    else None
  }

  /** Generic step: a prefix is recognised and stripped. */
  lemma StripPrefix(p: string, x: string)
    ensures StartsWith(p + x, p) && (p + x)[|p|..] == x
  {
  }

  lemma ParseSnippetOf(snippet: string, rest: string)
    requires '\n' !in snippet
    ensures ParseSnippet(SnippetLine(snippet) + "\n" + rest) == Some((snippet, rest))
  {
    if snippet != "" {
      var t := SnippetLine(snippet) + "\n" + rest;
      assert t == SnippetTag + (snippet + "\n" + ("\n" + rest));
      StripPrefix(SnippetTag, snippet + "\n" + ("\n" + rest));
      TakeLineOf(snippet, "\n" + rest);
      StripPrefix("\n", rest);
    } else {
      assert SnippetTag[0] == ' ';
      StripPrefix("\n", rest);
    }
  }

  /** Reads the block of finding number `n` at the start of `t`, and returns
      the finding and the text after the block. */
  function ParseBlock(t: string, n: nat): (r: Option<(Finding, string)>)
    ensures r.Some? ==> |r.value.1| < |t|
  {
    var head := Decimal.Show(n) + SuggestionTag;
    if !StartsWith(t, head) then None
    else
      match TakeLine(t[|head|..])
      case None => None
      case Some((suggestion, rest)) =>
        match ParseSnippet(rest)
        case None => None
        case Some((snippet, out)) => Some((Finding(suggestion, snippet), out))
  }

  lemma Regroup(head: string, suggestion: string, snippetLine: string, out: string)
    ensures (head + suggestion + "\n") + snippetLine + "\n" + out
      == head + (suggestion + "\n" + (snippetLine + "\n" + out))
  {
  }

  /** What the block reader accepts is a block followed by the rest it returns. */
  lemma ParseBlockSound(t: string, n: nat)
    ensures var r := ParseBlock(t, n);
      r.Some? ==> LineFree(r.value.0) && t == FindingBlock(n, r.value.0) + r.value.1
  {
    var r := ParseBlock(t, n);
    if r.Some? {
      var head := Decimal.Show(n) + SuggestionTag;
      var u := t[|head|..];
      assert t == head + u;
      var (suggestion, rest) := TakeLine(u).value;
      var (snippet, out) := ParseSnippet(rest).value;
      Regroup(head, suggestion, SnippetLine(snippet), out);
    }
  }

  lemma ParseBlockOf(n: nat, f: Finding, rest: string)
    requires LineFree(f)
    ensures ParseBlock(FindingBlock(n, f) + rest, n) == Some((f, rest))
  {
    var head := Decimal.Show(n) + SuggestionTag;
    var after := SnippetLine(f.codeSnippet) + "\n" + rest;
    Regroup(head, f.suggestion, SnippetLine(f.codeSnippet), rest);
    StripPrefix(head, f.suggestion + "\n" + after);
    TakeLineOf(f.suggestion, after);
    ParseSnippetOf(f.codeSnippet, rest);
  }

  /** Reads consecutive blocks numbered from `n` that make up all of `t`. */
  function ParseBlocks(t: string, n: nat): (r: Option<seq<Finding>>)
    ensures r.Some? ==> AllLineFree(r.value) && t == Blocks(r.value, n)
    decreases |t|
  {
    if t == [] then Some([])
    else match ParseBlock(t, n)
      case None => None
      case Some((f, rest)) =>
        match ParseBlocks(rest, n + 1)
        case None => None
        case Some(fs) =>
          ParseBlockSound(t, n);
          assert ([f] + fs)[1..] == fs;
          Some([f] + fs)
  }

  lemma ParseBlocksCons(t: string, n: nat, f: Finding, rest: string, fs: seq<Finding>)
    requires ParseBlock(t, n) == Some((f, rest))
    requires ParseBlocks(rest, n + 1) == Some(fs)
    ensures ParseBlocks(t, n) == Some([f] + fs)
  {
  }

  lemma {:induction false} ParseBlocksOf(items: seq<Finding>, n: nat)
    requires AllLineFree(items)
    ensures ParseBlocks(Blocks(items, n), n) == Some(items)
    decreases |items|
  {
    if items != [] {
      var rest := Blocks(items[1..], n + 1);
      var t := Blocks(items, n);
      assert t == FindingBlock(n, items[0]) + rest;
      ParseBlockOf(n, items[0], rest);
      ParseBlocksOf(items[1..], n + 1);
      ParseBlocksCons(t, n, items[0], rest, items[1..]);
      assert [items[0]] + items[1..] == items;
    }
  }

  /** Reads the body of a category section: the placeholder or one or more blocks. */
  function ParseBody(body: string): Option<seq<Finding>> {
    if body == Placeholder then Some([])
    else match ParseBlocks(body, 1)
      case Some(items) => if items == [] then None else Some(items)
      case None => None
  }

  /** Reads a section that opens with `head` followed by a category body. */
  function ParseSection(head: string, t: string): Option<seq<Finding>> {
    if !StartsWith(t, head) then None else ParseBody(t[|head|..])
  }

  /** Reads a category section with heading `title` back into its findings. */
  function ParseCategory(title: string, t: string): Option<seq<Finding>> {
    ParseSection(Upper(title) + ":\n", t)
  }

  lemma SectionRoundTrip(head: string, items: seq<Finding>, t: string)
    ensures ParseSection(head, t) == Some(items) <==> AllLineFree(items) && t == head + CategoryBody(items)
  {
    if AllLineFree(items) && t == head + CategoryBody(items) {
      StripPrefix(head, CategoryBody(items));
      BodyRoundTrip(items, CategoryBody(items));
    }
    if ParseSection(head, t) == Some(items) {
      BodyRoundTrip(items, t[|head|..]);
      assert t == head + t[|head|..];
    }
  }

  lemma BodyRoundTrip(items: seq<Finding>, body: string)
    ensures ParseBody(body) == Some(items) <==> AllLineFree(items) && body == CategoryBody(items)
  {
    if AllLineFree(items) && body == CategoryBody(items) && items != [] {
      var b := FindingBlock(1, items[0]);
      BlocksAppend([items[0]], items[1..], 1);
      assert [items[0]] + items[1..] == items;
      assert Decimal.Show(1) == "1";
      assert b[0] == '1';
      assert Placeholder[0] == 'N';
      ParseBlocksOf(items, 1);
    }
  }

  /** A category section is read back exactly: the reader accepts `t` with
      result `items` if and only if `t` is the section `formatCategory(title, items)`
      builds, for findings whose fields hold no line break. So the section opens
      with the upper-case heading, an empty list gives the placeholder and
      nothing else, and a non-empty list gives one block per finding, in order,
      numbered 1, 2, ... */
  lemma CategoryRoundTrip(title: string, items: seq<Finding>, t: string)
    ensures ParseCategory(title, t) == Some(items) <==> AllLineFree(items) && t == CategoryText(title, items)
  {
    SectionRoundTrip(Upper(title) + ":\n", items, t);
  }

  // ---------------------------------------------------------------------
  // The handler's accumulation

  /** The `forEach` callback of `formatCategory`: appends to `content` the
      numbered suggestion line of the finding at 0-based `index`, its snippet
      line when the snippet is non-empty, and a blank line. */
  method AppendFinding(content: string, item: Finding, index: nat) returns (extended: string)
    ensures extended == content + FindingBlock(index + 1, item)
  {
    var line := SuggestionLine(index + 1, item);
    extended := content + line;
    if item.codeSnippet != "" {
      extended := extended + (SnippetTag + item.codeSnippet + "\n");
    }
    Assoc(content, line, SnippetLine(item.codeSnippet));
    extended := extended + "\n";
    Assoc(content, line + SnippetLine(item.codeSnippet), "\n");
  }

  /** `formatCategory`: the upper-case heading, then the placeholder for an
      empty list, or else each finding's block in order. */
  method FormatCategory(title: string, items: seq<Finding>) returns (content: string)
    ensures content == CategoryText(title, items)
  {
    var heading := Upper(title) + ":\n";
    content := heading;
    if |items| == 0 {
      content := content + Placeholder;
    } else {
      var index := 0;
      while index < |items|
        invariant 0 <= index <= |items|
        invariant content == heading + Blocks(items[..index], 1)
      {
        content := AppendFinding(content, items[index], index);
        Assoc(heading, Blocks(items[..index], 1), FindingBlock(index + 1, items[index]));
        BlocksPrefixStep(items, index, 1);
        index := index + 1;
      }
      assert items[..index] == items;
    }
  }

  /** The report text `handleDownload` accumulates for `review`. */
  method BuildReport(review: Review, language: string) returns (reportContent: string)
    ensures reportContent == ReportText(review, language)
  {
    reportContent := "Code Review Report\nLanguage: " + language + "\n";
    reportContent := reportContent + "========================\n\n";
    reportContent := reportContent + "OVERALL ASSESSMENT:\n" + review.overallAssessment + "\n\n";
    var section := FormatCategory("Readability", review.readability);
    reportContent := reportContent + section;
    section := FormatCategory("Modularity & Structure", review.modularity);
    reportContent := reportContent + section;
    section := FormatCategory("Potential Bugs & Errors", review.bugs);
    reportContent := reportContent + section;
    reportContent := reportContent + Rule;
  }
}

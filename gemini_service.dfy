/**
 * The deterministic part of services/geminiService.ts.  Every remote call is a
 * parameter `generate` that answers `Some(text)` or `None` when the call throws;
 * the functions here then apply the fallbacks the service promises.  The session
 * summary path renders the conversation as text and extracts the `Title: ` and
 * `Summary: ` lines from the answer.
 */
module GeminiService {
  import opened Types
  import opened Text

  const REFLECTION_FALLBACK := "I'm having trouble connecting right now, but your thoughts have been safely saved."
  const INSIGHT_FALLBACK := "Keep nurturing your awareness. Your journey of self-discovery is a beautiful process."
  const PROMPT_FALLBACK := "What's on your mind today?"
  const DEFAULT_TITLE := "Session Reflection"
  const DEFAULT_SUMMARY := "A summary of our conversation."
  const ERROR_SUMMARY := "Could not generate a summary for this session."
  const TITLE_LABEL := "Title: "
  const SUMMARY_LABEL := "Summary: "

  datatype SummaryAndTitle = SummaryAndTitle(title: string, summary: string)

  /** The journal-reflection call: never fails to its caller. */
  function GetJournalReflection(text: string, generate: string -> Option<string>): (r: string)
    ensures r == REFLECTION_FALLBACK || generate(text) == Some(r)
    ensures generate(text).None? ==> r == REFLECTION_FALLBACK
  {
    match generate(text)
    case Some(reply) => reply
    case None => REFLECTION_FALLBACK
  }

  /** What the insight prompt is built from: one rating triple per check-in and the first 100 characters of each entry. */
  datatype InsightData = InsightData(ratings: seq<(int, int, int)>, excerpts: seq<string>)

  function InsightDataOf(checkIns: seq<CheckIn>, journal: seq<JournalEntry>): (r: InsightData)
    ensures |r.ratings| == |checkIns| && |r.excerpts| == |journal|
    ensures forall i :: 0 <= i < |checkIns| ==> r.ratings[i] == (checkIns[i].mood, checkIns[i].energy, checkIns[i].sleep)
    ensures forall i :: 0 <= i < |journal| ==> r.excerpts[i] == Take(journal[i].content, 100)
  {
    InsightData(
      seq(|checkIns|, i requires 0 <= i < |checkIns| => (checkIns[i].mood, checkIns[i].energy, checkIns[i].sleep)),
      seq(|journal|, i requires 0 <= i < |journal| => Take(journal[i].content, 100)))
  }

  /** The daily-insight call, with its fallback. */
  function GetAIInsight(checkIns: seq<CheckIn>, journal: seq<JournalEntry>, generate: InsightData -> Option<string>): (r: string)
    ensures generate(InsightDataOf(checkIns, journal)).None? ==> r == INSIGHT_FALLBACK
    ensures r == INSIGHT_FALLBACK || generate(InsightDataOf(checkIns, journal)) == Some(r)
  {
    match generate(InsightDataOf(checkIns, journal))
    case Some(reply) => reply
    case None => INSIGHT_FALLBACK
  }

  /**
   * The journal-prompt call.  The prompt reads the mood and energy of the newest
   * check-in before the guarded call, so the caller must have one (the Journal
   * screen disables the button otherwise).
   */
  function GetJournalPrompt(checkIns: seq<CheckIn>, generate: (int, int) -> Option<string>): (r: string)
    requires |checkIns| > 0
    ensures generate(checkIns[0].mood, checkIns[0].energy).None? ==> r == PROMPT_FALLBACK
    ensures r == PROMPT_FALLBACK || generate(checkIns[0].mood, checkIns[0].energy) == Some(r)
  {
    match generate(checkIns[0].mood, checkIns[0].energy)
    case Some(reply) => reply
    case None => PROMPT_FALLBACK
  }

  // ---------------------------------------------------------------- history text

  function RoleName(role: Role): string
  {
    match role
    case User => "user"
    case Model => "model"
  }

  /** One message rendered as `role: text`. */
  function RenderMessage(m: Message): string
  {
    RoleName(m.role) + ": " + m.text
  }

  /** `parts.join(sep)`. */
  function Join(parts: seq<string>, sep: string): string
  {
    if |parts| == 0 then ""
    else if |parts| == 1 then parts[0]
    else parts[0] + sep + Join(parts[1..], sep)
  }

  /** `history.map(m => `${m.role}: ${m.text}`).join('\n')`. */
  function HistoryText(history: seq<Message>): string
  {
    Join(seq(|history|, i requires 0 <= i < |history| => RenderMessage(history[i])), "\n")
  }

  /** The first index of `c` in `s`. */
  function IndexOfChar(s: string, c: char): (r: nat)
    requires c in s
    ensures r < |s| && s[r] == c && c !in s[..r]
    ensures forall k :: 0 <= k < r ==> s[k] != c
  {
    if s[0] == c then 0 else
      assert c in s[1..] by { var k :| 0 <= k < |s| && s[k] == c; assert s[1..][k - 1] == c; }
      var r := IndexOfChar(s[1..], c);
      assert s[..r + 1] == [s[0]] + s[1..][..r];
      r + 1
  }

  /** `s.split(sep)` for a one-character separator. */
  function Split(s: string, sep: char): (r: seq<string>)
    ensures |r| >= 1
    decreases |s|
  {
    if sep !in s then [s] else
      var i := IndexOfChar(s, sep);
      [s[..i]] + Split(s[i + 1..], sep)
  }

  function Lines(history: seq<Message>): seq<string>
  {
    seq(|history|, i requires 0 <= i < |history| => RenderMessage(history[i]))
  }

  lemma SplitAfterFirst(a: string, b: string, sep: char)
    requires sep !in a
    ensures Split(a + [sep] + b, sep) == [a] + Split(b, sep)
  {
    var s := a + [sep] + b;
    assert s[|a|] == sep;
    var i := IndexOfChar(s, sep);
    assert i == |a|;
    assert s[..i] == a;
    assert s[i + 1..] == b;
  }

  /**
   * The history text splits back into exactly one line per message, so long as
   * no message text itself holds a newline.
   */
  lemma {:induction false} HistorySplitsIntoMessages(history: seq<Message>)
    requires |history| > 0
    requires forall i :: 0 <= i < |history| ==> '\n' !in history[i].text
    ensures Split(HistoryText(history), '\n') == Lines(history)
    decreases |history|
  {
    var lines := Lines(history);
    assert HistoryText(history) == Join(lines, "\n");
    LinesHaveNoNewline(history);
    JoinSplits(lines, '\n');
  }

  lemma NoNewlineInRender(m: Message)
    requires '\n' !in m.text
    ensures '\n' !in RenderMessage(m)
  {
    var r := RenderMessage(m);
    var pre := RoleName(m.role) + ": ";
    assert r == pre + m.text;
    forall k | 0 <= k < |r| ensures r[k] != '\n' {
      if k >= |pre| { assert r[k] == m.text[k - |pre|]; }
    }
  }

  /** Joining lines that do not contain the separator and splitting again gives the lines back. */
  lemma {:induction false} JoinSplits(lines: seq<string>, sep: char)
    requires |lines| > 0
    requires forall i :: 0 <= i < |lines| ==> sep !in lines[i]
    ensures Split(Join(lines, [sep]), sep) == lines
    decreases |lines|
  {
    if |lines| > 1 {
      var rest := lines[1..];
      assert forall i :: 0 <= i < |rest| ==> rest[i] == lines[i + 1];
      JoinSplits(rest, sep);
      var tail := Join(rest, [sep]);
      assert Join(lines, [sep]) == lines[0] + [sep] + tail;
      assert sep !in lines[0];
      SplitAfterFirst(lines[0], tail, sep);
      assert lines == [lines[0]] + rest;
    }
  }

  lemma LinesHaveNoNewline(history: seq<Message>)
    requires forall i :: 0 <= i < |history| ==> '\n' !in history[i].text
    ensures forall i :: 0 <= i < |Lines(history)| ==> '\n' !in Lines(history)[i]
  {
    forall i | 0 <= i < |history| ensures '\n' !in Lines(history)[i] {
      NoNewlineInRender(history[i]);
    }
  }

  // --------------------------------------------------- title and summary lines

  predicate OccursAt(s: string, pat: string, k: int)
  {
    0 <= k && k + |pat| <= |s| && s[k..k + |pat|] == pat
  }

  /** The leftmost position where `pat` occurs in `s`, as a regular-expression search finds it. */
  function IndexOf(s: string, pat: string, from: nat): (r: Option<nat>)
    requires from <= |s|
    ensures r.Some? ==> from <= r.value && OccursAt(s, pat, r.value)
    ensures r.Some? ==> forall k :: from <= k < r.value ==> !OccursAt(s, pat, k)
    ensures r.None? ==> forall k :: from <= k <= |s| ==> !OccursAt(s, pat, k)
    decreases |s| - from
  {
    if from + |pat| > |s| then None
    else if s[from..from + |pat|] == pat then Some(from)
    else IndexOf(s, pat, from + 1)
  }

  /** What a greedy `(.*)` captures: everything up to the first line terminator. */
  function RestOfLine(s: string): (r: string)
    ensures r <= s
    ensures forall i :: 0 <= i < |r| ==> !IsLineTerminator(r[i])
    ensures |r| == |s| || IsLineTerminator(s[|r|])
  {
    if s == [] || IsLineTerminator(s[0]) then "" else [s[0]] + RestOfLine(s[1..])
  }

  /** `text.match(/<tag>(.*)/)`, trimmed, or `fallback` when there is no match. */
  function ExtractLine(text: string, tag: string, fallback: string): string
  {
    match IndexOf(text, tag, 0)
    case None => fallback
    case Some(i) => Trim(RestOfLine(text[i + |tag|..]))
  }

  /** How the answer of the summary call is read. */
  function ParseSummaryAnswer(text: string): SummaryAndTitle
  {
    SummaryAndTitle(ExtractLine(text, TITLE_LABEL, DEFAULT_TITLE), ExtractLine(text, SUMMARY_LABEL, DEFAULT_SUMMARY))
  }

  /** `getSessionSummaryAndTitle`: the remote call receives the history text. */
  function GetSessionSummaryAndTitle(history: seq<Message>, generate: string -> Option<string>): (r: SummaryAndTitle)
    ensures generate(HistoryText(history)).None? ==> r == SummaryAndTitle(DEFAULT_TITLE, ERROR_SUMMARY)
    ensures generate(HistoryText(history)).Some? ==> r == ParseSummaryAnswer(generate(HistoryText(history)).value)
  {
    match generate(HistoryText(history))
    case None => SummaryAndTitle(DEFAULT_TITLE, ERROR_SUMMARY)
    case Some(text) => ParseSummaryAnswer(text)
  }

  /** An answer without a `Title: ` line gets the default title; likewise for the summary. */
  lemma MissingLabelsFallBack(text: string)
    ensures (forall k :: 0 <= k <= |text| ==> !OccursAt(text, TITLE_LABEL, k)) ==> ParseSummaryAnswer(text).title == DEFAULT_TITLE
    ensures (forall k :: 0 <= k <= |text| ==> !OccursAt(text, SUMMARY_LABEL, k)) ==> ParseSummaryAnswer(text).summary == DEFAULT_SUMMARY
  {
    var t := IndexOf(text, TITLE_LABEL, 0);
    var s := IndexOf(text, SUMMARY_LABEL, 0);
    if t.Some? { assert OccursAt(text, TITLE_LABEL, t.value); }
    if s.Some? { assert OccursAt(text, SUMMARY_LABEL, s.value); }
  }

  /** The text of the answer format the prompt asks for. */
  function FormatAnswer(title: string, summary: string): string
  {
    TITLE_LABEL + title + "\n" + SUMMARY_LABEL + summary
  }

  predicate OneLine(s: string)
  {
    forall i :: 0 <= i < |s| ==> !IsLineTerminator(s[i])
  }

  lemma RestOfLineStopsAt(a: string, b: string)
    requires OneLine(a) && |b| > 0 && IsLineTerminator(b[0])
    ensures RestOfLine(a + b) == a
    decreases |a|
  {
    if a != [] {
      assert (a + b)[1..] == a[1..] + b;
      RestOfLineStopsAt(a[1..], b);
    } else {
      assert a + b == b;
    }
  }

  lemma RestOfLineWhole(a: string)
    requires OneLine(a)
    ensures RestOfLine(a) == a
    decreases |a|
  {
    if a != [] {
      RestOfLineWhole(a[1..]);
    }
  }

  lemma TitleOfAnswer(title: string, summary: string)
    requires OneLine(title) && Trim(title) == title
    ensures ExtractLine(FormatAnswer(title, summary), TITLE_LABEL, DEFAULT_TITLE) == title
  {
    var text := FormatAnswer(title, summary);
    assert text[..|TITLE_LABEL|] == TITLE_LABEL;
    assert OccursAt(text, TITLE_LABEL, 0);
    assert IndexOf(text, TITLE_LABEL, 0) == Some(0);
    var after := "\n" + SUMMARY_LABEL + summary;
    assert text[|TITLE_LABEL|..] == title + after;
    RestOfLineStopsAt(title, after);
  }

  lemma SummaryOfAnswer(title: string, summary: string)
    requires OneLine(summary) && Trim(summary) == summary
    requires forall k :: 0 <= k <= |title| ==> !OccursAt(title, SUMMARY_LABEL, k)
    ensures ExtractLine(FormatAnswer(title, summary), SUMMARY_LABEL, DEFAULT_SUMMARY) == summary
  {
    var text := FormatAnswer(title, summary);
    var p := |TITLE_LABEL| + |title| + 1;
    assert text == (TITLE_LABEL + title + "\n") + (SUMMARY_LABEL + summary);
    assert text[p..] == SUMMARY_LABEL + summary;
    assert text[p..p + |SUMMARY_LABEL|] == SUMMARY_LABEL;
    assert OccursAt(text, SUMMARY_LABEL, p);
    forall k | 0 <= k < p ensures !OccursAt(text, SUMMARY_LABEL, k) {
      NoSummaryBefore(title, summary, k);
    }
    assert IndexOf(text, SUMMARY_LABEL, 0) == Some(p);
    assert text[p + |SUMMARY_LABEL|..] == summary;
    RestOfLineWhole(summary);
  }

  /**
   * An answer in the requested format reads back as the title and the summary it
   * was written from, provided both are single trimmed lines and the title does
   * not itself contain `Summary: ` (which the summary search would find first).
   */
  lemma {:induction false} AnswerRoundTrip(title: string, summary: string)
    requires OneLine(title) && OneLine(summary)
    requires Trim(title) == title && Trim(summary) == summary
    requires forall k :: 0 <= k <= |title| ==> !OccursAt(title, SUMMARY_LABEL, k)
    ensures ParseSummaryAnswer(FormatAnswer(title, summary)) == SummaryAndTitle(title, summary)
  {
    TitleOfAnswer(title, summary);
    SummaryOfAnswer(title, summary);
  }

  lemma NoSummaryBefore(title: string, summary: string, k: int)
    requires forall j :: 0 <= j <= |title| ==> !OccursAt(title, SUMMARY_LABEL, j)
    requires 0 <= k < |TITLE_LABEL| + |title| + 1
    ensures !OccursAt(FormatAnswer(title, summary), SUMMARY_LABEL, k)
  {
    var text := FormatAnswer(title, summary);
    var t := |TITLE_LABEL|;
    var n := |SUMMARY_LABEL|;
    var nl := t + |title|;
    assert text[nl] == '\n';
    if k + n <= |text| {
      var w := text[k..k + n];
      if k < t {
        assert w[0] == TITLE_LABEL[k];
      } else if k == nl {
        assert w[0] == '\n';
      } else if k + n <= nl {
        assert w == title[k - t..k - t + n];
        assert !OccursAt(title, SUMMARY_LABEL, k - t);
      } else {
        assert w[nl - k] == '\n';
      }
    }
  }
}

/** The Markdown rendering of a research report
    (`ResearchReportGenerator._build_markdown_content`): a list of lines in
    a fixed section order, joined with newlines. */
module ReportMarkdown {
  import opened Wrappers
  import opened Seqs
  import opened Text

  // ------------------------------------------------------------ data model

  /** One search hit of a research step.  The source keeps these as
      dictionaries; an absent key is `None` here. */
  datatype SearchResult = SearchResult(title: Option<string>, url: Option<string>, content: Option<string>)

  datatype ResearchStep = ResearchStep(
    stepNumber: int,
    query: string,
    description: string,
    results: seq<SearchResult>,
    analysis: string,
    completed: bool)

  /** The creation time of a report, already rendered in the two formats the
      generator uses: `%Y%m%d_%H%M%S` for file names and
      `%Y年%m月%d日 %H:%M:%S` for the metadata block. */
  datatype CreatedAt = CreatedAt(compact: string, display: string)

  /** A finished research report; `durationText` is `total_duration`
      rendered with two decimals. */
  datatype ResearchReport = ResearchReport(
    topic: string,
    language: string,
    steps: seq<ResearchStep>,
    sources: seq<string>,
    executiveSummary: string,
    keyFindings: seq<string>,
    recommendations: seq<string>,
    durationText: string,
    createdAt: CreatedAt)

  // ------------------------------------------------------------ fixed text

  const TitleSuffix := " - 深度研究报告"
  const InfoHeading := "## 📊 报告信息"
  const SummaryHeading := "## 📋 摘要"
  const FindingsHeading := "## 🔍 关键发现"
  const RecommendationsHeading := "## 💡 建议与推荐"
  const SourcesHeading := "## 📚 参考来源"
  const TopicLabel := "- **研究主题**: "
  const LanguageLabel := "- **报告语言**: "
  const CreatedLabel := "- **生成时间**: "
  const DurationLabel := "- **研究耗时**: "
  const StepCountLabel := "- **研究步骤**: "
  const SourceCountLabel := "- **信息来源**: "
  const CountUnit := " 个"
  const ResultsLabel := "**主要信息来源**:"
  const IncompleteStatus := "**研究状态**: ❌ 未完成"
  const ErrorLabel := "**错误信息**: "
  const QuotePrefix := "   > "
  const DefaultTitle := "未知标题"
  const DefaultUrl := "#"
  const FooterNote := "*本报告由 LandPPT DEEP Research 系统自动生成*"

  /** How many hits of a completed step are listed. */
  const MaxListedResults: nat := 3
  /** How many characters of a hit's content are quoted. */
  const PreviewLength: nat := 150

  // ------------------------------------------------------------ blocks

  /** Title, metadata block and the blank line after it. */
  function MetadataLines(r: ResearchReport): seq<string> {
    TitleLines(r) + [InfoHeading, ""] + FactLines(r)
  }

  /** The report title and the rule under it. */
  function TitleLines(r: ResearchReport): seq<string> {
    ["# " + r.topic + TitleSuffix, "", "---", ""]
  }

  /** The bullet list of report facts and the blank line after it. */
  function FactLines(r: ResearchReport): seq<string> {
    [ TopicLabel + r.topic,
      LanguageLabel + r.language,
      CreatedLabel + r.createdAt.display,
      DurationLabel + r.durationText + " 秒",
      StepCountLabel + NatStr(|r.steps|) + CountUnit,
      SourceCountLabel + NatStr(|r.sources|) + CountUnit,
      "" ]
  }

  function SummaryLines(r: ResearchReport): seq<string> {
    [SummaryHeading, "", r.executiveSummary, ""]
  }

  /** `enumerate(items, start)`: item `k` becomes `"<start+k>. <item>"`. */
  function Numbered(start: nat, items: seq<string>): (lines: seq<string>)
    ensures |lines| == |items|
    ensures forall k :: 0 <= k < |items| ==> lines[k] == NatStr(start + k) + ". " + items[k]
    decreases |items|
  {
    if |items| == 0 then []
    else [NatStr(start) + ". " + items[0]] + Numbered(start + 1, items[1..])
  }

  /** A numbered section under `heading`, left out entirely when there is
      nothing to list: heading, blank, items numbered from 1, blank. */
  function ListSection(heading: string, items: seq<string>): (lines: seq<string>)
    ensures |items| == 0 ==> lines == []
    ensures |items| > 0 ==>
      && |lines| == |items| + 3
      && lines[0] == heading && lines[1] == "" && lines[|lines| - 1] == ""
      && forall k :: 0 <= k < |items| ==> lines[k + 2] == NatStr(k + 1) + ". " + items[k]
  {
    if |items| == 0 then [] else [heading, ""] + Numbered(1, items) + [""]
  }

  /** The quoted part of a hit's content: all of it when it has at most 150
      characters, otherwise its first 150 characters followed by `...`. */
  function Preview(content: string): (p: string)
    ensures |content| <= PreviewLength ==> p == content
    ensures |content| > PreviewLength ==>
      && |p| == PreviewLength + 3
      && p[..PreviewLength] == content[..PreviewLength]
      && p[PreviewLength..] == "..."
  {
    if |content| > PreviewLength then content[..PreviewLength] + "..." else content
  }

  function TitleOf(hit: SearchResult): string {
    hit.title.GetOr(DefaultTitle)
  }

  function UrlOf(hit: SearchResult): string {
    hit.url.GetOr(DefaultUrl)
  }

  /** The Markdown link line of hit number `i`. */
  function LinkLine(i: nat, hit: SearchResult): string {
    NatStr(i) + ". [" + TitleOf(hit) + "](" + UrlOf(hit) + ")"
  }

  /** Python truthiness of `result.get('content')`. */
  predicate HasContent(hit: SearchResult) {
    hit.content.Some? && hit.content.value != ""
  }

  /** Hit number `i`: its link, then a quote of its content if it has any. */
  function HitLines(i: nat, hit: SearchResult): seq<string> {
    [LinkLine(i, hit)] + (if HasContent(hit) then [QuotePrefix + Preview(hit.content.value)] else [])
  }

  function HitsLines(start: nat, hits: seq<SearchResult>): seq<string>
    decreases |hits|
  {
    if |hits| == 0 then [] else HitLines(start, hits[0]) + HitsLines(start + 1, hits[1..])
  }

  /** The source list of a completed step: only its first three hits. */
  function ResultsBlock(hits: seq<SearchResult>): seq<string> {
    if |hits| == 0 then [] else [ResultsLabel, ""] + HitsLines(1, Take(hits, MaxListedResults)) + [""]
  }

  /** A completed step shows its analysis and sources; any other step shows
      the not-completed status and its analysis as the error message. */
  function StepLines(step: ResearchStep): seq<string> {
    if step.completed then [step.analysis, ""] + ResultsBlock(step.results)
    else [IncompleteStatus, "", ErrorLabel + step.analysis, ""]
  }

  function StepsLines(steps: seq<ResearchStep>): seq<string>
    decreases |steps|
  {
    if |steps| == 0 then [] else StepLines(steps[0]) + StepsLines(steps[1..])
  }

  /** `now` is the rendering time formatted as `%Y-%m-%d %H:%M:%S`. */
  function FooterLines(now: string): seq<string> {
    ["---", "", FooterNote, "", "*生成时间: " + now + "*"]
  }

  /** The lines of the report in their fixed order.  The source builds this
      list by appending to `content`, which it never initialises; this is
      the list it evidently means to build, starting from `[]`. */
  function ReportLines(r: ResearchReport, now: string): seq<string> {
    MetadataLines(r) + SummaryLines(r)
    + ListSection(FindingsHeading, r.keyFindings)
    + ListSection(RecommendationsHeading, r.recommendations)
    + StepsLines(r.steps)
    + ListSection(SourcesHeading, r.sources)
    + FooterLines(now)
  }

  /** `_build_markdown_content` with its line list initialised: `"\n".join`. */
  function BuildMarkdown(r: ResearchReport, now: string): string {
    Join("\n", ReportLines(r, now))
  }

  // ------------------------------------------------------------ as written

  /** The exception a lookup of a name bound nowhere raises. */
  datatype RenderError = NameError(name: string)

  /** Appending `lines` one at a time to the list bound to `content` (`None`
      while the name is unbound), then reading it back for the join.  An
      unbound name fails at its first use, so nothing is produced. */
  function AppendLines(content: Option<seq<string>>, lines: seq<string>): (res: Result<seq<string>, RenderError>)
    ensures content.Some? ==> res == Success(content.value + lines)
    ensures content.None? ==> res == Failure(NameError("content"))
    decreases |lines|
  {
    match content
    case None => Failure(NameError("content"))
    case Some(acc) =>
      if |lines| == 0 then
        assert acc + lines == acc;
        Success(acc)
      else
        assert acc + lines == (acc + [lines[0]]) + lines[1..];
        AppendLines(Some(acc + [lines[0]]), lines[1..])
  }

  /** `_build_markdown_content` as the source has it: the list `content` is
      appended to but never created, so the name is unbound when the first
      append runs. */
  function BuildMarkdownAsWritten(r: ResearchReport, now: string): Result<string, RenderError> {
    match AppendLines(None, ReportLines(r, now))
    case Success(lines) => Success(Join("\n", lines))
    case Failure(e) => Failure(e)
  }

  /** As written, rendering never succeeds: every report, even one with no
      steps, findings or sources, fails with `NameError` on `content`. */
  lemma AsWrittenAlwaysFails(r: ResearchReport, now: string)
    ensures BuildMarkdownAsWritten(r, now) == Failure(NameError("content"))
    ensures BuildMarkdownAsWritten(r, now) != Success(BuildMarkdown(r, now))
  {
  }

  /** Starting from `content = []`, the same appends render the report. */
  lemma InitialisedRenders(r: ResearchReport, now: string)
    ensures AppendLines(Some([]), ReportLines(r, now)) == Success(ReportLines(r, now))
  {
    assert [] + ReportLines(r, now) == ReportLines(r, now);
  }
}

/** What a reader of a rendered report can rely on: which section headings
    appear, where the error messages of failed steps and the source links of
    completed steps end up, that the metadata counts read back, and that the
    text splits back into its lines. */
module ReportLayout {
  import opened Wrappers
  import opened Seqs
  import opened Text
  import opened ReportMarkdown

  // ------------------------------------------------------------ line kinds

  /** A second-level Markdown heading: the line starts with `## `. */
  predicate IsHeading(line: string) {
    |line| >= 3 && line[0] == '#' && line[1] == '#' && line[2] == ' '
  }

  lemma HeadingPrefix(line: string)
    ensures IsHeading(line) <==> StartsWith(line, "## ")
  {
    if |line| >= 3 {
      assert line[..3] == [line[0], line[1], line[2]];
    }
  }

  /** The error line of a step that did not complete. */
  predicate IsErrorLine(line: string) {
    StartsWith(line, ErrorLabel)
  }

  /** A numbered line: a link of the source list of a step, or an item of a
      numbered section. */
  predicate IsNumberedLine(line: string) {
    |line| > 0 && IsDigit(line[0])
  }

  /** Lines of a step's source list other than the numbered links: neither
      headings nor error lines nor numbered. */
  predicate Quiet(line: string) {
    line == ResultsLabel || |line| == 0 || (line[0] != '#' && line[0] != '*' && !IsDigit(line[0]))
  }

  lemma QuietIsPlain(line: string)
    requires Quiet(line)
    ensures !IsHeading(line) && !IsErrorLine(line) && !IsNumberedLine(line)
  {
    if line == ResultsLabel {
      assert line[2] != ErrorLabel[2];
    }
  }

  /** A line whose character `i < 3` differs from `## ` is no heading. */
  lemma NotHeadingAt(line: string, i: nat)
    requires i < 3 && i < |line| && line[i] != "## "[i]
    ensures !IsHeading(line)
  {
  }

  /** A numbered line is neither a heading nor an error line. */
  lemma NumberedIsPlain(line: string)
    requires IsNumberedLine(line)
    ensures !IsHeading(line) && !IsErrorLine(line)
  {
  }

  function Unfinished(step: ResearchStep): bool {
    !step.completed
  }

  // ------------------------------------------------------------ step blocks

  /** Every line of the hit list starting at number `start` is either the
      numbered link of a hit or a quiet quote line. */
  lemma {:induction false} HitsLinesKinds(start: nat, hits: seq<SearchResult>)
    ensures forall k :: 0 <= k < |HitsLines(start, hits)| ==>
      IsNumberedLine(HitsLines(start, hits)[k]) || Quiet(HitsLines(start, hits)[k])
    decreases |hits|
  {
    if |hits| > 0 {
      HitsLinesKinds(start + 1, hits[1..]);
      var h := hits[0];
      assert LinkLine(start, h)[0] == NatStr(start)[0];
    }
  }

  /** The link lines of `hits`, numbered on from `start`. */
  function LinkLines(start: nat, hits: seq<SearchResult>): (links: seq<string>)
    ensures |links| == |hits|
    ensures forall k :: 0 <= k < |hits| ==> links[k] == LinkLine(start + k, hits[k])
    decreases |hits|
  {
    if |hits| == 0 then [] else [LinkLine(start, hits[0])] + LinkLines(start + 1, hits[1..])
  }

  /** The numbered lines of a hit list are its links, one per hit, numbered
      on from `start`; quotes of content never count. */
  lemma {:induction false} HitsLinks(start: nat, hits: seq<SearchResult>)
    ensures Filter(IsNumberedLine, HitsLines(start, hits)) == LinkLines(start, hits)
    decreases |hits|
  {
    if |hits| > 0 {
      HitsLinks(start + 1, hits[1..]);
      HitLink(start, hits[0]);
      FilterConcat(IsNumberedLine, HitLines(start, hits[0]), HitsLines(start + 1, hits[1..]));
    }
  }

  /** The only numbered line of one hit is its link. */
  lemma HitLink(start: nat, h: SearchResult)
    ensures Filter(IsNumberedLine, HitLines(start, h)) == [LinkLine(start, h)]
  {
    var link := LinkLine(start, h);
    assert link[0] == NatStr(start)[0];
    var quote: seq<string> := if HasContent(h) then [QuotePrefix + Preview(h.content.value)] else [];
    FilterConcat(IsNumberedLine, [link], quote);
    FilterSingle(IsNumberedLine, link);
    FilterNone(IsNumberedLine, quote);
  }

  /** A quoted preview of a hit's content. */
  predicate IsQuoteLine(line: string) {
    StartsWith(line, QuotePrefix)
  }

  /** The previews of the hits whose content is truthy, in order. */
  function Previews(hits: seq<SearchResult>): seq<string>
    decreases |hits|
  {
    if |hits| == 0 then []
    else
      var quote := if HasContent(hits[0]) then [QuotePrefix + Preview(hits[0].content.value)] else [];
      quote + Previews(hits[1..])
  }

  /** The quote lines of a hit list are the previews of exactly the hits
      with content, in order; a link line is never one. */
  lemma {:induction false} HitsQuotes(start: nat, hits: seq<SearchResult>)
    ensures Filter(IsQuoteLine, HitsLines(start, hits)) == Previews(hits)
    decreases |hits|
  {
    if |hits| > 0 {
      HitsQuotes(start + 1, hits[1..]);
      HitQuote(start, hits[0]);
      FilterConcat(IsQuoteLine, HitLines(start, hits[0]), HitsLines(start + 1, hits[1..]));
    }
  }

  /** One hit contributes its preview, and only when it has content. */
  lemma HitQuote(start: nat, h: SearchResult)
    ensures Filter(IsQuoteLine, HitLines(start, h))
      == if HasContent(h) then [QuotePrefix + Preview(h.content.value)] else []
  {
    var link := LinkLine(start, h);
    assert link[0] == NatStr(start)[0];
    assert !IsQuoteLine(link) by {
      if |QuotePrefix| <= |link| {
        assert link[..|QuotePrefix|][0] != QuotePrefix[0];
      }
    }
    var quote: seq<string> := if HasContent(h) then [QuotePrefix + Preview(h.content.value)] else [];
    FilterConcat(IsQuoteLine, [link], quote);
    FilterSingle(IsQuoteLine, link);
    if HasContent(h) {
      var q := QuotePrefix + Preview(h.content.value);
      assert q[..|QuotePrefix|] == QuotePrefix;
      FilterSingle(IsQuoteLine, q);
    }
  }

  /** The source list of a completed step links exactly its first
      `min(3, |hits|)` hits, numbered from 1, in order. */
  lemma ResultsLinks(hits: seq<SearchResult>)
    ensures var links := Filter(IsNumberedLine, ResultsBlock(hits));
      && |links| == (if |hits| < MaxListedResults then |hits| else MaxListedResults)
      && forall k :: 0 <= k < |links| ==> links[k] == LinkLine(k + 1, hits[k])
  {
    if |hits| > 0 {
      var top := Take(hits, MaxListedResults);
      var head: seq<string> := [ResultsLabel, ""];
      var mid := HitsLines(1, top);
      FilterNone(IsNumberedLine, head);
      FilterNone(IsNumberedLine, [""]);
      FilterConcat(IsNumberedLine, head, mid);
      FilterConcat(IsNumberedLine, head + mid, [""]);
      HitsLinks(1, top);
    }
  }

  /** No line of a source list is a heading or an error line. */
  lemma ResultsBlockPlain(hits: seq<SearchResult>)
    ensures forall k :: 0 <= k < |ResultsBlock(hits)| ==>
      !IsHeading(ResultsBlock(hits)[k]) && !IsErrorLine(ResultsBlock(hits)[k])
  {
    if |hits| > 0 {
      var mid := HitsLines(1, Take(hits, MaxListedResults));
      HitsLinesKinds(1, Take(hits, MaxListedResults));
      forall k | 0 <= k < |mid|
        ensures !IsHeading(mid[k]) && !IsErrorLine(mid[k])
      {
        if IsNumberedLine(mid[k]) {
          NumberedIsPlain(mid[k]);
        } else {
          QuietIsPlain(mid[k]);
        }
      }
      QuietIsPlain(ResultsLabel);
      assert ResultsBlock(hits) == [ResultsLabel, ""] + mid + [""];
    }
  }

  /** The analysis of every completed step is free of heading markup. */
  predicate AnalysesNotHeadings(steps: seq<ResearchStep>) {
    forall k :: 0 <= k < |steps| && steps[k].completed ==> !IsHeading(steps[k].analysis)
  }

  /** The analysis of every completed step does not itself look like an
      error line. */
  predicate AnalysesNotErrors(steps: seq<ResearchStep>) {
    forall k :: 0 <= k < |steps| && steps[k].completed ==> !IsErrorLine(steps[k].analysis)
  }

  lemma StepNoHeading(step: ResearchStep)
    requires step.completed ==> !IsHeading(step.analysis)
    ensures Filter(IsHeading, StepLines(step)) == []
  {
    var lines := StepLines(step);
    if step.completed {
      var rb := ResultsBlock(step.results);
      ResultsBlockPlain(step.results);
      assert lines == [step.analysis, ""] + rb;
      forall k | 0 <= k < |lines|
        ensures !IsHeading(lines[k])
      {
        if k >= 2 {
          assert lines[k] == rb[k - 2];
        }
      }
    } else {
      forall k | 0 <= k < |lines|
        ensures !IsHeading(lines[k])
      {
        if k % 2 == 0 {
          NotHeadingAt(lines[k], 0);
        }
      }
    }
    FilterNone(IsHeading, lines);
  }

  /** The step blocks of a report contribute no heading. */
  lemma {:induction false} StepsNoHeading(steps: seq<ResearchStep>)
    requires AnalysesNotHeadings(steps)
    ensures Filter(IsHeading, StepsLines(steps)) == []
    decreases |steps|
  {
    if |steps| > 0 {
      StepNoHeading(steps[0]);
      StepsNoHeading(steps[1..]);
      FilterConcat(IsHeading, StepLines(steps[0]), StepsLines(steps[1..]));
    }
  }

  lemma StepErrors(step: ResearchStep)
    requires step.completed ==> !IsErrorLine(step.analysis)
    ensures Filter(IsErrorLine, StepLines(step))
      == if step.completed then [] else [ErrorLabel + step.analysis]
  {
    if step.completed {
      CompletedNoErrors(step);
    } else {
      IncompleteErrors(step.analysis);
    }
  }

  lemma CompletedNoErrors(step: ResearchStep)
    requires step.completed && !IsErrorLine(step.analysis)
    ensures Filter(IsErrorLine, StepLines(step)) == []
  {
    ResultsBlockPlain(step.results);
    FilterNone(IsErrorLine, StepLines(step));
  }

  /** The one error line of a step that did not complete. */
  lemma IncompleteErrors(analysis: string)
    ensures Filter(IsErrorLine, [IncompleteStatus, "", ErrorLabel + analysis, ""]) == [ErrorLabel + analysis]
  {
    var a: seq<string> := [IncompleteStatus, ""];
    var e := ErrorLabel + analysis;
    assert IncompleteStatus[2] != ErrorLabel[2];
    assert e[..|ErrorLabel|] == ErrorLabel;
    FilterNone(IsErrorLine, a);
    FilterNone(IsErrorLine, [""]);
    FilterSingle(IsErrorLine, e);
    FilterConcat(IsErrorLine, a, [e]);
    FilterConcat(IsErrorLine, a + [e], [""]);
    assert [IncompleteStatus, "", e, ""] == a + [e] + [""];
  }

  /** The error line each of `failed` would show, in order. */
  function ErrorTexts(failed: seq<ResearchStep>): (errs: seq<string>)
    ensures |errs| == |failed|
    ensures forall k :: 0 <= k < |failed| ==> errs[k] == ErrorLabel + failed[k].analysis
    decreases |failed|
  {
    if |failed| == 0 then [] else [ErrorLabel + failed[0].analysis] + ErrorTexts(failed[1..])
  }

  /** The error lines of the rendered steps are those of the steps that did
      not complete, in order, each showing that step's analysis. */
  lemma {:induction false} StepsErrorLines(steps: seq<ResearchStep>)
    requires AnalysesNotErrors(steps)
    ensures Filter(IsErrorLine, StepsLines(steps)) == ErrorTexts(Filter(Unfinished, steps))
    decreases |steps|
  {
    if |steps| > 0 {
      var s, rest := steps[0], steps[1..];
      assert AnalysesNotErrors(rest) by {
        forall k | 0 <= k < |rest| && rest[k].completed
          ensures !IsErrorLine(rest[k].analysis)
        {
          assert rest[k] == steps[k + 1];
        }
      }
      assert !s.completed || !IsErrorLine(s.analysis);
      StepErrors(s);
      StepsErrorLines(rest);
      FilterConcat(IsErrorLine, StepLines(s), StepsLines(rest));
      if Unfinished(s) {
        var f := Filter(Unfinished, rest);
        assert ([s] + f)[1..] == f;
      }
    }
  }

  // ------------------------------------------------------------ headings

  /** `[heading]` when the section is rendered, nothing otherwise. */
  function Present(heading: string, items: seq<string>): seq<string> {
    if |items| == 0 then [] else [heading]
  }

  lemma {:induction false} NumberedPlain(start: nat, items: seq<string>)
    ensures forall k :: 0 <= k < |items| ==> IsNumberedLine(Numbered(start, items)[k])
  {
    forall k | 0 <= k < |items|
      ensures IsNumberedLine(Numbered(start, items)[k])
    {
      assert Numbered(start, items)[k][0] == NatStr(start + k)[0];
    }
  }

  /** A numbered section shows its heading exactly when it has items. */
  lemma SectionHeadings(heading: string, items: seq<string>)
    requires IsHeading(heading)
    ensures Filter(IsHeading, ListSection(heading, items)) == Present(heading, items)
  {
    if |items| > 0 {
      var nums := Numbered(1, items);
      NumberedPlain(1, items);
      forall k | 0 <= k < |nums|
        ensures !IsHeading(nums[k])
      {
        NumberedIsPlain(nums[k]);
      }
      FilterNone(IsHeading, nums);
      FilterNone(IsHeading, [""]);
      FilterSingle(IsHeading, heading);
      FilterConcat(IsHeading, [heading], [""]);
      FilterConcat(IsHeading, [heading, ""], nums);
      FilterConcat(IsHeading, [heading, ""] + nums, [""]);
      assert [heading, ""] == [heading] + [""];
    }
  }

  lemma MetadataHeadings(r: ResearchReport)
    ensures Filter(IsHeading, MetadataLines(r)) == [InfoHeading]
  {
    var a, b, c := TitleLines(r), [InfoHeading, ""], FactLines(r);
    TitleNoHeading(r);
    FactsNoHeading(r);
    InfoBlockHeading();
    FilterConcat(IsHeading, a, b);
    FilterConcat(IsHeading, a + b, c);
  }

  lemma InfoBlockHeading()
    ensures Filter(IsHeading, [InfoHeading, ""]) == [InfoHeading]
  {
    assert IsHeading(InfoHeading) by {
      assert InfoHeading[0] == '#' && InfoHeading[1] == '#' && InfoHeading[2] == ' ';
    }
    FilterSingle(IsHeading, InfoHeading);
    FilterNone(IsHeading, [""]);
    FilterConcat(IsHeading, [InfoHeading], [""]);
    assert [InfoHeading, ""] == [InfoHeading] + [""];
  }

  lemma TitleNoHeading(r: ResearchReport)
    ensures Filter(IsHeading, TitleLines(r)) == []
  {
    var a := TitleLines(r);
    forall k | 0 <= k < |a|
      ensures !IsHeading(a[k])
    {
      if k == 0 {
        NotHeadingAt(a[k], 1);
      } else if k == 2 {
        NotHeadingAt(a[k], 0);
      }
    }
    FilterNone(IsHeading, a);
  }

  lemma FactsNoHeading(r: ResearchReport)
    ensures Filter(IsHeading, FactLines(r)) == []
  {
    var c := FactLines(r);
    forall k | 0 <= k < |c|
      ensures !IsHeading(c[k])
    {
      if k < 6 {
        NotHeadingAt(c[k], 0);
      }
    }
    FilterNone(IsHeading, c);
  }

  lemma SummaryHeadings(r: ResearchReport)
    requires !IsHeading(r.executiveSummary)
    ensures Filter(IsHeading, SummaryLines(r)) == [SummaryHeading]
  {
    var rest: seq<string> := ["", r.executiveSummary, ""];
    FilterNone(IsHeading, rest);
    assert IsHeading(SummaryHeading) by {
      assert SummaryHeading[0] == '#' && SummaryHeading[1] == '#' && SummaryHeading[2] == ' ';
    }
    FilterSingle(IsHeading, SummaryHeading);
    FilterConcat(IsHeading, [SummaryHeading], rest);
    assert SummaryLines(r) == [SummaryHeading] + rest;
  }

  lemma FooterHeadings(now: string)
    ensures Filter(IsHeading, FooterLines(now)) == []
  {
    var f := FooterLines(now);
    forall k | 0 <= k < |f|
      ensures !IsHeading(f[k])
    {
      if k % 2 == 0 {
        NotHeadingAt(f[k], 0);
      }
    }
    FilterNone(IsHeading, f);
  }

  /** The section headings of a report: the metadata and summary headings
      always, then the findings, recommendations and sources headings each
      exactly when that list is non-empty, in this order.  User text is
      assumed not to start with `## ` itself. */
  lemma ReportHeadings(r: ResearchReport, now: string)
    requires !IsHeading(r.executiveSummary)
    requires AnalysesNotHeadings(r.steps)
    ensures Filter(IsHeading, ReportLines(r, now))
      == [InfoHeading, SummaryHeading]
         + Present(FindingsHeading, r.keyFindings)
         + Present(RecommendationsHeading, r.recommendations)
         + Present(SourcesHeading, r.sources)
  {
    ReportParts(r, now);
    HeadHeadings(r);
    TailHeadings(r, now);
    FilterConcat(IsHeading, HeadPart(r), TailPart(r, now));
  }

  lemma HeadHeadings(r: ResearchReport)
    requires !IsHeading(r.executiveSummary)
    ensures Filter(IsHeading, HeadPart(r))
      == [InfoHeading, SummaryHeading]
         + Present(FindingsHeading, r.keyFindings)
         + Present(RecommendationsHeading, r.recommendations)
  {
    var m, s := MetadataLines(r), SummaryLines(r);
    var f := ListSection(FindingsHeading, r.keyFindings);
    var c := ListSection(RecommendationsHeading, r.recommendations);
    MetadataHeadings(r);
    SummaryHeadings(r);
    SectionHeadings(FindingsHeading, r.keyFindings);
    SectionHeadings(RecommendationsHeading, r.recommendations);
    FilterConcat4(IsHeading, m, s, f, c);
    assert [InfoHeading] + [SummaryHeading] == [InfoHeading, SummaryHeading];
  }

  lemma TailHeadings(r: ResearchReport, now: string)
    requires AnalysesNotHeadings(r.steps)
    ensures Filter(IsHeading, TailPart(r, now)) == Present(SourcesHeading, r.sources)
  {
    var st := StepsLines(r.steps);
    var so := ListSection(SourcesHeading, r.sources);
    var ft := FooterLines(now);
    StepsNoHeading(r.steps);
    SectionHeadings(SourcesHeading, r.sources);
    FooterHeadings(now);
    FilterConcat(IsHeading, so, ft);
    FilterConcat(IsHeading, st, so + ft);
  }

  // ------------------------------------------------------------ counts

  /** The number a count line `tag` + digits + ` 个` carries, read back
      the way a reader of the report would; `None` for any other line. */
  function CountIn(line: string, tag: string): Option<nat> {
    if |line| >= |tag| + |CountUnit| && StartsWith(line, tag) && EndsWith(line, CountUnit) then
      var digits := line[|tag|..|line| - |CountUnit|];
      if |digits| > 0 && AllDigits(digits) then Some(ParseNat(digits)) else None
    else None
  }

  /** The step and source counts of the metadata block read back as the
      numbers of steps and sources of the report. */
  lemma CountsReadBack(r: ResearchReport, now: string)
    ensures |ReportLines(r, now)| > 11
    ensures CountIn(ReportLines(r, now)[10], StepCountLabel) == Some(|r.steps|)
    ensures CountIn(ReportLines(r, now)[11], SourceCountLabel) == Some(|r.sources|)
  {
    CountLinesAt(r, now);
    CountLine(StepCountLabel, |r.steps|);
    CountLine(SourceCountLabel, |r.sources|);
  }

  /** Lines 10 and 11 of a report are the step and source count lines. */
  lemma CountLinesAt(r: ResearchReport, now: string)
    ensures |ReportLines(r, now)| > 11
    ensures ReportLines(r, now)[10] == FactLines(r)[4]
    ensures ReportLines(r, now)[11] == FactLines(r)[5]
  {
    var m := MetadataLines(r);
    var rest := ReportLines(r, now)[|m|..];
    assert |m| == 13 && m[10] == FactLines(r)[4] && m[11] == FactLines(r)[5];
    assert ReportLines(r, now) == m + rest;
  }

  lemma CountLine(tag: string, n: nat)
    ensures CountIn(tag + NatStr(n) + CountUnit, tag) == Some(n)
  {
    var d := NatStr(n);
    var line := tag + d + CountUnit;
    assert line[..|tag|] == tag;
    assert line[|line| - |CountUnit|..] == CountUnit;
    assert line[|tag|..|line| - |CountUnit|] == d;
    ParseNatStr(n);
  }

  // ------------------------------------------------------------ lines

  predicate OneLine(s: string) {
    '\n' !in s
  }

  predicate AllOneLine(xs: seq<string>) {
    forall k :: 0 <= k < |xs| ==> OneLine(xs[k])
  }

  predicate HitOneLine(hit: SearchResult) {
    && (hit.title.Some? ==> OneLine(hit.title.value))
    && (hit.url.Some? ==> OneLine(hit.url.value))
    && (hit.content.Some? ==> OneLine(hit.content.value))
  }

  predicate StepOneLine(step: ResearchStep) {
    && OneLine(step.analysis)
    && forall k :: 0 <= k < |step.results| ==> HitOneLine(step.results[k])
  }

  /** None of the text a report is rendered from contains a newline. */
  predicate SingleLineText(r: ResearchReport, now: string) {
    && OneLine(r.topic) && OneLine(r.language) && OneLine(r.createdAt.display)
    && OneLine(r.durationText) && OneLine(r.executiveSummary) && OneLine(now)
    && AllOneLine(r.keyFindings) && AllOneLine(r.recommendations) && AllOneLine(r.sources)
    && forall k :: 0 <= k < |r.steps| ==> StepOneLine(r.steps[k])
  }

  lemma DigitsOneLine(s: string)
    requires AllDigits(s)
    ensures OneLine(s)
  {
  }

  lemma AllOneLineConcat(a: seq<string>, b: seq<string>)
    requires AllOneLine(a) && AllOneLine(b)
    ensures AllOneLine(a + b)
  {
  }

  lemma SectionOneLine(heading: string, items: seq<string>)
    requires OneLine(heading) && AllOneLine(items)
    ensures AllOneLine(ListSection(heading, items))
  {
    var lines := ListSection(heading, items);
    forall k | 0 <= k < |lines|
      ensures OneLine(lines[k])
    {
      if 2 <= k < |lines| - 1 {
        DigitsOneLine(NatStr(k - 1));
      }
    }
  }

  lemma {:induction false} HitsOneLine(start: nat, hits: seq<SearchResult>)
    requires forall k :: 0 <= k < |hits| ==> HitOneLine(hits[k])
    ensures AllOneLine(HitsLines(start, hits))
    decreases |hits|
  {
    if |hits| > 0 {
      var h := hits[0];
      HitsOneLine(start + 1, hits[1..]);
      DigitsOneLine(NatStr(start));
      assert OneLine(LinkLine(start, h));
      if HasContent(h) {
        var c := h.content.value;
        assert OneLine(Preview(c)) by {
          if |c| > PreviewLength {
            assert '\n' !in c[..PreviewLength];
          }
        }
      }
      AllOneLineConcat(HitLines(start, h), HitsLines(start + 1, hits[1..]));
    }
  }

  lemma StepLinesOneLine(step: ResearchStep)
    requires StepOneLine(step)
    ensures AllOneLine(StepLines(step))
  {
    if step.completed && |step.results| > 0 {
      var top := Take(step.results, MaxListedResults);
      HitsOneLine(1, top);
      var mid := HitsLines(1, top);
      assert ResultsBlock(step.results) == [ResultsLabel, ""] + mid + [""];
    }
  }

  lemma {:induction false} StepsOneLine(steps: seq<ResearchStep>)
    requires forall k :: 0 <= k < |steps| ==> StepOneLine(steps[k])
    ensures AllOneLine(StepsLines(steps))
    decreases |steps|
  {
    if |steps| > 0 {
      StepLinesOneLine(steps[0]);
      StepsOneLine(steps[1..]);
      AllOneLineConcat(StepLines(steps[0]), StepsLines(steps[1..]));
    }
  }

  lemma MetadataOneLine(r: ResearchReport)
    requires OneLine(r.topic) && OneLine(r.language) && OneLine(r.createdAt.display) && OneLine(r.durationText)
    ensures AllOneLine(MetadataLines(r))
  {
    FactsOneLine(r);
    assert AllOneLine(TitleLines(r));
    AllOneLineConcat(TitleLines(r), [InfoHeading, ""]);
    AllOneLineConcat(TitleLines(r) + [InfoHeading, ""], FactLines(r));
  }

  lemma FactsOneLine(r: ResearchReport)
    requires OneLine(r.topic) && OneLine(r.language) && OneLine(r.createdAt.display) && OneLine(r.durationText)
    ensures AllOneLine(FactLines(r))
  {
    DigitsOneLine(NatStr(|r.steps|));
    DigitsOneLine(NatStr(|r.sources|));
  }

  /** Every rendered line is a single line. */
  lemma ReportOneLine(r: ResearchReport, now: string)
    requires SingleLineText(r, now)
    ensures AllOneLine(ReportLines(r, now))
  {
    ReportParts(r, now);
    HeadOneLine(r);
    TailOneLine(r, now);
    AllOneLineConcat(HeadPart(r), TailPart(r, now));
  }

  /** The lines before the steps. */
  function HeadPart(r: ResearchReport): seq<string> {
    MetadataLines(r) + SummaryLines(r)
    + ListSection(FindingsHeading, r.keyFindings)
    + ListSection(RecommendationsHeading, r.recommendations)
  }

  /** The steps and everything after them. */
  function TailPart(r: ResearchReport, now: string): seq<string> {
    StepsLines(r.steps) + (ListSection(SourcesHeading, r.sources) + FooterLines(now))
  }

  lemma ReportParts(r: ResearchReport, now: string)
    ensures ReportLines(r, now) == HeadPart(r) + TailPart(r, now)
  {
    Regroup(HeadPart(r), StepsLines(r.steps), ListSection(SourcesHeading, r.sources), FooterLines(now));
  }

  lemma TailOneLine(r: ResearchReport, now: string)
    requires OneLine(now) && AllOneLine(r.sources)
    requires forall k :: 0 <= k < |r.steps| ==> StepOneLine(r.steps[k])
    ensures AllOneLine(TailPart(r, now))
  {
    var st, so, ft := StepsLines(r.steps), ListSection(SourcesHeading, r.sources), FooterLines(now);
    StepsOneLine(r.steps);
    SectionOneLine(SourcesHeading, r.sources);
    FooterOneLine(now);
    AllOneLineConcat(so, ft);
    AllOneLineConcat(st, so + ft);
  }

  lemma FooterOneLine(now: string)
    requires OneLine(now)
    ensures AllOneLine(FooterLines(now))
  {
  }

  lemma HeadOneLine(r: ResearchReport)
    requires OneLine(r.topic) && OneLine(r.language) && OneLine(r.createdAt.display)
    requires OneLine(r.durationText) && OneLine(r.executiveSummary)
    requires AllOneLine(r.keyFindings) && AllOneLine(r.recommendations)
    ensures AllOneLine(HeadPart(r))
  {
    var m, s := MetadataLines(r), SummaryLines(r);
    var f := ListSection(FindingsHeading, r.keyFindings);
    var c := ListSection(RecommendationsHeading, r.recommendations);
    MetadataOneLine(r);
    assert AllOneLine(s);
    SectionOneLine(FindingsHeading, r.keyFindings);
    SectionOneLine(RecommendationsHeading, r.recommendations);
    AllOneLineConcat(m, s);
    AllOneLineConcat(m + s, f);
    AllOneLineConcat(m + s + f, c);
  }

  /** When no input text holds a newline, splitting the rendered Markdown on
      newlines gives back exactly the lines it was joined from. */
  lemma MarkdownSplitsIntoLines(r: ResearchReport, now: string)
    requires SingleLineText(r, now)
    ensures SplitOn('\n', BuildMarkdown(r, now)) == ReportLines(r, now)
  {
    ReportOneLine(r, now);
    SplitJoin('\n', ReportLines(r, now));
  }

  /** The headings of the saved text itself: when no field holds a newline
      and neither the summary nor a completed analysis starts with `## `,
      the lines of the rendered Markdown that are headings are exactly the
      section headings, in order. */
  lemma TextHeadings(r: ResearchReport, now: string)
    requires SingleLineText(r, now)
    requires !IsHeading(r.executiveSummary)
    requires AnalysesNotHeadings(r.steps)
    ensures Filter(IsHeading, SplitOn('\n', BuildMarkdown(r, now)))
      == [InfoHeading, SummaryHeading]
         + Present(FindingsHeading, r.keyFindings)
         + Present(RecommendationsHeading, r.recommendations)
         + Present(SourcesHeading, r.sources)
  {
    MarkdownSplitsIntoLines(r, now);
    ReportHeadings(r, now);
  }
}

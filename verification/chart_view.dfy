/**
 The chart detail page: the state its single fetch drives (loading, then the
 chart or "Chart not found"), the export file name, and the heading shown
 for each position.
 */
module ChartView {
  import opened Records
  import opened Seqs
  import opened Text

  // ---------------------------------------------------------------------------
  // Fetch state

  /** The page's two pieces of state: `loading` and `chart` (null is `None`). */
  datatype DetailState = DetailState(loading: bool, chart: Option<Chart>)

  /** `useState(null)` and `useState(true)` */
  function InitialDetail(): (d: DetailState)
    ensures d.loading && d.chart == None
  {
    DetailState(true, None)
  }

  /** The completion of `fetchChart`. `.single()` reports a missing row as an
      error, so an absent id and a transport failure resolve alike: the chart
      is left as it was and loading ends. */
  function ResolveFetch(s: DetailState, outcome: FetchOutcome<Chart>): (r: DetailState)
    ensures !r.loading
    ensures outcome.Fetched? ==> r.chart == Some(outcome.data)
    ensures outcome.FetchFailed? ==> r.chart == s.chart
  {
    match outcome
    case FetchFailed => s.(loading := false)
    case Fetched(c) => DetailState(false, Some(c))
  }

  /** What the page renders. */
  datatype DetailView = ShowLoading | ShowNotFound | ShowChart(chart: Chart)

  function ViewOf(s: DetailState): (v: DetailView)
    ensures v == ShowLoading <==> s.loading
    ensures v == ShowNotFound <==> !s.loading && s.chart.None?
    ensures v.ShowChart? ==> s.chart == Some(v.chart)
  {
    if s.loading then ShowLoading
    else if s.chart.None? then ShowNotFound
    else ShowChart(s.chart.value)
  }

  /** Until the fetch resolves, the page shows the loading view. */
  lemma LoadingUntilResolved()
    ensures ViewOf(InitialDetail()) == ShowLoading
  {
  }

  /** Once a fetch resolves the loading view is gone, whatever the outcome. */
  lemma ResolvedIsNotLoading(s: DetailState, outcome: FetchOutcome<Chart>)
    ensures ViewOf(ResolveFetch(s, outcome)) != ShowLoading
  {
  }

  /** A failed first fetch shows "Chart not found"; a successful one shows the chart. */
  lemma FirstFetchOutcome(outcome: FetchOutcome<Chart>)
    ensures outcome.FetchFailed? ==> ViewOf(ResolveFetch(InitialDetail(), outcome)) == ShowNotFound
    ensures outcome.Fetched? ==> ViewOf(ResolveFetch(InitialDetail(), outcome)) == ShowChart(outcome.data)
  {
  }

  /** A failed re-fetch (after the route id changed) keeps showing the chart
      fetched before, since neither state variable is reset. */
  lemma FailedRefetchKeepsPreviousChart(c: Chart)
    ensures ViewOf(ResolveFetch(DetailState(false, Some(c)), FetchFailed)) == ShowChart(c)
  {
  }

  // ---------------------------------------------------------------------------
  // Export file name

  const ExportSuffix: string := "_chart.json"

  /** `${chart.title.replace(/\s+/g, '_')}_chart.json` */
  function ExportFileName(title: string): (name: string)
    ensures |name| >= |ExportSuffix|
    ensures name[|name| - |ExportSuffix|..] == ExportSuffix
    ensures HasNoWhitespace(name[..|name| - |ExportSuffix|])
    ensures IsSubsequence(NonWhitespace(title), name[..|name| - |ExportSuffix|])
  {
    var stem := ReplaceWhitespaceRuns(title);
    ReplaceRunsKeepsNonWhitespace(title);
    assert (stem + ExportSuffix)[..|stem|] == stem;
    stem + ExportSuffix
  }

  /** The stem of the file name is the title read character by character:
      non-whitespace copied, the first character of each whitespace run turned
      into `_`, the rest of the run dropped. */
  lemma ExportFileNameScan(title: string)
    ensures ExportFileName(title) == ScanRuns(title, false) + ExportSuffix
  {
    ReplaceRunsMatchesScan(title);
  }

  /** A title with no whitespace is used verbatim. */
  lemma ExportFileNamePlainTitle(title: string)
    requires HasNoWhitespace(title)
    ensures ExportFileName(title) == title + ExportSuffix
  {
    ReplaceRunsIdentity(title);
  }

  lemma RunExample()
    ensures ReplaceWhitespaceRuns(" Chart") == "_Chart"
  {
    ReplaceRunsIdentity("Chart");
    assert " Chart"[1..] == "Chart";
    assert LeadingWhitespace(" Chart") == 1;
  }

  lemma StemExample()
    ensures ReplaceWhitespaceRuns("Org Chart") == "Org_Chart"
  {
    RunExample();
    assert "Org Chart" == "Org" + " Chart";
    ReplaceRunsPlainPrefix("Org", " Chart");
    assert "Org" + "_Chart" == "Org_Chart";
  }

  /** Example: "Org Chart" is exported as "Org_Chart" followed by the suffix. */
  lemma ExportFileNameExample()
    ensures ExportFileName("Org Chart") == "Org_Chart" + ExportSuffix
  {
    StemExample();
  }

  // ---------------------------------------------------------------------------
  // Position cards

  const UntitledPosition: string := "Untitled Position"

  /** `position.title || 'Untitled Position'` */
  function PositionHeading(p: Position): (heading: string)
    ensures heading != ""
    ensures p.title != "" ==> heading == p.title
    ensures p.title == "" ==> heading == UntitledPosition
  {
    if p.title != "" then p.title else UntitledPosition
  }
}

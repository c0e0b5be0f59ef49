/**
 * The data part of the reports page loader: read the channel parameter, fetch the agent,
 * tag and lead rows of the channel's table page by page, and assemble the three reports;
 * when any awaited call raises, answer the empty fallback report instead.
 */
module ReportLoader {
  import opened Wrappers
  import opened JsValues
  import opened Dedup
  import opened Rounding
  import opened Records
  import opened Pagination
  import opened ReportOptions
  import opened AgentReport
  import opened TagReport
  import opened LeadReport

  /** The columns of the lead query. */
  const LeadFields := "name, phone_number, created_at, \"whatsapp cloud ad source url\", \"whatsapp cloud ad source id\""

  /** What the loader returns, without the user, the role and the static channel table. */
  datatype Report = Report(
    canal: string,
    dataTable: string,
    uniqueAgents: seq<string>,
    uniqueTags: seq<seq<string>>,
    reportTagNames: seq<string>,
    agentPerformanceTable: seq<AgentRow>,
    pieChartData: seq<PieSlice>,
    tagEffectiveness: seq<TagRow>,
    summary: Summary,
    leadsDetallados: seq<LeadWithSource>)

  /** The answer of the `catch` branch. */
  function Fallback(): Report
  {
    Report(DefaultCanal, PymesTable, [], [], [], [], [], [], Summary(0, 0, 0), [])
  }

  /**
   * The report of channel `canal` for the fetched agent rows, tag rows and leads, the
   * `tag_name` column of the report tags (`None` when the query returned no data) and the
   * email-to-name lookup.
   */
  function ReportOf(canal: string, agents: seq<ContactRecord>, tags: seq<ContactRecord>,
                    reportTags: Option<seq<string>>, leads: seq<Lead>, nameOf: NameLookup): Report
  {
    var table := AgentTable(WithAssignee(agents), nameOf);
    var names := reportTags.GetOr([]);
    Report(canal, DataTable(canal), UniqueAgents(agents, nameOf), PresentTagLists(tags), names,
           table, PieChart(table), TagEffectiveness(names, tags, ColumnTotals(table).total),
           SummaryOf(leads), Classified(leads))
  }

  /**
   * The report with the tag options as evidently intended: each tag list once, compared by
   * contents, in the order of first occurrence. The report of the program as written is `ReportOf`.
   */
  function IntendedReport(canal: string, agents: seq<ContactRecord>, tags: seq<ContactRecord>,
                          reportTags: Option<seq<string>>, leads: seq<Lead>, nameOf: NameLookup): (r: Report)
    ensures NoDuplicates(r.uniqueTags)
    ensures forall t :: t in r.uniqueTags <==> t in ReportOf(canal, agents, tags, reportTags, leads, nameOf).uniqueTags
    ensures forall i, j :: 0 <= i < j < |r.uniqueTags| ==>
              var asWritten := ReportOf(canal, agents, tags, reportTags, leads, nameOf).uniqueTags;
              r.uniqueTags[i] in asWritten && r.uniqueTags[j] in asWritten &&
              FirstIndex(asWritten, r.uniqueTags[i]) < FirstIndex(asWritten, r.uniqueTags[j])
    ensures r.(uniqueTags := []) == ReportOf(canal, agents, tags, reportTags, leads, nameOf).(uniqueTags := [])
  {
    ReportOf(canal, agents, tags, reportTags, leads, nameOf).(uniqueTags := UniqueTags(tags))
  }

  /** Report 1: the agent rows with an assignee, reduced per agent, as a table, its totals and the pie. */
  method AgentReports(agentRows: seq<ContactRecord>, nameOf: NameLookup)
    returns (agentPerformanceTable: seq<AgentRow>, pieChartData: seq<PieSlice>, totals: Stats)
    ensures agentPerformanceTable == AgentTable(WithAssignee(agentRows), nameOf)
    ensures totals == ColumnTotals(agentPerformanceTable)
    ensures pieChartData == PieChart(agentPerformanceTable)
  {
    var agentPerformance := WithAssignee(agentRows);
    var order, agentStats := AgentStats(agentPerformance, nameOf);
    agentPerformanceTable := PerformanceTable(order, agentStats);
    totals := ColumnTotals(agentPerformanceTable);
    pieChartData := PieChart(agentPerformanceTable);
  }

  /** The lead-source analysis: the classified leads and their summary. */
  method LeadSources(leadRows: seq<Lead>) returns (leadsDetallados: seq<LeadWithSource>, summary: Summary)
    ensures leadsDetallados == Classified(leadRows)
    ensures summary == SummaryOf(leadRows)
  {
    var facebookLeadsCount, otherLeadsCount;
    leadsDetallados, facebookLeadsCount, otherLeadsCount := ClassifyLeads(leadRows);
    summary := Summarize(facebookLeadsCount, otherLeadsCount);
  }

  /**
   * The loader. `raised` stands for an awaited call that throws (the email mapping, the
   * report tags query or a fetch); the page sources stand for the backend. The ghost
   * results are the rows the three fetches returned.
   */
  method Load(canalParam: Option<string>,
              agentSource: Request -> PageResult<ContactRecord>,
              tagSource: Request -> PageResult<ContactRecord>,
              leadSource: Request -> PageResult<Lead>,
              reportTags: Option<seq<string>>, nameOf: NameLookup, raised: bool)
    returns (report: Report, ghost agents: seq<ContactRecord>, ghost tags: seq<ContactRecord>, ghost leads: seq<Lead>)
    requires EventuallyStops(agentSource, Query(DataTable(Canal(canalParam)), AgentFields, NoFilter))
    requires EventuallyStops(tagSource, Query(DataTable(Canal(canalParam)), TagFields, NoFilter))
    requires EventuallyStops(leadSource, Query(DataTable(Canal(canalParam)), LeadFields, NoFilter))
    ensures raised ==> report == Fallback()
    ensures !raised ==>
              && Fetched(agentSource, Query(DataTable(Canal(canalParam)), AgentFields, NoFilter), agents)
              && Fetched(tagSource, Query(DataTable(Canal(canalParam)), TagFields, NoFilter), tags)
              && Fetched(leadSource, Query(DataTable(Canal(canalParam)), LeadFields, NoFilter), leads)
              && report == ReportOf(Canal(canalParam), agents, tags, reportTags, leads, nameOf)
  {
    var canal := Canal(canalParam);
    var dataTable := DataTable(canal);
    if raised {
      return Fallback(), [], [], [];
    }
    var agentRows := GetAllAgentData(agentSource, dataTable);
    var tagRows := GetAllTagsData(tagSource, dataTable);
    var reportTagNames := reportTags.GetOr([]);

    var agentPerformanceTable, pieChartData, totals := AgentReports(agentRows, nameOf);
    var tagEffectiveness := TagEffectiveness(reportTagNames, tagRows, totals.total);
    var leadRows := GetAllRecordsWithPagination(leadSource, dataTable, LeadFields);
    var leadsDetallados, summary := LeadSources(leadRows);
    report := Report(canal, dataTable, UniqueAgents(agentRows, nameOf), PresentTagLists(tagRows), reportTagNames,
                     agentPerformanceTable, pieChartData, tagEffectiveness, summary, leadsDetallados);
    agents, tags, leads := agentRows, tagRows, leadRows;
  }

  /** The fallback: channel and table reset to the defaults, which agree with the channel map, and everything empty. */
  lemma FallbackIsEmpty()
    ensures var r := Fallback();
            && r.canal == Canal(None) && r.dataTable == DataTable(r.canal)
            && r.uniqueAgents == [] && r.uniqueTags == [] && r.reportTagNames == []
            && r.agentPerformanceTable == [] && r.pieChartData == [] && r.tagEffectiveness == []
            && r.leadsDetallados == [] && r.summary == SummaryOf([])
  {
  }

  /**
   * What holds of every report: the table agrees with the channel; the leads of report 1
   * sum to the rows with an assignee; the pie percentages lie within [0, 100]; there is one
   * tag line per report tag; the lead summary counts every lead once; the agent options
   * have no duplicates and offer every named agent of the table; the tag options are the
   * tag lists of the tag rows.
   */
  lemma ReportInvariants(canal: string, agents: seq<ContactRecord>, tags: seq<ContactRecord>,
                         reportTags: Option<seq<string>>, leads: seq<Lead>, nameOf: NameLookup)
    ensures var r := ReportOf(canal, agents, tags, reportTags, leads, nameOf);
            && (r.dataTable == DigitalTable <==> r.canal == DigitalCanal)
            && ColumnTotals(r.agentPerformanceTable).total == |AssignedPositions(agents)|
            && |r.pieChartData| == 2
            && r.pieChartData[0].percentage <= 100 && r.pieChartData[1].percentage <= 100
            && |r.tagEffectiveness| == |r.reportTagNames|
            && r.summary.totalLeads == |leads| == |r.leadsDetallados|
            && r.summary.facebookLeadsCount == CountLabelled(r.leadsDetallados, FacebookAds)
            && r.summary.otherLeadsCount == CountLabelled(r.leadsDetallados, Indeterminado)
            && NoDuplicates(r.uniqueAgents)
            && (forall t :: t in r.uniqueTags <==> exists i :: 0 <= i < |tags| && tags[i].tags == Some(t))
            && forall i :: 0 <= i < |r.agentPerformanceTable| && r.agentPerformanceTable[i].agent != "" ==>
                 r.agentPerformanceTable[i].agent in r.uniqueAgents
  {
    var withAssignee := WithAssignee(agents);
    var table := AgentTable(withAssignee, nameOf);
    AgentTableTotals(withAssignee, nameOf);
    WithAssigneeCount(agents);
    PieChartShares(withAssignee, nameOf);
    LabelsPartition(leads);
    AgentTableLines(withAssignee, nameOf);
    forall i | 0 <= i < |table| && table[i].agent != ""
      ensures table[i].agent in UniqueAgents(agents, nameOf)
    {
      AssignedNamesAreNames(agents, nameOf, table[i].agent);
    }
  }

  /** With no report tags query data there are no tag lines; with no leads the summary is all zero. */
  lemma EmptyInputs(canal: string, agents: seq<ContactRecord>, tags: seq<ContactRecord>, nameOf: NameLookup)
    ensures ReportOf(canal, agents, tags, None, [], nameOf).tagEffectiveness == []
    ensures ReportOf(canal, agents, tags, None, [], nameOf).summary == Summary(0, 0, 0)
  {
  }
}

/** The data flow of the dashboard page: load, aggregate, pick the insights. */
module Dashboard {
  import opened Wrappers
  import opened Groups
  import opened Loader
  import opened Aggregator
  import opened Insights

  /** Everything the page displays: the four counters' sources, the tables and the insight. */
  datatype Report = Report(totalLeads: nat, kpis: Kpis, insight: Insight)

  function ReportOf(t: Table): Report {
    Report(|t.leads|, KpisOf(t), SelectInsight(KpisOf(t)))
  }

  /** `main`: nothing is shown when the load failed; otherwise the report of the cleaned table. */
  method Refresh(source: Option<Sheet>) returns (r: Option<Report>)
    ensures r.None? <==> CleanSheet(source).None?
    ensures r.Some? ==> r.value == ReportOf(CleanSheet(source).value)
  {
    var df := Load(source);
    if df.None? {
      return None;
    }
    var kpis := CalculateKpis(df.value);
    r := Some(Report(|df.value.leads|, kpis, SelectInsight(kpis)));
  }

  /**
   * A row whose timestamp did not parse is excluded from every figure: the
   * report is the same with or without it, and the lead total counts only
   * the rows that parsed.
   */
  lemma UnparsedRowsExcluded(s: Sheet, k: nat, row: RawRow)
    requires k <= |s.rows| && row.stamp.None?
    requires Stamp in s.columns && Outcome in s.columns
    ensures var withRow := CleanSheet(Some(s.(rows := s.rows[..k] + [row] + s.rows[k..])));
      withRow.Some? && ReportOf(withRow.value) == ReportOf(CleanSheet(Some(s)).value)
    ensures ReportOf(CleanSheet(Some(s)).value).totalLeads == CountWhere(s.rows, HasStamp)
  {
    UnparsedRowIsIgnored(s, k, row);
    CleanSheetCountsParsedRows(Some(s));
  }
}

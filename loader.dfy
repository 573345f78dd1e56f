/**
 * `load_data`: from the spreadsheet handed over by the file reader to the
 * cleaned lead table.  Rows whose approach timestamp did not parse are
 * dropped, the three categorical columns are stripped and upper-cased, the
 * day and month keys are derived and each row gets its three outcome flags.
 */
module Loader {
  import opened Wrappers
  import opened Groups
  import opened Text

  /** A calendar date as the date parser produced it. */
  datatype Date = Date(year: int, month: int, day: int)

  /** A year-and-month bucket (`to_period('M')`). */
  datatype Month = Month(year: int, month: int)

  /** A parsed approach timestamp: its date and the time of day. */
  datatype Timestamp = Timestamp(date: Date, secondOfDay: nat)

  /** Chronological order of dates. */
  predicate DayLess(a: Date, b: Date) {
    || a.year < b.year
    || (a.year == b.year && a.month < b.month)
    || (a.year == b.year && a.month == b.month && a.day < b.day)
  }

  lemma DayLessIsStrictTotalOrder()
    ensures StrictTotalOrder(DayLess)
  {
  }

  function MonthOf(d: Date): (m: Month)
    ensures m.year == d.year && m.month == d.month
  {
    Month(d.year, d.month)
  }

  /** The spreadsheet columns the pipeline reads. */
  datatype Column = Stamp | Segment | Channel | Outcome

  /** The columns normalised as text, in the order the loader visits them. */
  const TextColumns: seq<Column> := [Segment, Channel, Outcome]

  /**
   * One spreadsheet row: the parser's verdict on DATA_ABORDAGEM (None when it
   * did not parse) and the SEGMENTO, CANAL and RESULTADO cells as text.
   */
  datatype RawRow = RawRow(stamp: Option<Timestamp>, segment: string, channel: string, outcome: string)

  /** The spreadsheet: which of the four columns it has, and its rows. */
  datatype Sheet = Sheet(columns: set<Column>, rows: seq<RawRow>)

  /** A cleaned lead: the normalised cells, the derived keys and the three outcome flags. */
  datatype Lead = Lead(
    stamp: Timestamp, segment: string, channel: string, outcome: string,
    day: Date, month: Month,
    hadReturn: bool, positiveResponse: bool, effectiveResponse: bool)

  /** The cleaned table; it keeps the sheet's column set, which the aggregator consults. */
  datatype Table = Table(columns: set<Column>, leads: seq<Lead>)

  const NoResponseOutcomes: set<string> := {"NÃO RESPONDEU", "VISUALIZOU E NÃO RESPONDEU"}
  const PositiveOutcomes: set<string> := {"RESPONDEU E MARCOU CALL", "POSITIVO", "INTERESSADO"}
  const EffectiveOutcomes: set<string> := {"RESPONDEU E MARCOU CALL", "NEGATIVO", "POSITIVO", "INTERESSADO"}
  const NegativeOutcome: string := "NEGATIVO"

  datatype Flags = Flags(hadReturn: bool, positiveResponse: bool, effectiveResponse: bool)

  /**
   * The three flags of an outcome.  A positive answer is an effective one,
   * an effective answer is a return, and the effective answers are exactly
   * the positive ones and the explicit refusal.
   */
  function Classify(outcome: string): (f: Flags)
    ensures f.hadReturn <==> outcome !in NoResponseOutcomes
    ensures f.positiveResponse <==> outcome in PositiveOutcomes
    ensures f.positiveResponse ==> f.effectiveResponse
    ensures f.effectiveResponse ==> f.hadReturn
    ensures f.effectiveResponse <==> f.positiveResponse || outcome == NegativeOutcome
  {
    Flags(outcome !in NoResponseOutcomes, outcome in PositiveOutcomes, outcome in EffectiveOutcomes)
  }

  /** The row with the cell of `col` normalised and every other cell as it was. */
  function NormalizeCell(row: RawRow, col: Column): RawRow
    requires col != Stamp
  {
    match col
    case Segment => row.(segment := Normalize(row.segment))
    case Channel => row.(channel := Normalize(row.channel))
    case Outcome => row.(outcome := Normalize(row.outcome))
  }

  /** `df[col] = df[col].astype(str).str.strip().str.upper()` on every row. */
  function NormalizeColumn(rows: seq<RawRow>, col: Column): seq<RawRow>
    requires col != Stamp
  {
    seq(|rows|, i requires 0 <= i < |rows| => NormalizeCell(rows[i], col))
  }

  predicate HasStamp(row: RawRow) {
    row.stamp.Some?
  }

  /** `dropna(subset=['DATA_ABORDAGEM'])`: the rows whose timestamp parsed, in order. */
  function Parsed(rows: seq<RawRow>): (r: seq<RawRow>)
    ensures |r| == CountWhere(rows, HasStamp)
    ensures forall i :: 0 <= i < |r| ==> r[i] in rows && r[i].stamp.Some?
  {
    Filter(rows, HasStamp)
  }

  /** A row with every text column that the sheet has normalised. */
  function NormalizeRow(columns: set<Column>, row: RawRow): RawRow {
    RawRow(
      row.stamp,
      if Segment in columns then Normalize(row.segment) else row.segment,
      if Channel in columns then Normalize(row.channel) else row.channel,
      if Outcome in columns then Normalize(row.outcome) else row.outcome)
  }

  /** The derived day and month keys and the outcome flags of a row whose timestamp parsed. */
  function Derive(row: RawRow): (l: Lead)
    requires row.stamp.Some?
    ensures Classify(l.outcome) == Flags(l.hadReturn, l.positiveResponse, l.effectiveResponse)
    ensures l.day == row.stamp.value.date && l.month == MonthOf(l.day)
    ensures l.stamp == row.stamp.value
    ensures l.segment == row.segment && l.channel == row.channel && l.outcome == row.outcome
  {
    var f := Classify(row.outcome);
    Lead(row.stamp.value, row.segment, row.channel, row.outcome,
         row.stamp.value.date, MonthOf(row.stamp.value.date),
         f.hadReturn, f.positiveResponse, f.effectiveResponse)
  }

  function CleanRow(columns: set<Column>, row: RawRow): Lead
    requires row.stamp.Some?
  {
    Derive(NormalizeRow(columns, row))
  }

  /**
   * What `load_data` returns: nothing when there is no sheet or when it lacks
   * DATA_ABORDAGEM or RESULTADO (the column lookups fail and the error is
   * caught), and otherwise one cleaned lead per row whose timestamp parsed.
   */
  function CleanSheet(source: Option<Sheet>): Option<Table> {
    if source.None? || Stamp !in source.value.columns || Outcome !in source.value.columns then None
    else
      var s := source.value;
      Some(Table(s.columns, CleanRows(s.columns, Parsed(s.rows))))
  }

  function CleanRows(columns: set<Column>, rows: seq<RawRow>): seq<Lead>
    requires forall i :: 0 <= i < |rows| ==> rows[i].stamp.Some?
  {
    seq(|rows|, i requires 0 <= i < |rows| => CleanRow(columns, rows[i]))
  }

  /** The row-level facts every loaded lead satisfies. */
  predicate WellFormedLead(columns: set<Column>, l: Lead) {
    && Classify(l.outcome) == Flags(l.hadReturn, l.positiveResponse, l.effectiveResponse)
    && l.day == l.stamp.date && l.month == MonthOf(l.day)
    && (Segment in columns ==> IsNormalized(l.segment))
    && (Channel in columns ==> IsNormalized(l.channel))
    && IsNormalized(l.outcome)
  }

  /** A table as the loader produces it. */
  predicate Loaded(t: Table) {
    && Stamp in t.columns && Outcome in t.columns
    && forall i :: 0 <= i < |t.leads| ==> WellFormedLead(t.columns, t.leads[i])
  }

  /** The loop over the text columns, rewriting in every row each column the sheet has. */
  method NormalizeText(columns: set<Column>, parsed: seq<RawRow>) returns (rows: seq<RawRow>)
    ensures |rows| == |parsed|
    ensures forall i :: 0 <= i < |rows| ==> rows[i] == NormalizeRow(columns, parsed[i])
  {
    rows := parsed;
    for c := 0 to |TextColumns|
      invariant |rows| == |parsed|
      invariant forall i :: 0 <= i < |rows| ==> rows[i] == RawRow(
        parsed[i].stamp,
        if 0 < c && Segment in columns then Normalize(parsed[i].segment) else parsed[i].segment,
        if 1 < c && Channel in columns then Normalize(parsed[i].channel) else parsed[i].channel,
        if 2 < c && Outcome in columns then Normalize(parsed[i].outcome) else parsed[i].outcome)
    {
      var col := TextColumns[c];
      if col in columns {
        rows := NormalizeColumn(rows, col);
      }
    }
  }

  /**
   * `load_data` step by step: the timestamp filter, the loop over the text
   * columns, then the keys and the flags.
   */
  method Load(source: Option<Sheet>) returns (t: Option<Table>)
    ensures t == CleanSheet(source)
  {
    if source.None? || Stamp !in source.value.columns {
      return None;
    }
    var s := source.value;
    var parsed := Parsed(s.rows);
    var rows := NormalizeText(s.columns, parsed);
    if Outcome !in s.columns {
      return None;
    }
    var leads := seq(|rows|, i requires 0 <= i < |rows| && rows[i].stamp.Some? => Derive(rows[i]));
    t := Some(Table(s.columns, leads));
    ghost var expected := CleanRows(s.columns, parsed);
    forall i | 0 <= i < |parsed| ensures leads[i] == expected[i] {
      assert rows[i] == NormalizeRow(s.columns, parsed[i]);
    }
    assert leads == expected;
  }

  /** Everything the loader produces satisfies the row-level facts. */
  lemma CleanSheetIsLoaded(source: Option<Sheet>)
    requires CleanSheet(source).Some?
    ensures Loaded(CleanSheet(source).value)
  {
    var t := CleanSheet(source).value;
    var s := source.value;
    var p := Parsed(s.rows);
    forall i | 0 <= i < |t.leads| ensures WellFormedLead(t.columns, t.leads[i]) {
      NormalizeIsNormalized(p[i].segment);
      NormalizeIsNormalized(p[i].channel);
      NormalizeIsNormalized(p[i].outcome);
    }
  }

  /** The table has as many leads as the sheet has rows whose timestamp parsed, and no lead's timestamp is invented. */
  lemma CleanSheetCountsParsedRows(source: Option<Sheet>)
    requires CleanSheet(source).Some?
    ensures |CleanSheet(source).value.leads| == CountWhere(source.value.rows, HasStamp)
    ensures forall l :: l in CleanSheet(source).value.leads ==>
      exists r :: r in source.value.rows && r.stamp == Some(l.stamp)
  {
    var t := CleanSheet(source).value;
    var p := Parsed(source.value.rows);
    forall l | l in t.leads ensures exists r :: r in source.value.rows && r.stamp == Some(l.stamp) {
      var i :| 0 <= i < |t.leads| && t.leads[i] == l;
      assert p[i] in source.value.rows;
    }
  }

  /** The leads loaded from `rows` under the column set `columns`. */
  function LeadsOf(columns: set<Column>, rows: seq<RawRow>): seq<Lead>
    requires Stamp in columns && Outcome in columns
  {
    CleanSheet(Some(Sheet(columns, rows))).value.leads
  }

  /**
   * Loading works row by row and keeps the order: the leads of two blocks of
   * rows loaded together are the leads of the first followed by those of the
   * second.
   */
  lemma CleanSheetAppend(columns: set<Column>, xs: seq<RawRow>, ys: seq<RawRow>)
    requires Stamp in columns && Outcome in columns
    ensures LeadsOf(columns, xs + ys) == LeadsOf(columns, xs) + LeadsOf(columns, ys)
  {
    FilterAppend(xs, ys, HasStamp);
    CleanRowsAppend(columns, Parsed(xs), Parsed(ys));
  }

  lemma CleanRowsAppend(columns: set<Column>, a: seq<RawRow>, b: seq<RawRow>)
    requires forall i :: 0 <= i < |a| ==> a[i].stamp.Some?
    requires forall i :: 0 <= i < |b| ==> b[i].stamp.Some?
    ensures forall i :: 0 <= i < |a + b| ==> (a + b)[i].stamp.Some?
    ensures CleanRows(columns, a + b) == CleanRows(columns, a) + CleanRows(columns, b)
  {
    var l, la, lb := CleanRows(columns, a + b), CleanRows(columns, a), CleanRows(columns, b);
    forall i | 0 <= i < |l| ensures l[i] == (la + lb)[i] {
      if i < |a| {
        assert (a + b)[i] == a[i];
      } else {
        assert (a + b)[i] == b[i - |a|];
      }
    }
  }

  /** A single row yields its cleaned lead when its timestamp parsed, and nothing otherwise. */
  lemma CleanSheetSingle(columns: set<Column>, row: RawRow)
    requires Stamp in columns && Outcome in columns
    ensures LeadsOf(columns, [row]) == if HasStamp(row) then [CleanRow(columns, row)] else []
  {
    FilterSingle(row, HasStamp);
  }

  /** A row whose timestamp did not parse changes nothing, wherever it stands. */
  lemma UnparsedRowIsIgnored(s: Sheet, k: nat, row: RawRow)
    requires k <= |s.rows| && row.stamp.None?
    ensures CleanSheet(Some(s.(rows := s.rows[..k] + [row] + s.rows[k..]))) == CleanSheet(Some(s))
  {
    ParsedSkipsUnparsed(s.rows[..k], row, s.rows[k..]);
    assert s.rows[..k] + s.rows[k..] == s.rows;
  }

  lemma {:induction false} ParsedSkipsUnparsed(xs: seq<RawRow>, row: RawRow, ys: seq<RawRow>)
    requires row.stamp.None?
    ensures Parsed(xs + [row] + ys) == Parsed(xs + ys)
  {
    if ys == [] {
      assert (xs + [row])[..|xs + [row]| - 1] == xs;
      assert xs + ys == xs;
      assert xs + [row] + ys == xs + [row];
    } else {
      var init := ys[..|ys| - 1];
      ParsedSkipsUnparsed(xs, row, init);
      assert (xs + [row] + ys)[..|xs + [row] + ys| - 1] == xs + [row] + init;
      assert (xs + ys)[..|xs + ys| - 1] == xs + init;
    }
  }

  /** Turns a cleaned table back into a sheet with the same columns and cells. */
  function Export(t: Table): Sheet {
    Sheet(t.columns, seq(|t.leads|, i requires 0 <= i < |t.leads| =>
      RawRow(Some(t.leads[i].stamp), t.leads[i].segment, t.leads[i].channel, t.leads[i].outcome)))
  }

  lemma {:induction false} ParsedOfParsed(rows: seq<RawRow>)
    requires forall i :: 0 <= i < |rows| ==> rows[i].stamp.Some?
    ensures Parsed(rows) == rows
  {
    if rows != [] {
      ParsedOfParsed(rows[..|rows| - 1]);
      assert rows == rows[..|rows| - 1] + [rows[|rows| - 1]];
    }
  }

  /**
   * Cleaning is idempotent: loading again what the loader produced gives the
   * same table, so the flags are a function of the normalised outcome alone.
   */
  lemma ReloadIsIdentity(t: Table)
    requires Loaded(t)
    ensures CleanSheet(Some(Export(t))) == Some(t)
  {
    CleanRowsOfExport(t);
    CleanSheetOfExport(t);
  }

  lemma CleanSheetOfExport(t: Table)
    requires Stamp in t.columns && Outcome in t.columns
    requires ExportParses(t) && CleanRows(t.columns, Export(t).rows) == t.leads
    ensures CleanSheet(Some(Export(t))) == Some(t)
  {
    ParsedOfParsed(Export(t).rows);
  }

  predicate ExportParses(t: Table) {
    forall i :: 0 <= i < |Export(t).rows| ==> Export(t).rows[i].stamp.Some?
  }

  lemma CleanRowsOfExport(t: Table)
    requires Loaded(t)
    ensures ExportParses(t) && CleanRows(t.columns, Export(t).rows) == t.leads
  {
    var e := Export(t);
    forall i | 0 <= i < |e.rows| ensures CleanRows(t.columns, e.rows)[i] == t.leads[i] {
      RecleanAt(t, i);
    }
  }

  lemma RecleanAt(t: Table, i: nat)
    requires Loaded(t) && i < |t.leads|
    ensures CleanRow(t.columns, Export(t).rows[i]) == t.leads[i]
  {
    RecleanLead(t.columns, t.leads[i]);
  }

  lemma RecleanLead(columns: set<Column>, l: Lead)
    requires WellFormedLead(columns, l)
    ensures CleanRow(columns, RawRow(Some(l.stamp), l.segment, l.channel, l.outcome)) == l
  {
    NormalizedIsFixpoint(l.outcome);
    if Segment in columns { NormalizedIsFixpoint(l.segment); }
    if Channel in columns { NormalizedIsFixpoint(l.channel); }
  }
}

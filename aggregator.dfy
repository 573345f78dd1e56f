/**
 * `calculate_kpis`: the headline counters and the three summary tables
 * computed from the cleaned lead table.  Rates are exact rationals
 * (`count / total * 100`); the one-decimal rounding of the display is not
 * modelled.
 */
module Aggregator {
  import opened Groups
  import opened Text
  import opened Loader

  /** One row of the channel-performance table. */
  datatype ChannelStat = ChannelStat(
    channel: string, total: nat, returned: nat, noResponse: nat,
    negative: nat, positive: nat, returnRate: real, positiveRate: real)

  /** The `kpis` dictionary. */
  datatype Kpis = Kpis(
    leadsToday: nat,
    leadsPerDay: seq<Group<Date>>,
    channelStats: seq<ChannelStat>,
    noResponseBySegment: seq<Group<string>>,
    totalNoResponse: nat,
    percentNoResponse: real)

  // The masks the aggregation applies to RESULTADO, and the two loader flags.
  predicate IsNoResponse(l: Lead) { l.outcome in NoResponseOutcomes }
  predicate IsNegative(l: Lead) { l.outcome == NegativeOutcome }
  predicate IsPositive(l: Lead) { l.outcome in PositiveOutcomes }
  predicate HadReturn(l: Lead) { l.hadReturn }
  predicate PositiveFlag(l: Lead) { l.positiveResponse }

  /** `part / whole * 100`, and 0 for an empty whole. */
  function Percent(part: nat, whole: nat): (r: real)
    ensures whole == 0 ==> r == 0.0
    ensures whole > 0 ==> r * (whole as real) == (part as real) * 100.0
  {
    if whole > 0 then (part as real) / (whole as real) * 100.0 else 0.0
  }

  lemma PercentBounds(part: nat, whole: nat)
    requires part <= whole
    ensures 0.0 <= Percent(part, whole) <= 100.0
  {
    if whole > 0 {
      var w := whole as real;
      var q := (part as real) / w;
      assert q * w == part as real;
      assert q <= 1.0;
    }
  }

  lemma PercentExtremes(whole: nat)
    ensures Percent(0, whole) == 0.0
    ensures whole > 0 ==> Percent(whole, whole) == 100.0
  {
    if whole > 0 {
      var w := whole as real;
      assert w / w == 1.0;
    }
  }

  lemma PercentMonotone(a: nat, b: nat, whole: nat)
    requires a <= b
    ensures Percent(a, whole) <= Percent(b, whole)
  {
    if whole > 0 {
      var w := whole as real;
      var qa, qb := (a as real) / w, (b as real) / w;
      assert qa * w == a as real && qb * w == b as real;
      assert qa <= qb;
    }
  }

  function DaysOf(leads: seq<Lead>): seq<Date> {
    seq(|leads|, i requires 0 <= i < |leads| => leads[i].day)
  }

  function ChannelsOf(leads: seq<Lead>): seq<string> {
    seq(|leads|, i requires 0 <= i < |leads| => leads[i].channel)
  }

  function SegmentsOf(leads: seq<Lead>): seq<string> {
    seq(|leads|, i requires 0 <= i < |leads| => leads[i].segment)
  }

  /** `df['DIA'].max()`. */
  function MaxDay(days: seq<Date>): (m: Date)
    requires days != []
    ensures m in days
    ensures forall i :: 0 <= i < |days| ==> !DayLess(m, days[i])
  {
    if |days| == 1 then days[0]
    else
      var init := days[..|days| - 1];
      var m := MaxDay(init);
      assert forall i :: 0 <= i < |init| ==> init[i] == days[i];
      if DayLess(m, days[|days| - 1]) then days[|days| - 1] else m
  }

  /** `leads_dia`: the leads of the most recent day present, 0 for an empty table. */
  function LeadsToday(leads: seq<Lead>): nat {
    if leads == [] then 0 else Occurrences(DaysOf(leads), MaxDay(DaysOf(leads)))
  }

  /** `leads_por_dia`: `groupby('DIA').size()` sorted by day. */
  function LeadsPerDay(leads: seq<Lead>): seq<Group<Date>> {
    GroupBy(DaysOf(leads), DayLess)
  }

  /** `df[df['CANAL'] == canal]`. */
  function OfChannel(leads: seq<Lead>, c: string): (r: seq<Lead>)
    ensures forall i :: 0 <= i < |r| ==> r[i] in leads && r[i].channel == c
  {
    if leads == [] then []
    else
      var init := leads[..|leads| - 1];
      var last := leads[|leads| - 1];
      assert forall x :: x in init ==> x in leads;
      OfChannel(init, c) + (if last.channel == c then [last] else [])
  }

  /** The statistics of one channel, each count taken on that channel's rows. */
  function ChannelStatOf(leads: seq<Lead>, c: string): ChannelStat {
    var rows := OfChannel(leads, c);
    var total := |rows|;
    var noResponse := CountWhere(rows, IsNoResponse);
    var negative := CountWhere(rows, IsNegative);
    var positive := CountWhere(rows, IsPositive);
    ChannelStat(c, total, total - noResponse, noResponse, negative, positive,
                Percent(total - noResponse, total), Percent(positive, total))
  }

  /** The statistics of the channels `ks`, in that order. */
  function ChannelStats(leads: seq<Lead>, ks: seq<string>): (r: seq<ChannelStat>)
    ensures |r| == |ks|
    ensures forall i :: 0 <= i < |ks| ==> r[i] == ChannelStatOf(leads, ks[i])
  {
    if ks == [] then []
    else ChannelStats(leads, ks[..|ks| - 1]) + [ChannelStatOf(leads, ks[|ks| - 1])]
  }

  /** `canal_counts['CANAL'].unique()`: the distinct channels in ascending order. */
  function ChannelKeys(leads: seq<Lead>): seq<string> {
    SortedKeys(ChannelsOf(leads), TextLess)
  }

  /** `canal_performance`: computed only for a non-empty table with CANAL and RESULTADO. */
  function ChannelPerformance(t: Table): seq<ChannelStat> {
    if |t.leads| > 0 && Channel in t.columns && Outcome in t.columns
    then ChannelStats(t.leads, ChannelKeys(t.leads))
    else []
  }

  function NoResponseRows(leads: seq<Lead>): seq<Lead> {
    Filter(leads, IsNoResponse)
  }

  /** `sem_resposta_por_segmento`: the no-response rows grouped by segment. */
  function SegmentNoResponse(t: Table): seq<Group<string>> {
    if Segment in t.columns && Outcome in t.columns
    then GroupBy(SegmentsOf(NoResponseRows(t.leads)), TextLess)
    else []
  }

  function TotalNoResponse(t: Table): nat {
    if Outcome in t.columns then CountWhere(t.leads, IsNoResponse) else 0
  }

  function PercentNoResponse(t: Table): real {
    if Outcome in t.columns then Percent(TotalNoResponse(t), |t.leads|) else 0.0
  }

  function KpisOf(t: Table): Kpis {
    Kpis(LeadsToday(t.leads), LeadsPerDay(t.leads), ChannelPerformance(t),
         SegmentNoResponse(t), TotalNoResponse(t), PercentNoResponse(t))
  }

  /** The loop over the distinct channels: filter the table once per channel and append its row. */
  method ChannelLoop(leads: seq<Lead>, channels: seq<string>) returns (performance: seq<ChannelStat>)
    ensures performance == ChannelStats(leads, channels)
  {
    performance := [];
    for i := 0 to |channels|
      invariant performance == ChannelStats(leads, channels[..i])
    {
      var stat := ChannelStatOf(leads, channels[i]);
      assert channels[..i + 1][..i] == channels[..i];
      performance := performance + [stat];
    }
    assert channels[..|channels|] == channels;
  }

  /**
   * `calculate_kpis`, field by field; the channel table is built by a loop
   * that filters the whole table once per distinct channel and appends.
   */
  method CalculateKpis(t: Table) returns (k: Kpis)
    ensures k == KpisOf(t)
  {
    var leadsToday := 0;
    if |t.leads| > 0 {
      var days := DaysOf(t.leads);
      leadsToday := Occurrences(days, MaxDay(days));
    }
    var perDay: seq<Group<Date>> := [];
    if |t.leads| > 0 {
      perDay := GroupBy(DaysOf(t.leads), DayLess);
    }
    var performance: seq<ChannelStat> := [];
    if |t.leads| > 0 && Channel in t.columns && Outcome in t.columns {
      performance := ChannelLoop(t.leads, ChannelKeys(t.leads));
    }
    var segments: seq<Group<string>> := [];
    if Segment in t.columns && Outcome in t.columns {
      var noResponseRows := NoResponseRows(t.leads);
      if noResponseRows != [] {
        segments := GroupBy(SegmentsOf(noResponseRows), TextLess);
      }
    }
    var totalNoResponse := 0;
    var percent := 0.0;
    if Outcome in t.columns {
      totalNoResponse := CountWhere(t.leads, IsNoResponse);
      percent := Percent(totalNoResponse, |t.leads|);
    }
    k := Kpis(leadsToday, perDay, performance, segments, totalNoResponse, percent);
  }
}

/** What the aggregation promises about the cleaned table. */
module AggregatorLaws {
  import opened Groups
  import opened Text
  import opened Loader
  import opened Aggregator

  predicate Answered(l: Lead) { !IsNoResponse(l) }

  /** The mask `(df['CANAL'] == c) & p`. */
  function OnChannel(c: string, p: Lead -> bool): Lead -> bool {
    (l: Lead) => l.channel == c && p(l)
  }

  /** The mask of the unanswered leads of segment `seg`. */
  function UnansweredIn(seg: string): Lead -> bool {
    (l: Lead) => IsNoResponse(l) && l.segment == seg
  }

  /** Counting a mask over a channel's rows is counting the combined mask over the whole table. */
  lemma {:induction false} OfChannelCount(leads: seq<Lead>, c: string, p: Lead -> bool)
    ensures CountWhere(OfChannel(leads, c), p) == CountWhere(leads, OnChannel(c, p))
  {
    if leads != [] {
      var init := leads[..|leads| - 1];
      var last := leads[|leads| - 1];
      var tail := if last.channel == c then [last] else [];
      OfChannelCount(init, c, p);
      assert OfChannel(leads, c) == OfChannel(init, c) + tail;
      CountWhereAppend(OfChannel(init, c), tail, p);
      assert [last][..0] == [];
    }
  }

  lemma {:induction false} OfChannelSize(leads: seq<Lead>, c: string)
    ensures |OfChannel(leads, c)| == Occurrences(ChannelsOf(leads), c)
  {
    if leads != [] {
      var init := leads[..|leads| - 1];
      OfChannelSize(init, c);
      assert ChannelsOf(leads)[..|leads| - 1] == ChannelsOf(init);
    }
  }

  /**
   * One channel's row: its total is the number of leads on that channel,
   * answered and unanswered leads partition it, the refusals and the
   * positive answers are disjoint answered leads, and both rates are
   * percentages of the total with the positive rate below the return rate.
   */
  lemma ChannelStatLaws(leads: seq<Lead>, c: string)
    ensures var s := ChannelStatOf(leads, c);
      && s.channel == c
      && s.total == Occurrences(ChannelsOf(leads), c)
      && s.returned + s.noResponse == s.total
      && s.negative + s.positive <= s.returned
      && 0.0 <= s.positiveRate <= s.returnRate <= 100.0
      && (s.total == 0 ==> s.returnRate == 0.0 && s.positiveRate == 0.0)
  {
    ChannelStatCounts(leads, c);
    ChannelStatRates(leads, c);
  }

  lemma ChannelStatCounts(leads: seq<Lead>, c: string)
    ensures var s := ChannelStatOf(leads, c);
      && s.channel == c
      && s.total == Occurrences(ChannelsOf(leads), c)
      && s.returned + s.noResponse == s.total
      && s.negative + s.positive <= s.returned
      && s.noResponse == CountWhere(leads, OnChannel(c, IsNoResponse))
      && s.returned == CountWhere(leads, OnChannel(c, Answered))
      && s.negative == CountWhere(leads, OnChannel(c, IsNegative))
      && s.positive == CountWhere(leads, OnChannel(c, IsPositive))
  {
    var rows := OfChannel(leads, c);
    OfChannelSize(leads, c);
    CountComplement(rows, IsNoResponse, Answered);
    CountDisjointWithin(rows, IsNegative, IsPositive, Answered);
    OfChannelCount(leads, c, IsNoResponse);
    OfChannelCount(leads, c, Answered);
    OfChannelCount(leads, c, IsNegative);
    OfChannelCount(leads, c, IsPositive);
  }

  lemma ChannelStatRates(leads: seq<Lead>, c: string)
    ensures var s := ChannelStatOf(leads, c);
      && 0.0 <= s.positiveRate <= s.returnRate <= 100.0
      && (s.total == 0 ==> s.returnRate == 0.0 && s.positiveRate == 0.0)
  {
    var s := ChannelStatOf(leads, c);
    var rows := OfChannel(leads, c);
    CountComplement(rows, IsNoResponse, Answered);
    CountDisjointWithin(rows, IsNegative, IsPositive, Answered);
    var returned, positive, total := s.returned, s.positive, s.total;
    assert positive <= returned <= total;
    PercentBounds(returned, total);
    PercentBounds(positive, total);
    PercentMonotone(positive, returned, total);
  }

  /** The counts taken from RESULTADO agree with the loader's flags. */
  lemma ChannelStatMatchesFlags(t: Table, c: string)
    requires Loaded(t)
    ensures var s := ChannelStatOf(t.leads, c);
      && s.returned == CountWhere(OfChannel(t.leads, c), HadReturn)
      && s.positive == CountWhere(OfChannel(t.leads, c), PositiveFlag)
  {
    var rows := OfChannel(t.leads, c);
    forall i | 0 <= i < |rows| ensures Classify(rows[i].outcome) == Flags(rows[i].hadReturn, rows[i].positiveResponse, rows[i].effectiveResponse) {
      var j :| 0 <= j < |t.leads| && t.leads[j] == rows[i];
      assert WellFormedLead(t.columns, t.leads[j]);
    }
    CountComplement(rows, IsNoResponse, HadReturn);
    CountAgree(rows, IsPositive, PositiveFlag);
  }

  function SumTotals(cs: seq<ChannelStat>): nat {
    if cs == [] then 0 else SumTotals(cs[..|cs| - 1]) + cs[|cs| - 1].total
  }

  lemma {:induction false} SumTotalsIsSumSizes(leads: seq<Lead>, ks: seq<string>)
    ensures SumTotals(ChannelStats(leads, ks)) == SumSizes(Tally(ChannelsOf(leads), ks))
  {
    if ks != [] {
      var init := ks[..|ks| - 1];
      SumTotalsIsSumSizes(leads, init);
      OfChannelSize(leads, ks[|ks| - 1]);
      var cs := ChannelStats(leads, ks);
      assert cs[..|cs| - 1] == ChannelStats(leads, init);
      var gs := Tally(ChannelsOf(leads), ks);
      assert gs[..|gs| - 1] == Tally(ChannelsOf(leads), init);
    }
  }

  /**
   * The channel table has exactly one row per distinct channel, in
   * ascending channel order, and the channel totals add up to the number of
   * leads; it is empty exactly when the table is empty or lacks CANAL.
   */
  lemma ChannelPerformanceLaws(t: Table)
    requires Outcome in t.columns
    ensures var cs := ChannelPerformance(t);
      && (cs == [] <==> t.leads == [] || Channel !in t.columns)
      && (forall i, j :: 0 <= i < j < |cs| ==> TextLess(cs[i].channel, cs[j].channel))
      && (forall i :: 0 <= i < |cs| ==> cs[i].channel in ChannelsOf(t.leads) && cs[i].total >= 1)
      && (cs != [] ==> forall l :: l in t.leads ==> exists i :: 0 <= i < |cs| && cs[i].channel == l.channel)
      && (cs != [] ==> SumTotals(cs) == |t.leads|)
  {
    if t.leads != [] && Channel in t.columns {
      ChannelPerformanceSorted(t);
      ChannelPerformanceTotals(t);
      ChannelPerformanceCovers(t);
      assert ChannelsOf(t.leads)[0] in ChannelKeys(t.leads);
    }
  }

  lemma ChannelPerformanceSorted(t: Table)
    requires t.leads != [] && Channel in t.columns && Outcome in t.columns
    ensures var cs := ChannelPerformance(t);
      forall i, j :: 0 <= i < j < |cs| ==> TextLess(cs[i].channel, cs[j].channel)
  {
    TextLessIsStrictTotalOrder();
    SortedKeysSorted(ChannelsOf(t.leads), TextLess);
  }

  lemma ChannelPerformanceTotals(t: Table)
    requires t.leads != [] && Channel in t.columns && Outcome in t.columns
    ensures var cs := ChannelPerformance(t);
      && (forall i :: 0 <= i < |cs| ==> cs[i].channel in ChannelsOf(t.leads) && cs[i].total >= 1)
      && SumTotals(cs) == |t.leads|
  {
    var cs := ChannelPerformance(t);
    var xs := ChannelsOf(t.leads);
    var ks := ChannelKeys(t.leads);
    TextLessIsStrictTotalOrder();
    SortedKeysSorted(xs, TextLess);
    SortedIsDistinct(ks, TextLess);
    SumSizesCover(xs, ks);
    SumTotalsIsSumSizes(t.leads, ks);
    forall i | 0 <= i < |cs| ensures cs[i].channel in xs && cs[i].total >= 1 {
      ChannelStatLaws(t.leads, ks[i]);
    }
  }

  lemma ChannelPerformanceCovers(t: Table)
    requires t.leads != [] && Channel in t.columns && Outcome in t.columns
    ensures forall l :: l in t.leads ==>
      exists i :: 0 <= i < |ChannelPerformance(t)| && ChannelPerformance(t)[i].channel == l.channel
  {
    var cs := ChannelPerformance(t);
    var xs := ChannelsOf(t.leads);
    var ks := ChannelKeys(t.leads);
    forall l | l in t.leads ensures exists i :: 0 <= i < |cs| && cs[i].channel == l.channel {
      var j :| 0 <= j < |t.leads| && t.leads[j] == l;
      assert xs[j] == l.channel;
      assert l.channel in ks;
      var i :| 0 <= i < |ks| && ks[i] == l.channel;
      assert cs[i].channel == l.channel;
    }
  }

  /**
   * The daily series: strictly ascending days, one entry per day that has
   * leads, each counting that day's leads, adding up to the number of leads.
   */
  lemma LeadsPerDayLaws(leads: seq<Lead>)
    ensures var pd := LeadsPerDay(leads);
      && (pd == [] <==> leads == [])
      && (forall i, j :: 0 <= i < j < |pd| ==> DayLess(pd[i].key, pd[j].key))
      && (forall i :: 0 <= i < |pd| ==> pd[i].size >= 1 && pd[i].size == Occurrences(DaysOf(leads), pd[i].key))
      && (forall l :: l in leads ==> exists i :: 0 <= i < |pd| && pd[i].key == l.day)
      && SumSizes(pd) == |leads|
  {
    DayLessIsStrictTotalOrder();
    GroupByLaws(DaysOf(leads), DayLess);
    LeadsPerDayCovers(leads);
  }

  lemma LeadsPerDayCovers(leads: seq<Lead>)
    ensures var pd := LeadsPerDay(leads);
      forall l :: l in leads ==> exists i :: 0 <= i < |pd| && pd[i].key == l.day
  {
    var pd := LeadsPerDay(leads);
    var days := DaysOf(leads);
    var ks := SortedKeys(days, DayLess);
    forall l | l in leads ensures exists i :: 0 <= i < |pd| && pd[i].key == l.day {
      var j :| 0 <= j < |leads| && leads[j] == l;
      assert days[j] == l.day;
      assert l.day in ks;
      var i :| 0 <= i < |ks| && ks[i] == l.day;
      assert pd[i].key == l.day;
    }
  }

  /**
   * The leads of the most recent day: none for an empty table, otherwise at
   * least one and at most all, and exactly the last entry of the daily series.
   */
  lemma LeadsTodayLaws(leads: seq<Lead>)
    ensures leads == [] ==> LeadsToday(leads) == 0
    ensures leads != [] ==> 1 <= LeadsToday(leads) <= |leads|
    ensures leads != [] ==> var pd := LeadsPerDay(leads);
      pd != [] && pd[|pd| - 1].key == MaxDay(DaysOf(leads)) && pd[|pd| - 1].size == LeadsToday(leads)
  {
    if leads != [] {
      var days := DaysOf(leads);
      var m := MaxDay(days);
      var ks := SortedKeys(days, DayLess);
      DayLessIsStrictTotalOrder();
      SortedKeysSorted(days, DayLess);
      assert days[0] in ks;
      var last := ks[|ks| - 1];
      assert last in days;
      var j :| 0 <= j < |days| && days[j] == last;
      LastKeyIsGreatest(ks, m, DayLess);
    }
  }

  /**
   * The segment table counts only unanswered leads: its sizes add up to the
   * global no-response total, it is empty exactly when that total is 0, and
   * its segments are distinct and ascending.
   */
  lemma SegmentNoResponseLaws(t: Table)
    requires Segment in t.columns && Outcome in t.columns
    ensures var gs := SegmentNoResponse(t);
      && SumSizes(gs) == TotalNoResponse(t)
      && (gs == [] <==> TotalNoResponse(t) == 0)
      && (forall i, j :: 0 <= i < j < |gs| ==> TextLess(gs[i].key, gs[j].key))
      && (forall i :: 0 <= i < |gs| ==>
            gs[i].size >= 1 && exists l :: l in t.leads && IsNoResponse(l) && l.segment == gs[i].key)
      && (forall i :: 0 <= i < |gs| ==> gs[i].size == CountWhere(t.leads, UnansweredIn(gs[i].key)))
      && (forall l :: l in t.leads && IsNoResponse(l) ==> exists i :: 0 <= i < |gs| && gs[i].key == l.segment)
  {
    SegmentOrder(t);
    SegmentWitnesses(t);
    SegmentSizes(t);
    SegmentCovers(t);
  }

  /** The segment counts add up to the no-response total, and the segments are ascending with positive counts. */
  lemma SegmentOrder(t: Table)
    requires Segment in t.columns && Outcome in t.columns
    ensures var gs := SegmentNoResponse(t);
      && SumSizes(gs) == TotalNoResponse(t)
      && (gs == [] <==> TotalNoResponse(t) == 0)
      && (forall i, j :: 0 <= i < j < |gs| ==> TextLess(gs[i].key, gs[j].key))
      && (forall i :: 0 <= i < |gs| ==> gs[i].size >= 1)
  {
    var xs := SegmentsOf(NoResponseRows(t.leads));
    TextLessIsStrictTotalOrder();
    GroupByLaws(xs, TextLess);
  }

  /** Each segment's count is the number of unanswered leads of that segment in the whole table. */
  lemma SegmentSizes(t: Table)
    requires Segment in t.columns && Outcome in t.columns
    ensures var gs := SegmentNoResponse(t);
      forall i :: 0 <= i < |gs| ==> gs[i].size == CountWhere(t.leads, UnansweredIn(gs[i].key))
  {
    var gs := SegmentNoResponse(t);
    forall i | 0 <= i < |gs| ensures gs[i].size == CountWhere(t.leads, UnansweredIn(gs[i].key)) {
      SegmentCount(t.leads, gs[i].key);
    }
  }

  /** Every unanswered lead's segment has a row. */
  lemma SegmentCovers(t: Table)
    requires Segment in t.columns && Outcome in t.columns
    ensures var gs := SegmentNoResponse(t);
      forall l :: l in t.leads && IsNoResponse(l) ==> exists i :: 0 <= i < |gs| && gs[i].key == l.segment
  {
    var gs := SegmentNoResponse(t);
    var xs := SegmentsOf(NoResponseRows(t.leads));
    var ks := SortedKeys(xs, TextLess);
    forall l | l in t.leads && IsNoResponse(l) ensures exists i :: 0 <= i < |gs| && gs[i].key == l.segment {
      CountPositive(t.leads, UnansweredIn(l.segment), l);
      SegmentCount(t.leads, l.segment);
      assert l.segment in ks;
      var i :| 0 <= i < |ks| && ks[i] == l.segment;
      assert gs[i].key == l.segment;
    }
  }

  /** Occurrences of a segment among the unanswered rows count the unanswered leads of that segment. */
  lemma {:induction false} SegmentCount(leads: seq<Lead>, seg: string)
    ensures Occurrences(SegmentsOf(NoResponseRows(leads)), seg) == CountWhere(leads, UnansweredIn(seg))
  {
    if leads != [] {
      var init := leads[..|leads| - 1];
      var last := leads[|leads| - 1];
      SegmentCount(init, seg);
      var a := NoResponseRows(init);
      assert NoResponseRows(leads) == a + (if IsNoResponse(last) then [last] else []);
      if IsNoResponse(last) {
        var xs := SegmentsOf(a + [last]);
        assert xs == SegmentsOf(a) + [last.segment];
        assert xs[..|xs| - 1] == SegmentsOf(a);
      } else {
        assert a + [] == a;
      }
    }
  }

  lemma SegmentWitnesses(t: Table)
    requires Segment in t.columns && Outcome in t.columns
    ensures var gs := SegmentNoResponse(t);
      forall i :: 0 <= i < |gs| ==> exists l :: l in t.leads && IsNoResponse(l) && l.segment == gs[i].key
  {
    var rows := NoResponseRows(t.leads);
    var xs := SegmentsOf(rows);
    var ks := SortedKeys(xs, TextLess);
    var gs := SegmentNoResponse(t);
    forall i | 0 <= i < |gs| ensures exists l :: l in t.leads && IsNoResponse(l) && l.segment == gs[i].key {
      assert gs[i].key == ks[i] && ks[i] in xs;
      var j :| 0 <= j < |xs| && xs[j] == gs[i].key;
      assert rows[j] in t.leads && IsNoResponse(rows[j]);
    }
  }

  /** The global no-response figures: a count of the table and a percentage of it. */
  lemma NoResponseTotalsLaws(t: Table)
    ensures TotalNoResponse(t) <= |t.leads|
    ensures 0.0 <= PercentNoResponse(t) <= 100.0
    ensures t.leads == [] ==> TotalNoResponse(t) == 0 && PercentNoResponse(t) == 0.0
    ensures Outcome in t.columns && t.leads != [] ==>
      PercentNoResponse(t) * (|t.leads| as real) == (TotalNoResponse(t) as real) * 100.0
  {
    PercentBounds(TotalNoResponse(t), |t.leads|);
  }

  /** An empty table yields present but empty or zero aggregates. */
  lemma EmptyTableKpis(t: Table)
    requires t.leads == []
    ensures KpisOf(t) == Kpis(0, [], [], [], 0, 0.0)
  {
    assert SegmentsOf(NoResponseRows(t.leads)) == [];
  }

  /** When no lead answered, every channel's return rate is 0 and the no-response share is 100. */
  lemma AllUnansweredKpis(t: Table)
    requires Outcome in t.columns && t.leads != []
    requires forall i :: 0 <= i < |t.leads| ==> IsNoResponse(t.leads[i])
    ensures PercentNoResponse(t) == 100.0
    ensures forall i :: 0 <= i < |ChannelPerformance(t)| ==> ChannelPerformance(t)[i].returnRate == 0.0
  {
    CountAll(t.leads, IsNoResponse);
    PercentExtremes(|t.leads|);
    var cs := ChannelPerformance(t);
    forall i | 0 <= i < |cs| ensures cs[i].returnRate == 0.0 {
      UnansweredChannel(t, ChannelKeys(t.leads)[i]);
    }
  }

  lemma UnansweredChannel(t: Table, c: string)
    requires forall i :: 0 <= i < |t.leads| ==> IsNoResponse(t.leads[i])
    ensures ChannelStatOf(t.leads, c).returnRate == 0.0
  {
    var rows := OfChannel(t.leads, c);
    forall k | 0 <= k < |rows| ensures IsNoResponse(rows[k]) {
      var j :| 0 <= j < |t.leads| && t.leads[j] == rows[k];
    }
    CountAll(rows, IsNoResponse);
    PercentExtremes(|rows|);
  }
}

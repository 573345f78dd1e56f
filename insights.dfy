/**
 * The automatic insights of the dashboard: the channel with the highest
 * return rate and the segment with the most unanswered leads, each chosen
 * the way `idxmax` chooses (the first row holding the maximum).
 */
module Insights {
  import opened Wrappers
  import opened Groups
  import opened Text
  import opened Loader
  import opened Aggregator
  import opened AggregatorLaws

  /** `idxmax` on a positional index: the first position holding the largest value. */
  function FirstMaxIndex(xs: seq<real>): (r: nat)
    requires xs != []
    ensures r < |xs|
    ensures forall j :: 0 <= j < |xs| ==> xs[j] <= xs[r]
    ensures forall j :: 0 <= j < r ==> xs[j] < xs[r]
  {
    if |xs| == 1 then 0
    else
      var init := xs[..|xs| - 1];
      var m := FirstMaxIndex(init);
      assert forall j :: 0 <= j < |init| ==> init[j] == xs[j];
      if xs[m] < xs[|xs| - 1] then |xs| - 1 else m
  }

  function ReturnRates(cs: seq<ChannelStat>): seq<real> {
    seq(|cs|, i requires 0 <= i < |cs| => cs[i].returnRate)
  }

  function Sizes(gs: seq<Group<string>>): seq<real> {
    seq(|gs|, i requires 0 <= i < |gs| => gs[i].size as real)
  }

  /** Row `i` has the highest return rate and no earlier row reaches it. */
  predicate BestChannelAt(cs: seq<ChannelStat>, i: int) {
    && 0 <= i < |cs|
    && (forall j :: 0 <= j < |cs| ==> cs[j].returnRate <= cs[i].returnRate)
    && (forall j :: 0 <= j < i ==> cs[j].returnRate < cs[i].returnRate)
  }

  /** Row `i` has the most unanswered leads and no earlier row reaches it. */
  predicate WorstSegmentAt(gs: seq<Group<string>>, i: int) {
    && 0 <= i < |gs|
    && (forall j :: 0 <= j < |gs| ==> gs[j].size <= gs[i].size)
    && (forall j :: 0 <= j < i ==> gs[j].size < gs[i].size)
  }

  /**
   * What the insight panel shows: a warning when there are no channel
   * statistics; otherwise the best channel with its rate and, when there is
   * segment data, the worst segment with its count.
   */
  datatype Insight =
    | InsufficientData
    | Insight(bestChannel: string, bestRate: real, worstSegment: Option<Group<string>>)

  function SelectInsight(k: Kpis): (r: Insight)
    ensures r.InsufficientData? <==> k.channelStats == []
    ensures r.Insight? ==> exists i :: (BestChannelAt(k.channelStats, i)
      && k.channelStats[i].channel == r.bestChannel && k.channelStats[i].returnRate == r.bestRate)
    ensures r.Insight? ==> (r.worstSegment.None? <==> k.noResponseBySegment == [])
    ensures r.Insight? && r.worstSegment.Some? ==>
      exists i :: WorstSegmentAt(k.noResponseBySegment, i) && k.noResponseBySegment[i] == r.worstSegment.value
  {
    if k.channelStats == [] then InsufficientData
    else
      var cs := k.channelStats;
      var best := FirstMaxIndex(ReturnRates(cs));
      assert BestChannelAt(cs, best) by {
        assert forall j :: 0 <= j < |cs| ==> ReturnRates(cs)[j] == cs[j].returnRate;
      }
      var gs := k.noResponseBySegment;
      var worst: Option<Group<string>> :=
        if gs == [] then None
        else
          var w := FirstMaxIndex(Sizes(gs));
          assert WorstSegmentAt(gs, w) by {
            assert forall j :: 0 <= j < |gs| ==> Sizes(gs)[j] == gs[j].size as real;
          }
          Some(gs[w]);
      Insight(cs[best].channel, cs[best].returnRate, worst)
  }

  /** In a table ordered by channel, the first row with the best rate has the least channel among the ties. */
  lemma BestIsLeastAmongTies(cs: seq<ChannelStat>, i: int)
    requires forall a, b :: 0 <= a < b < |cs| ==> TextLess(cs[a].channel, cs[b].channel)
    requires BestChannelAt(cs, i)
    ensures forall s :: s in cs && s.returnRate == cs[i].returnRate ==>
      s.channel == cs[i].channel || TextLess(cs[i].channel, s.channel)
  {
    forall s | s in cs && s.returnRate == cs[i].returnRate
      ensures s.channel == cs[i].channel || TextLess(cs[i].channel, s.channel)
    {
      var j :| 0 <= j < |cs| && cs[j] == s;
    }
  }

  /** In a table ordered by segment, the first row with the largest count has the least segment among the ties. */
  lemma WorstIsLeastAmongTies(gs: seq<Group<string>>, i: int)
    requires forall a, b :: 0 <= a < b < |gs| ==> TextLess(gs[a].key, gs[b].key)
    requires WorstSegmentAt(gs, i)
    ensures forall g :: g in gs && g.size == gs[i].size ==> g.key == gs[i].key || TextLess(gs[i].key, g.key)
  {
    forall g | g in gs && g.size == gs[i].size ensures g.key == gs[i].key || TextLess(gs[i].key, g.key) {
      var j :| 0 <= j < |gs| && gs[j] == g;
    }
  }

  /**
   * Because the channel table is in ascending channel order, the chosen
   * channel is the alphabetically first of those sharing the best rate.
   */
  lemma BestChannelFirstAmongTies(t: Table)
    requires Channel in t.columns && Outcome in t.columns && t.leads != []
    ensures var r := SelectInsight(KpisOf(t));
      && r.Insight?
      && forall s :: s in KpisOf(t).channelStats && s.returnRate == r.bestRate ==>
        s.channel == r.bestChannel || TextLess(r.bestChannel, s.channel)
  {
    var k := KpisOf(t);
    var r := SelectInsight(k);
    assert k.channelStats == ChannelPerformance(t);
    ChannelPerformanceLaws(t);
    var i :| BestChannelAt(k.channelStats, i) && k.channelStats[i].channel == r.bestChannel && k.channelStats[i].returnRate == r.bestRate;
    BestIsLeastAmongTies(k.channelStats, i);
  }

  /** Likewise the chosen segment is the alphabetically first of those sharing the largest count. */
  lemma WorstSegmentFirstAmongTies(t: Table)
    requires Segment in t.columns && Channel in t.columns && Outcome in t.columns
    requires exists l :: l in t.leads && IsNoResponse(l)
    ensures var r := SelectInsight(KpisOf(t));
      && r.Insight? && r.worstSegment.Some?
      && forall g :: g in KpisOf(t).noResponseBySegment && g.size == r.worstSegment.value.size ==>
        g.key == r.worstSegment.value.key || TextLess(r.worstSegment.value.key, g.key)
  {
    var k := KpisOf(t);
    var l :| l in t.leads && IsNoResponse(l);
    CountPositive(t.leads, IsNoResponse, l);
    assert k.channelStats == ChannelPerformance(t);
    ChannelPerformanceLaws(t);
    assert k.noResponseBySegment == SegmentNoResponse(t);
    SegmentOrder(t);
    var w := SelectInsight(k).worstSegment.value;
    var i :| WorstSegmentAt(k.noResponseBySegment, i) && k.noResponseBySegment[i] == w;
    WorstIsLeastAmongTies(k.noResponseBySegment, i);
  }
}

/** The bar chart of client/src/components/graphs.tsx: one bar pair per
    normalised criterion label, the mean score and the mean maximum of the
    items filed under it, and a y axis reaching 110% of the largest mean
    maximum. */
module Graphs {
  import opened Results
  import opened Keys
  import opened Criteria

  /** The `labels` and the two `data` arrays of the chart (lines 44-66). */
  datatype BarData = BarData(labels: seq<string>, scoredData: seq<real>, totalData: seq<real>)

  /** Lines 44-46 on the accumulator: its keys as labels, and per label
      the accumulated score and maximum divided by the count. */
  function Bars(acc: Tallies): (d: BarData)
    requires Valid(acc)
    ensures d.labels == acc.keys
    ensures |d.scoredData| == |d.labels| && |d.totalData| == |d.labels|
  {
    BarData(acc.keys,
            seq(|acc.keys|, i requires 0 <= i < |acc.keys| =>
              acc.entries[acc.keys[i]].scored / acc.entries[acc.keys[i]].count as real),
            seq(|acc.keys|, i requires 0 <= i < |acc.keys| =>
              acc.entries[acc.keys[i]].total / acc.entries[acc.keys[i]].count as real))
  }

  /** Lines 33-46: the chart data of a list of criterion items. */
  function BarChart(items: seq<Criterion>): (d: BarData)
    ensures |d.scoredData| == |d.labels| && |d.totalData| == |d.labels|
  {
    FoldValid(Keyed(items));
    Bars(Fold(items))
  }

  /** Each bar is a mean over exactly the items of its label: the labels are
      the distinct keys in first-appearance order, and bar `i` is the sum of
      those items' scores (maxima) over how many there are. */
  lemma BarChartMeans(items: seq<Criterion>)
    ensures InFirstAppearanceOrder(BarChart(items).labels, KeysOf(Keyed(items)))
    ensures forall i :: 0 <= i < |BarChart(items).labels| ==>
      var l := BarChart(items).labels[i];
      && CountKey(Keyed(items), l) >= 1
      && BarChart(items).scoredData[i] == SumScored(Keyed(items), l) / CountKey(Keyed(items), l) as real
      && BarChart(items).totalData[i] == SumTotal(Keyed(items), l) / CountKey(Keyed(items), l) as real
  {
    var fs := Keyed(items);
    FoldKeys(fs);
    FoldValid(fs);
    assert BarChart(items) == Bars(FoldFiled(fs));
    forall i | 0 <= i < |FoldFiled(fs).keys| {
      BarMean(fs, i);
    }
  }

  /** Bar `i` of a reduce over keyed items is the mean over exactly the
      items with its label. */
  lemma BarMean(fs: seq<Filed>, i: nat)
    requires Valid(FoldFiled(fs)) && i < |FoldFiled(fs).keys|
    ensures var l := FoldFiled(fs).keys[i];
      && CountKey(fs, l) >= 1
      && Bars(FoldFiled(fs)).scoredData[i] == SumScored(fs, l) / CountKey(fs, l) as real
      && Bars(FoldFiled(fs)).totalData[i] == SumTotal(fs, l) / CountKey(fs, l) as real
  {
    var l := FoldFiled(fs).keys[i];
    FoldHas(fs, l);
    FoldEntry(fs, l);
  }

  /** The largest of a non-empty list of numbers. */
  function MaxOf(xs: seq<real>): (m: real)
    requires |xs| > 0
    ensures m in xs
    ensures forall i :: 0 <= i < |xs| ==> xs[i] <= m
  {
    if |xs| == 1 then xs[0]
    else
      var m := MaxOf(xs[..|xs| - 1]);
      if xs[|xs| - 1] > m then xs[|xs| - 1] else m
  }

  /** Line 74: `Math.max(...totalData) * 1.1`; with no bars there is no
      largest value (JavaScript yields negative infinity there). When the
      bound is not negative, every total bar fits under it. */
  function YAxisMax(totalData: seq<real>): (r: Option<real>)
    ensures r.None? <==> totalData == []
    ensures r.Some? ==> exists i :: 0 <= i < |totalData| && r.value == totalData[i] * 11.0 / 10.0
    ensures r.Some? ==> forall i :: 0 <= i < |totalData| ==> totalData[i] * 11.0 / 10.0 <= r.value
    ensures r.Some? && r.value >= 0.0 ==> forall i :: 0 <= i < |totalData| ==> totalData[i] <= r.value
  {
    if totalData == [] then None else Some(MaxOf(totalData) * 11.0 / 10.0)
  }

  /** With at least one item there is at least one bar, so the axis has a
      bound. */
  lemma AxisBounded(items: seq<Criterion>)
    requires items != []
    ensures BarChart(items).labels != []
    ensures YAxisMax(BarChart(items).totalData).Some?
  {
    var fs := Keyed(items);
    FoldHas(fs, fs[|fs| - 1].key);
    FoldValid(fs);
  }
}

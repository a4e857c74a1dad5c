/** The pie charts of client/src/components/charts.tsx: one pie per
    normalised criterion label, splitting the label's summed maximum into
    the summed score and what remains. */
module Charts {
  import opened Keys
  import opened Criteria
  import opened Graphs

  /** The `labels` and the one `data` array of a pie (lines 30-39). */
  datatype PieData = PieData(labels: seq<string>, data: seq<real>)

  /** One card of the page (lines 50-53): the label, the sums shown in its
      heading, and its pie. */
  datatype PieCard = PieCard(name: string, scored: real, total: real, chart: PieData)

  /** Lines 29-40: two slices named after the label and "Remaining"; they add
      up to the total, and the remainder goes negative, unclamped, when the
      score exceeds the total. */
  function CreateChartData(name: string, scored: real, total: real): (p: PieData)
    ensures |p.labels| == 2 && p.labels[0] == name && p.labels[1] == "Remaining"
    ensures |p.data| == 2 && p.data[0] == scored && p.data[0] + p.data[1] == total
    ensures p.data[1] < 0.0 <==> scored > total
  {
    PieData([name, "Remaining"], [scored, total - scored])
  }

  /** Line 49 on the accumulator: one card per entry, in its key order. */
  function Cards(acc: Tallies): (r: seq<PieCard>)
    requires Valid(acc)
    ensures |r| == |acc.keys|
    ensures forall i :: 0 <= i < |r| ==>
      && r[i].name == acc.keys[i]
      && r[i].scored == acc.entries[acc.keys[i]].scored && r[i].total == acc.entries[acc.keys[i]].total
      && r[i].chart == CreateChartData(r[i].name, r[i].scored, r[i].total)
  {
    seq(|acc.keys|, i requires 0 <= i < |acc.keys| =>
      var t := acc.entries[acc.keys[i]];
      PieCard(acc.keys[i], t.scored, t.total, CreateChartData(acc.keys[i], t.scored, t.total)))
  }

  /** Lines 18-54: the cards of a list of criterion items. */
  function PieCharts(items: seq<Criterion>): (r: seq<PieCard>)
    ensures |r| == |Fold(items).keys|
    ensures forall i :: 0 <= i < |r| ==>
      r[i].name == Fold(items).keys[i] && r[i].chart == CreateChartData(r[i].name, r[i].scored, r[i].total)
  {
    FoldValid(Keyed(items));
    Cards(Fold(items))
  }

  /** The pies show sums, not means: card `i` is named after the `i`-th
      distinct key in first-appearance order, carries the sums over exactly
      the items of that key, and its slices add up to the summed maximum. */
  lemma PieChartsSums(items: seq<Criterion>)
    ensures |PieCharts(items)| == |Fold(items).keys|
    ensures InFirstAppearanceOrder(Fold(items).keys, KeysOf(Keyed(items)))
    ensures forall i :: 0 <= i < |PieCharts(items)| ==>
      var c := PieCharts(items)[i];
      && c.name == Fold(items).keys[i]
      && c.scored == SumScored(Keyed(items), c.name)
      && c.total == SumTotal(Keyed(items), c.name)
      && c.chart == CreateChartData(c.name, c.scored, c.total)
  {
    var fs := Keyed(items);
    var acc := Fold(items);
    FoldKeys(fs);
    FoldValid(fs);
    forall i | 0 <= i < |acc.keys|
      ensures PieCharts(items)[i].scored == SumScored(fs, acc.keys[i])
      ensures PieCharts(items)[i].total == SumTotal(fs, acc.keys[i])
    {
      FoldEntry(fs, acc.keys[i]);
    }
  }

  /** The bar chart and the pies list the same labels in the same order, and
      each bar is its pie's sum divided by the label's item count. */
  lemma BarsMatchPies(items: seq<Criterion>)
    ensures |BarChart(items).labels| == |PieCharts(items)|
    ensures forall i :: 0 <= i < |PieCharts(items)| ==>
      && BarChart(items).labels[i] == PieCharts(items)[i].name
      && CountKey(Keyed(items), PieCharts(items)[i].name) >= 1
      && BarChart(items).scoredData[i] == PieCharts(items)[i].scored / CountKey(Keyed(items), PieCharts(items)[i].name) as real
      && BarChart(items).totalData[i] == PieCharts(items)[i].total / CountKey(Keyed(items), PieCharts(items)[i].name) as real
  {
    var fs := Keyed(items);
    var acc := Fold(items);
    var bars := BarChart(items);
    var pies := PieCharts(items);
    FoldValid(fs);
    forall i | 0 <= i < |acc.keys|
      ensures CountKey(fs, acc.keys[i]) >= 1
      ensures bars.scoredData[i] == pies[i].scored / CountKey(fs, acc.keys[i]) as real
      ensures bars.totalData[i] == pies[i].total / CountKey(fs, acc.keys[i]) as real
    {
      var k := acc.keys[i];
      FoldEntry(fs, k);
      var t := acc.entries[k];
      var n := CountKey(fs, k);
      assert n == t.count;
      assert bars.scoredData[i] == t.scored / t.count as real;
      assert bars.totalData[i] == t.total / t.count as real;
      assert pies[i].scored == t.scored && pies[i].total == t.total;
    }
  }
}

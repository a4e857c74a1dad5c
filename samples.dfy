/** Worked examples of the aggregation on concrete criterion lists. */
module Samples {
  import opened Text
  import opened Criteria
  import opened Graphs
  import opened Charts

  /** A clean label and the same label with a trailing colon file under the
      same key: the label itself. */
  lemma TrailingColonDropped(s: string)
    requires IsTrimmed(s) && ':' !in s
    ensures NormalizeKey(s) == s
    ensures NormalizeKey(s + ":") == s
  {
    var t := s + ":";
    assert t[..|s|] == s;
    assert RemoveFirst(t, ':') == s;
  }

  /** Two items filed under one key give that key both sums and a count of
      two. */
  lemma FiledTwice(s: string, c: Criterion, d: Criterion)
    ensures FoldFiled([Filed(s, c), Filed(s, d)])
         == Tallies([s], map[s := Tally(c.scored + d.scored, c.total + d.total, 2)])
  {
    var fs := [Filed(s, c), Filed(s, d)];
    assert fs[..1] == [Filed(s, c)];
    assert fs[..1][..0] == [];
    var one := Tallies([s], map[s := Tally(c.scored, c.total, 1)]);
    assert FoldFiled(fs[..1]) == one;
  }

  /** Two "Grammar:" items scored 90/100 and 80/100, both filed under
      "Grammar", give one label with sums 170/200 over two items, a bar pair
      of means 85 and 100, and a pie of 170 scored and 30 remaining. */
  lemma TwoGrammarItems()
    ensures Bars(Tallies(["Grammar"], map["Grammar" := Tally(170.0, 200.0, 2)]))
         == BarData(["Grammar"], [85.0], [100.0])
    ensures Cards(Tallies(["Grammar"], map["Grammar" := Tally(170.0, 200.0, 2)]))
         == [PieCard("Grammar", 170.0, 200.0, PieData(["Grammar", "Remaining"], [170.0, 30.0]))]
    ensures FoldFiled([Filed("Grammar", Criterion("Grammar:", 90.0, 100.0)),
                       Filed("Grammar", Criterion("Grammar:", 80.0, 100.0))])
         == Tallies(["Grammar"], map["Grammar" := Tally(170.0, 200.0, 2)])
  {
    var g := "Grammar";
    FiledTwice(g, Criterion("Grammar:", 90.0, 100.0), Criterion("Grammar:", 80.0, 100.0));
    var acc := Tallies([g], map[g := Tally(170.0, 200.0, 2)]);
    assert Bars(acc).scoredData[0] == 85.0;
    assert Bars(acc).totalData[0] == 100.0;
    assert Cards(acc)[0] == PieCard(g, 170.0, 200.0, PieData([g, "Remaining"], [170.0, 30.0]));
  }
  /** Three items with three distinct keys are filed one per key, in
      input order. */
  lemma FiledThree(a: string, b: string, c: string, x: Criterion, y: Criterion, z: Criterion)
    requires a != b && a != c && b != c
    ensures FoldFiled([Filed(a, x), Filed(b, y), Filed(c, z)])
         == Tallies([a, b, c], map[a := Tally(x.scored, x.total, 1), b := Tally(y.scored, y.total, 1),
                                   c := Tally(z.scored, z.total, 1)])
  {
    var fs := [Filed(a, x), Filed(b, y), Filed(c, z)];
    assert fs[..2][..1] == fs[..1] && fs[..1][..0] == [];
    assert FoldFiled(fs[..1]) == Tallies([a], map[a := Tally(x.scored, x.total, 1)]);
    assert FoldFiled(fs[..2]) == Tallies([a, b], map[a := Tally(x.scored, x.total, 1), b := Tally(y.scored, y.total, 1)]);
  }

  /** With one item per label, each bar is that item's own score and
      maximum. */
  lemma SingleBars(a: string, b: string, c: string, x: Criterion, y: Criterion, z: Criterion)
    requires a != b && a != c && b != c
    ensures Bars(Tallies([a, b, c], map[a := Tally(x.scored, x.total, 1), b := Tally(y.scored, y.total, 1),
                                        c := Tally(z.scored, z.total, 1)]))
         == BarData([a, b, c], [x.scored, y.scored, z.scored], [x.total, y.total, z.total])
  {
    var acc := Tallies([a, b, c], map[a := Tally(x.scored, x.total, 1), b := Tally(y.scored, y.total, 1),
                                      c := Tally(z.scored, z.total, 1)]);
    var d := Bars(acc);
    assert d.scoredData[0] == x.scored && d.totalData[0] == x.total;
    assert d.scoredData[1] == y.scored && d.totalData[1] == y.total;
    assert d.scoredData[2] == z.scored && d.totalData[2] == z.total;
    assert d.scoredData == [x.scored, y.scored, z.scored];
    assert d.totalData == [x.total, y.total, z.total];
  }

  /** With one item per label, each pie shows that item's own score and
      the rest of its own maximum. */
  lemma SinglePies(a: string, b: string, c: string, x: Criterion, y: Criterion, z: Criterion)
    requires a != b && a != c && b != c
    ensures Cards(Tallies([a, b, c], map[a := Tally(x.scored, x.total, 1), b := Tally(y.scored, y.total, 1),
                                         c := Tally(z.scored, z.total, 1)]))
         == [PieCard(a, x.scored, x.total, PieData([a, "Remaining"], [x.scored, x.total - x.scored])),
             PieCard(b, y.scored, y.total, PieData([b, "Remaining"], [y.scored, y.total - y.scored])),
             PieCard(c, z.scored, z.total, PieData([c, "Remaining"], [z.scored, z.total - z.scored]))]
  {
    var acc := Tallies([a, b, c], map[a := Tally(x.scored, x.total, 1), b := Tally(y.scored, y.total, 1),
                                      c := Tally(z.scored, z.total, 1)]);
    var d := Cards(acc);
    assert d[0] == PieCard(a, x.scored, x.total, PieData([a, "Remaining"], [x.scored, x.total - x.scored]));
    assert d[1] == PieCard(b, y.scored, y.total, PieData([b, "Remaining"], [y.scored, y.total - y.scored]));
    assert d[2] == PieCard(c, z.scored, z.total, PieData([c, "Remaining"], [z.scored, z.total - z.scored]));
  }

  /** The `metricsData` of client/src/pages/index.tsx, lines 7-11, with its
      scores read as numbers. */
  const DemoMetrics: seq<Criterion> :=
    [Criterion("Grammar", 92.0, 100.0), Criterion("Content", 88.0, 100.0), Criterion("Structure", 95.0, 100.0)]

  /** Each demonstration label, trimmed and without a colon, is its own
      key. */
  lemma DemoLabel(i: nat)
    requires i < |DemoMetrics|
    ensures NormalizeKey(DemoMetrics[i].criteria) == DemoMetrics[i].criteria
  {
    var s := DemoMetrics[i].criteria;
    assert s == "Grammar" || s == "Content" || s == "Structure";
    assert IsTrimmed(s) && ':' !in s;
    TrailingColonDropped(s);
  }

  /** A sequence of length three is the display of its elements. */
  lemma Three<T>(s: seq<T>, a: T, b: T, c: T)
    requires |s| == 3 && s[0] == a && s[1] == b && s[2] == c
    ensures s == [a, b, c]
  {
  }

  /** Items whose labels are their own keys are filed under their labels. */
  lemma KeyedOwnLabels(x: Criterion, y: Criterion, z: Criterion)
    requires NormalizeKey(x.criteria) == x.criteria && NormalizeKey(y.criteria) == y.criteria
    requires NormalizeKey(z.criteria) == z.criteria
    ensures Keyed([x, y, z]) == [Filed(x.criteria, x), Filed(y.criteria, y), Filed(z.criteria, z)]
  {
    var items := [x, y, z];
    assert items[0] == x && items[1] == y && items[2] == z;
    var k := Keyed(items);
    Three(k, Filed(x.criteria, x), Filed(y.criteria, y), Filed(z.criteria, z));
  }


  /** The demonstration data, as the landing page hands it to the pie charts
      (client/src/pages/index.tsx, line 122): the three labels are already normal keys, so the
      reduce gives three labels in input order with one item each, and the
      pies are 92/8, 88/12 and 95/5. */
  lemma ThreeMetrics()
    ensures Fold(DemoMetrics)
         == Tallies(["Grammar", "Content", "Structure"],
                    map["Grammar" := Tally(92.0, 100.0, 1), "Content" := Tally(88.0, 100.0, 1),
                        "Structure" := Tally(95.0, 100.0, 1)])
    ensures PieCharts(DemoMetrics)
         == [PieCard("Grammar", 92.0, 100.0, PieData(["Grammar", "Remaining"], [92.0, 8.0])),
             PieCard("Content", 88.0, 100.0, PieData(["Content", "Remaining"], [88.0, 12.0])),
             PieCard("Structure", 95.0, 100.0, PieData(["Structure", "Remaining"], [95.0, 5.0]))]
  {
    var g, c, t := "Grammar", "Content", "Structure";
    assert g != c && g != t && c != t by {
      assert g[0] == 'G' && c[0] == 'C' && t[0] == 'S';
    }
    var x, y, z := DemoMetrics[0], DemoMetrics[1], DemoMetrics[2];
    DemoLabel(0);
    DemoLabel(1);
    DemoLabel(2);
    KeyedOwnLabels(x, y, z);
    FiledThree(g, c, t, x, y, z);
    SinglePies(g, c, t, x, y, z);
  }
}

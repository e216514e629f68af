/** Concrete instances of the model for the demo application's inputs
    (projects/demo/src/app/app.component.ts): the font sizes 8 to 17 and the font
    weights 100, 300, 400, ..., 900, with the default options. The lemmas are stated for
    every list with the demo's numbers, whatever its labels; the demo's own lists are
    such lists. */
module SliderScenarios {
  import opened SliderInterface
  import opened SliderGeometry
  import opened SliderComponent

  /** `n + ''`: the decimal digits of n. */
  function Decimal(n: nat): string
    decreases n
  {
    var digit := ['0', '1', '2', '3', '4', '5', '6', '7', '8', '9'][n % 10];
    if n < 10 then [digit] else Decimal(n / 10) + [digit]
  }

  /** The range of a list is read off one entry at each end. */
  lemma RangeOf(values: seq<SliderValue>, a: nat, b: nat)
    requires a < |values| && b < |values| && values[a].value < values[b].value
    requires forall i :: 0 <= i < |values| ==> values[a].value <= values[i].value <= values[b].value
    ensures Spread(values) && MinOf(values) == values[a].value && MaxOf(values) == values[b].value
  {
    var xs := Nums(values);
    assert xs[a] == values[a].value && xs[b] == values[b].value;
    var lo, hi := SeqMin(xs), SeqMax(xs);
    assert lo <= xs[a] && xs[b] <= hi;
    assert lo >= xs[a] && hi <= xs[b];
  }

  // ---------------------------------------------------------------------------------
  // The demo's value lists

  /** Ten values 8 to 17, in that order. */
  predicate SizeNumbers(values: seq<SliderValue>) {
    |values| == 10 && forall i :: 0 <= i < 10 ==> values[i].value == (i + 8) as real
  }

  lemma SizeRange(values: seq<SliderValue>)
    requires SizeNumbers(values)
    ensures Spread(values) && MinOf(values) == 8.0 && MaxOf(values) == 17.0
  {
    RangeOf(values, 0, 9);
  }

  /** `fontSizeValues`: the values 8 to 17, each labelled with its own number as text. */
  function FontSizes(): (vs: seq<SliderValue>)
    ensures SizeNumbers(vs)
  {
    seq(10, k requires 0 <= k < 10 => SliderValue((k + 8) as real, Text(Decimal(k + 8))))
  }

  /** The weight at index i of `fontWeightValues`: 100, then 300 to 900 in hundreds. */
  function WeightNum(i: nat): real {
    if i == 0 then 100.0 else ((i + 2) * 100) as real
  }

  /** The label at index i of `fontWeightValues`: a name for some weights, the number itself for the rest. */
  function WeightLabel(i: nat): Placeholder {
    if i == 0 then Text("thin")
    else if i == 1 then Text("light")
    else if i == 5 then Text("bold")
    else if i == 7 then Text("black")
    else Number(WeightNum(i))
  }

  /** Eight values 100, 300, 400, ..., 900, in that order. */
  predicate WeightNumbers(values: seq<SliderValue>) {
    |values| == 8 && forall i :: 0 <= i < 8 ==> values[i].value == WeightNum(i)
  }

  lemma WeightRange(values: seq<SliderValue>)
    requires WeightNumbers(values)
    ensures Spread(values) && MinOf(values) == 100.0 && MaxOf(values) == 900.0
  {
    RangeOf(values, 0, 7);
  }

  /** `fontWeightValues`: 100, 300, 400, ..., 900; there is no 200. */
  function Weights(): (vs: seq<SliderValue>)
    ensures WeightNumbers(vs)
  {
    seq(8, i requires 0 <= i < 8 => SliderValue(WeightNum(i), WeightLabel(i)))
  }

  /** `darkOptions`: eight colour and font keys set, everything else left to the defaults. */
  function DarkOptions(): SliderOptions {
    NoOptions().(gridColor := Some("#4F545C"), dashColor := Some("#4F545C"),
                 dashMarkColor := Some("#4F545C"), dashMarkSelectedColor := Some("#68d391"),
                 dashMarkFontWeight := Some(900.0), dashMarkFontSize := Some(12.0),
                 dashMarkPadding := Some(12.0), barColor := Some("#ffffff"))
  }

  /** The dark theme resolves key by key: its own colours win, the step, the bands and the
      bar's size stay the defaults. */
  lemma DarkMerge()
    ensures var o := Merge(Some(DarkOptions()));
      o.barColor == Some("#ffffff") && o.dashMarkSelectedColor == Some("#68d391") &&
      o.dashMarkFontSize == Some(12.0) && o.step == Some(4) && o.barWidth == Some(30.0) &&
      o.indicatorColor == Defaults().indicatorColor &&
      o.gridColor == Some("#4F545C") && o.dashColor == Some("#4F545C") &&
      o.dashMarkColor == Some("#4F545C") && o.dashMarkFontWeight == Some(900.0) &&
      o.dashMarkPadding == Some(12.0)
  {
    MergeByKey(Some(DarkOptions()), GridColor);
    MergeByKey(Some(DarkOptions()), DashColor);
    MergeByKey(Some(DarkOptions()), DashMarkColor);
    MergeByKey(Some(DarkOptions()), DashMarkFontWeight);
    MergeByKey(Some(DarkOptions()), DashMarkPadding);
    MergeByKey(Some(DarkOptions()), BarColor);
    MergeByKey(Some(DarkOptions()), DashMarkSelectedColor);
    MergeByKey(Some(DarkOptions()), DashMarkFontSize);
    MergeByKey(Some(DarkOptions()), Step);
    MergeByKey(Some(DarkOptions()), BarWidth);
    MergeByKey(Some(DarkOptions()), IndicatorColor);
  }

  // ---------------------------------------------------------------------------------
  // Offsets and hit-testing

  /** An offset that comes out whole: `width * (v - min) / (max - min)` equal to p. */
  lemma TickAt(width: nat, v: real, min: real, max: real, p: int)
    requires min < max && (v - min) * width as real == p as real * (max - min)
    ensures Offset(width, v, min, max) == p
  {
    OffsetIsRatio(width, v, min, max);
    var t := (v - min) / (max - min);
    assert t * (max - min) == v - min;
    assert (width as real * t - p as real) * (max - min) == 0.0;
    assert width as real * t == p as real;
  }

  /** Ten dashes carrying 8 to 17 in order, `step` pixels apart from 0. */
  predicate SizeTicks(ds: seq<Dash>, step: int) {
    |ds| == 10 && forall i :: 0 <= i < 10 ==> ds[i].v.value == (i + 8) as real && ds[i].left == step * i
  }

  /** On a track 9 * s pixels wide the font sizes stand s pixels apart. */
  lemma SizeLayout(values: seq<SliderValue>, s: nat)
    requires SizeNumbers(values)
    ensures Spread(values) && SizeTicks(Layout(values, 9 * s, Defaults()), s)
  {
    SizeRange(values);
    var ds := Layout(values, 9 * s, Defaults());
    DashesCoverValues(values, 9 * s, 4, Defaults().dashMarkColor.value, Defaults().dashColor.value);
    forall i | 0 <= i < 10 ensures ds[i].v.value == (i + 8) as real && ds[i].left == s * i {
      SizeTick(s, i);
    }
  }

  /** The font size i + 8 on a track 9 * s pixels wide sits s * i pixels from the left. */
  lemma SizeTick(s: nat, i: nat)
    ensures Offset(9 * s, (i + 8) as real, 8.0, 17.0) == s * i
  {
    var v := (i + 8) as real;
    assert (v - 8.0) * (9 * s) as real == (s * i) as real * (17.0 - 8.0) by {
      assert (v - 8.0) == i as real;
      assert (9 * s) as real == 9.0 * s as real;
      assert (s * i) as real == s as real * i as real;
    }
    TickAt(9 * s, v, 8.0, 17.0, s * i);
  }

  /** On a 900-pixel track the font size 12 sits 400 pixels from the left:
      four ninths of the way from 8 to 17. */
  lemma FontSizeTwelveAt400()
    ensures Offset(900, 12.0, 8.0, 17.0) == 400
  {
    TickAt(900, 12.0, 8.0, 17.0, 400);
  }

  /** The weights' tick offsets on an 800-pixel track: the hole left by the missing 200 shows. */
  lemma WeightLefts(values: seq<SliderValue>)
    requires WeightNumbers(values)
    ensures Spread(values) &&
      var ds := Layout(values, 800, Defaults());
      |ds| == 8 && ds[0].left == 0 && ds[1].left == 200 && ds[2].left == 300 && ds[3].left == 400 &&
      ds[4].left == 500 && ds[5].left == 600 && ds[6].left == 700 && ds[7].left == 800
  {
    WeightRange(values);
    assert values[0].value == 100.0 && values[1].value == 300.0 && values[2].value == 400.0;
    assert values[3].value == 500.0 && values[4].value == 600.0 && values[5].value == 700.0;
    assert values[6].value == 800.0 && values[7].value == 900.0;
    TickAt(800, 100.0, 100.0, 900.0, 0);
    TickAt(800, 300.0, 100.0, 900.0, 200);
    TickAt(800, 400.0, 100.0, 900.0, 300);
    TickAt(800, 500.0, 100.0, 900.0, 400);
    TickAt(800, 600.0, 100.0, 900.0, 500);
    TickAt(800, 700.0, 100.0, 900.0, 600);
    TickAt(800, 800.0, 100.0, 900.0, 700);
    TickAt(800, 900.0, 100.0, 900.0, 800);
  }

  /** A click 310 pixels along the weights' track picks the weight 400, whose tick is at 300. */
  lemma ClickNearWeight400(values: seq<SliderValue>)
    requires WeightNumbers(values)
    ensures Spread(values) &&
      var ds := Layout(values, 800, Defaults());
      |ds| == 8 && FindClosest(ds, 310.0) == 2 && NearestValue(ds, 310.0) == 400.0
  {
    WeightLefts(values);
    var ds := Layout(values, 800, Defaults());
    var k := FindClosest(ds, 310.0);
    assert Dist(ds[k], 310.0) <= Dist(ds[2], 310.0);
    assert k == 0 || k == 1 || k == 2 || k == 3 || k == 4 || k == 5 || k == 6 || k == 7;
    assert ds[2].v == values[2];
  }

  // ---------------------------------------------------------------------------------
  // Bands and the step window

  /** The default bands: up to 12 red, up to 20 yellow, above 20 no colour. */
  lemma DefaultBandColours(v: real)
    ensures v <= 12.0 ==> IndicatorColorOf(Defaults().indicatorColor, v) == Some("red")
    ensures 12.0 < v <= 20.0 ==> IndicatorColorOf(Defaults().indicatorColor, v) == Some("yellow")
    ensures 20.0 < v ==> IndicatorColorOf(Defaults().indicatorColor, v) == None
  {
    var bands := Defaults().indicatorColor.value;
    assert bands == [IndicatorBand(12.0, "red"), IndicatorBand(20.0, "yellow")];
    assert bands[1..] == [IndicatorBand(20.0, "yellow")];
    assert bands[1..][1..] == [];
    if 12.0 < v <= 20.0 {
      assert FindBand(bands[1..], v) == Some(0);
      assert FindBand(bands, v) == Some(1);
    }
  }

  /** With step 4 the font size 14 (index 6) lies in the window from 12 to 16. */
  lemma FontSizeFourteenWindow()
    ensures StepWindow(14.0, 6, 4, 8.0, 17.0, 10) == Some((12.0, 16.0))
  {
    assert Gap(8.0, 17.0, 10) == 1.0;
  }

  /** On the font-size dashes, 14 stands first at index 6, and the window from 12 to 16
      widens the tick at index 4 up to the tick at index 8, and no other. */
  lemma SizesWindow(ds: seq<Dash>, s: int)
    requires SizeTicks(ds, s)
    ensures FirstWithValue(ds, 14.0, 6) && FindDash(ds, 16.0) == Some(8)
    ensures forall i :: EmphasisAt(ds, Some((12.0, 16.0)), i) <==> i == 4
  {
    assert FirstWithValue(ds, 12.0, 4);
    assert FirstWithValue(ds, 16.0, 8);
    FindDashIsFirst(ds, 16.0);
  }

  /** `setBarPosition` on the font sizes with the value 14 and the default options, on a
      900-pixel track: it succeeds, the label of 14 is the only active one and has the
      selected colour, and the bar is centred on its tick at 600. */
  lemma FontSizeFourteenMarked(values: seq<SliderValue>)
    requires SizeNumbers(values)
    ensures Spread(values) &&
      var r := Reposition(values, Some(14.0), 900, Defaults(), Layout(values, 900, Defaults()), None);
      |r.dashes| == 10 && r.outcome == Pass && r.barLeft == Some(585.0) &&
      r.dashes[6].markColor == Defaults().dashMarkSelectedColor.value &&
      forall i :: 0 <= i < 10 ==> (r.dashes[i].active <==> i == 6)
  {
    var o := Defaults();
    SizeRange(values);
    SizeLayout(values, 100);
    var ds := Layout(values, 900, o);
    LayoutFindsValue(values, 900, o, 14.0);
    FindDashIsFirst(ds, 14.0);
    assert FirstWithValue(ds, 14.0, 6);
    RepositionMarksCurrent(values, Some(14.0), 900, o, ds, None);
    RepositionKeepsGeometry(values, Some(14.0), 900, o, ds, None);
  }

  /** ... and it draws the step window from 12 to 16: the tick of 12 is widened by the
      400 pixels up to the tick of 16 and painted yellow, the band colour of 14; every
      other tick keeps the plain dash. */
  lemma FontSizeFourteenWindowDrawn(values: seq<SliderValue>)
    requires SizeNumbers(values)
    ensures Spread(values) &&
      var r := Reposition(values, Some(14.0), 900, Defaults(), Layout(values, 900, Defaults()), None);
      |r.dashes| == 10 && r.dashes[4].band == Some(400) && r.dashes[4].background == "yellow" &&
      forall i :: 0 <= i < 10 && i != 4 ==> r.dashes[i].band.None? && r.dashes[i].background == Defaults().dashColor.value
  {
    var o := Defaults();
    FontSizeFourteenMarked(values);
    SizeRange(values);
    SizeLayout(values, 100);
    var ds := Layout(values, 900, o);
    SizesWindow(ds, 100);
    assert IndexOfValue(values, 14.0) == Some(6) by { LayoutFindsValue(values, 900, o, 14.0); }
    FontSizeFourteenWindow();
    DefaultBandColours(14.0);
    RepositionDrawsWindow(values, Some(14.0), 900, o, ds, None);
    RepositionKeepsGeometry(values, Some(14.0), 900, o, ds, None);
  }

  /** The window uses the insertion index: with 9 listed before 8, the value 8 at index 1
      opens a window one gap below the smallest value, where no dash stands, so no tick is
      widened. Listed in sorted order, 8 would open the window at itself. */
  lemma InsertionIndexWindow()
    ensures var values := [SliderValue(9.0, Number(9.0)), SliderValue(8.0, Number(8.0)), SliderValue(10.0, Number(10.0)),
                           SliderValue(11.0, Number(11.0)), SliderValue(12.0, Number(12.0))];
      IndexOfValue(values, 8.0) == Some(1) &&
      StepWindow(8.0, 1, 4, 8.0, 12.0, 5) == Some((7.0, 11.0)) &&
      StepWindow(8.0, 0, 4, 8.0, 12.0, 5) == Some((8.0, 12.0)) &&
      (forall ds: seq<Dash> {:trigger WindowTicks(ds, Some((7.0, 11.0)))} ::
         (forall i :: 0 <= i < |ds| ==> ds[i].v.value in Nums(values)) ==> WindowTicks(ds, Some((7.0, 11.0))).None?)
  {
    assert Gap(8.0, 12.0, 5) == 1.0;
    var values := [SliderValue(9.0, Number(9.0)), SliderValue(8.0, Number(8.0)), SliderValue(10.0, Number(10.0)),
                   SliderValue(11.0, Number(11.0)), SliderValue(12.0, Number(12.0))];
    assert Nums(values) == [9.0, 8.0, 10.0, 11.0, 12.0];
    forall ds: seq<Dash> | forall i :: 0 <= i < |ds| ==> ds[i].v.value in Nums(values)
      ensures WindowTicks(ds, Some((7.0, 11.0))).None?
    {
      FindDashIsFirst(ds, 7.0);
    }
  }

  // ---------------------------------------------------------------------------------
  // Quirks of the committed value

  /** On ticks ten pixels apart from 0, the reduction keeps the tick at 20 for x = 25. */
  lemma ClosestAtTwentyFive(ds: seq<Dash>)
    requires SizeTicks(ds, 10)
    ensures FindClosest(ds, 25.0) == 2
  {
    var k := FindClosest(ds, 25.0);
    assert Dist(ds[2], 25.0) == 5.0;
    assert Dist(ds[k], 25.0) <= 5.0;
    assert ds[k].left == 10 * k;
    assert k == 2 || k == 3;
    assert k != 3 by { assert Dist(ds[3], 25.0) == 5.0; }
  }

  /** The drift of a bare release: on a 90-pixel track with the font size 12 set, the bar's
      CSS `left` is 25, half a bar left of the tick at 40. A release anywhere on the page
      snaps to the tick nearest to 25; 20 and 30 are equally near and the earlier wins, so
      the value drops to 10 without the pointer having moved. */
  lemma ReleaseDriftsLeft(values: seq<SliderValue>)
    requires SizeNumbers(values)
    ensures Spread(values) &&
      var ds := Layout(values, 90, Defaults());
      |ds| == 10 &&
      BarLeft(90, 12.0, MinOf(values), MaxOf(values), Defaults().barWidth.value) == 25.0 &&
      ValueAtBar(ds, Some(25.0)) == 10.0
  {
    SizeRange(values);
    SizeLayout(values, 10);
    ClosestAtTwentyFive(Layout(values, 90, Defaults()));
    TickAt(90, 12.0, 8.0, 17.0, 40);
    assert Defaults().barWidth.value / 2.0 == 15.0;
  }

  /** The half-bar jump of a drag step: on the same track the bar's CSS `left` is 25, and a
      first pointer move with no travel gives the candidate offset 25. That lies within the
      dashes' span (0 to 90), so the bar's new `left` is 25 less half the bar width, 10,
      and the value drops from 12 to 9 although the pointer has not moved. */
  lemma ZeroTravelDragJumps(values: seq<SliderValue>)
    requires SizeNumbers(values)
    ensures Spread(values) &&
      var ds := Layout(values, 90, Defaults());
      var left := BarLeft(90, 12.0, MinOf(values), MaxOf(values), Defaults().barWidth.value);
      var candidate := left + 0.0;
      left == 25.0 && Reaches(ds, candidate) &&
      candidate - Defaults().barWidth.value / 2.0 == 10.0 &&
      NearestValue(ds, candidate - Defaults().barWidth.value / 2.0) == 9.0
  {
    SizeRange(values);
    SizeLayout(values, 10);
    var ds := Layout(values, 90, Defaults());
    TickAt(90, 12.0, 8.0, 17.0, 40);
    assert Defaults().barWidth.value / 2.0 == 15.0;
    SpanOfTenPixelTicks(ds);
    ClosestAtTen(ds);
  }

  /** Ticks ten pixels apart from 0 span 0 to 90, so 25 is within reach. */
  lemma SpanOfTenPixelTicks(ds: seq<Dash>)
    requires SizeTicks(ds, 10)
    ensures Reaches(ds, 25.0)
  {
    var ls := Lefts(ds);
    assert ls[0] == 0.0 && ls[9] == 90.0;
    assert SeqMin(ls) <= ls[0];
    assert ls[9] <= SeqMax(ls);
  }

  /** On ticks ten pixels apart from 0, the dash nearest to 10 is the one at 10, carrying 9. */
  lemma ClosestAtTen(ds: seq<Dash>)
    requires SizeTicks(ds, 10)
    ensures FindClosest(ds, 10.0) == 1 && NearestValue(ds, 10.0) == 9.0
  {
    var k := FindClosest(ds, 10.0);
    assert Dist(ds[1], 10.0) == 0.0;
    assert Dist(ds[k], 10.0) <= 0.0;
    assert ds[k].left == 10 * k;
  }

  /** A bar without a `left` (after a failed `init`) commits the first dash's value. */
  lemma NaNBarTakesFirst(ds: seq<Dash>)
    requires |ds| > 0
    ensures ValueAtBar(ds, None) == ds[0].v.value
  {
  }

  /** The fallback `value || min` treats a committed 0 as unset: with values -5, 0 and 5 a
      value of 0 is drawn at -5. */
  lemma ZeroDrawnAtMin()
    ensures var values := [SliderValue(-5.0, Number(-5.0)), SliderValue(0.0, Number(0.0)), SliderValue(5.0, Number(5.0))];
      EffectiveValue(Some(0.0), values) == -5.0
  {
    var values := [SliderValue(-5.0, Number(-5.0)), SliderValue(0.0, Number(0.0)), SliderValue(5.0, Number(5.0))];
    assert Nums(values) == [-5.0, 0.0, 5.0];
  }
}

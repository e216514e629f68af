/** The pure computations of NgxSliderComponent
    (projects/ngx-slider/src/lib/ngx-slider.component.ts): the value range, pixel offsets,
    `find`/`findIndex`, `findClosest`, the step window, the indicator colour and the
    per-dash render state that the event handlers rewrite. */
module SliderGeometry {
  import opened SliderInterface

  function Abs(x: real): real { if x < 0.0 then -x else x }

  /** JavaScript `Math.round`: the integer nearest to x, halves rounded up. */
  function Round(x: real): (r: int)
    ensures r as real <= x + 0.5 < r as real + 1.0
  {
    (x + 0.5).Floor
  }

  /** `Math.min(...xs)` on a non-empty list. */
  function SeqMin(xs: seq<real>): (m: real)
    requires |xs| > 0
    ensures m in xs
    ensures forall i :: 0 <= i < |xs| ==> m <= xs[i]
  {
    if |xs| == 1 then xs[0]
    else
      var rest := SeqMin(xs[1..]);
      assert forall i :: 1 <= i < |xs| ==> xs[i] == xs[1..][i - 1];
      if xs[0] <= rest then xs[0] else rest
  }

  /** `Math.max(...xs)` on a non-empty list. */
  function SeqMax(xs: seq<real>): (m: real)
    requires |xs| > 0
    ensures m in xs
    ensures forall i :: 0 <= i < |xs| ==> xs[i] <= m
  {
    if |xs| == 1 then xs[0]
    else
      var rest := SeqMax(xs[1..]);
      assert forall i :: 1 <= i < |xs| ==> xs[i] == xs[1..][i - 1];
      if xs[0] >= rest then xs[0] else rest
  }

  /** `values.map(v => v.value)`. */
  function Nums(values: seq<SliderValue>): seq<real> {
    seq(|values|, i requires 0 <= i < |values| => values[i].value)
  }

  /** The value set is laid out without dividing by zero: at least two entries, and a
      largest value strictly above the smallest. */
  predicate Spread(values: seq<SliderValue>) {
    |values| >= 2 && SeqMin(Nums(values)) < SeqMax(Nums(values))
  }

  function MinOf(values: seq<SliderValue>): real requires |values| > 0 { SeqMin(Nums(values)) }
  function MaxOf(values: seq<SliderValue>): real requires |values| > 0 { SeqMax(Nums(values)) }

  /** The pixel offset of value v on a track `width` pixels wide, as the component computes
      it: `Math.round((width / 100) * ((v - min) / (max - min) * 100))`. */
  function Offset(width: nat, v: real, min: real, max: real): int
    requires min < max
  {
    Round((width as real / 100.0) * ((v - min) / (max - min) * 100.0))
  }

  /** The percentage detour cancels: the offset is the rounded ratio `width * (v - min) / (max - min)`. */
  lemma OffsetIsRatio(width: nat, v: real, min: real, max: real)
    requires min < max
    ensures Offset(width, v, min, max) == Round(width as real * ((v - min) / (max - min)))
  {
    var t := (v - min) / (max - min);
    assert (width as real / 100.0) * (t * 100.0) == width as real * t;
  }

  /** The smallest value sits at the left end of the track. */
  lemma OffsetOfMin(width: nat, min: real, max: real)
    requires min < max
    ensures Offset(width, min, min, max) == 0
  {
    OffsetIsRatio(width, min, min, max);
    assert (min - min) / (max - min) == 0.0;
  }

  /** The largest value sits at the right end of the track. */
  lemma OffsetOfMax(width: nat, min: real, max: real)
    requires min < max
    ensures Offset(width, max, min, max) == width
  {
    OffsetIsRatio(width, max, min, max);
    assert (max - min) / (max - min) == 1.0;
  }

  lemma RatioBounds(v: real, min: real, max: real)
    requires min < max && min <= v <= max
    ensures 0.0 <= (v - min) / (max - min) <= 1.0
  {
    var d := max - min;
    var t := (v - min) / d;
    assert t * d == v - min;
    assert (1.0 - t) * d == max - v;
  }

  /** Scaling by a fraction stays between zero and the scale. */
  lemma ScaleWithin(w: real, t: real)
    requires w >= 0.0 && 0.0 <= t <= 1.0
    ensures 0.0 <= w * t <= w
  {
    assert w - w * t == w * (1.0 - t);
  }

  /** Rounding keeps a value between two integers that bracket it. */
  lemma RoundWithin(x: real, lo: int, hi: int)
    requires lo as real <= x <= hi as real
    ensures lo <= Round(x) <= hi
  {
  }

  /** Multiplying by a non-negative factor keeps the order. */
  lemma ScaleMonotone(a: real, b: real, g: real)
    requires a <= b && g >= 0.0
    ensures a * g <= b * g
  {
    assert b * g - a * g == (b - a) * g;
  }

  /** Every value of the range lands on the track. */
  lemma OffsetInTrack(width: nat, v: real, min: real, max: real)
    requires min < max && min <= v <= max
    ensures 0 <= Offset(width, v, min, max) <= width
  {
    OffsetIsRatio(width, v, min, max);
    RatioBounds(v, min, max);
    RoundScaled(width, (v - min) / (max - min));
  }

  /** A fraction of the track's width rounds to a pixel on the track. */
  lemma RoundScaled(width: nat, t: real)
    requires 0.0 <= t <= 1.0
    ensures 0 <= Round(width as real * t) <= width
  {
    ScaleWithin(width as real, t);
    RoundWithin(width as real * t, 0, width);
  }

  /** Larger values never land further left, whatever their position in the list. */
  lemma OffsetMonotone(width: nat, v1: real, v2: real, min: real, max: real)
    requires min < max && v1 <= v2
    ensures Offset(width, v1, min, max) <= Offset(width, v2, min, max)
  {
    OffsetIsRatio(width, v1, min, max);
    OffsetIsRatio(width, v2, min, max);
    var d := max - min;
    var t1, t2 := (v1 - min) / d, (v2 - min) / d;
    assert (t2 - t1) * d == v2 - v1;
    assert t1 <= t2;
    assert width as real * t1 <= width as real * t2;
  }

  /** `values.findIndex(v => v.value === x)`; also decides `values.find(...)`. */
  function IndexOfValue(values: seq<SliderValue>, x: real): (r: Option<nat>)
    ensures r.Some? ==> r.value < |values| && values[r.value].value == x
    ensures r.Some? ==> forall j :: 0 <= j < r.value ==> values[j].value != x
    ensures r.None? ==> forall j :: 0 <= j < |values| ==> values[j].value != x
  {
    if |values| == 0 then None
    else if values[0].value == x then Some(0)
    else
      var rest := IndexOfValue(values[1..], x);
      assert forall j :: 1 <= j < |values| ==> values[j] == values[1..][j - 1];
      if rest.Some? then Some(rest.value + 1) else None
  }

  /** The render state of one dash: the value it stands for, its pixel offset, whether
      its tick is hidden, whether its label is `active`, the label colour, the tick
      background, and `band == Some(span)` when the tick is widened to reach the tick `span`
      pixels to its right (its CSS width is then `span` plus half the dash width);
      `band == None` when it has the configured dash shape. */
  datatype Dash = Dash(
    v: SliderValue,
    left: int,
    hidden: bool,
    active: bool,
    markColor: string,
    background: string,
    band: Option<int>)

  /** Dash i is the first dash whose value is x. */
  predicate FirstWithValue(ds: seq<Dash>, x: real, i: int) {
    0 <= i < |ds| && ds[i].v.value == x && forall j :: 0 <= j < i ==> ds[j].v.value != x
  }

  /** Some dash has value x. */
  predicate HasValue(ds: seq<Dash>, x: real) {
    exists j :: 0 <= j < |ds| && ds[j].v.value == x
  }

  /** `dashes.find(d => d.v.value === x)`, as an index. */
  function FindDash(ds: seq<Dash>, x: real): (r: Option<nat>)
    ensures r.Some? ==> FirstWithValue(ds, x, r.value)
    ensures r.None? ==> !HasValue(ds, x)
  {
    if |ds| == 0 then None
    else if ds[0].v.value == x then Some(0)
    else
      var rest := FindDash(ds[1..], x);
      assert forall j :: 1 <= j < |ds| ==> ds[j] == ds[1..][j - 1];
      if rest.Some? then Some(rest.value + 1) else None
  }

  lemma FindDashIsFirst(ds: seq<Dash>, x: real)
    ensures FindDash(ds, x).Some? <==> HasValue(ds, x)
    ensures forall i :: FirstWithValue(ds, x, i) <==> FindDash(ds, x) == Some(i)
  {
    var r := FindDash(ds, x);
    if r.None? {
      assert forall j :: 0 <= j < |ds| ==> ds[j].v.value != x;
    }
  }

  /** Dashes that carry the values of a list, in its order, find a value where
      `findIndex` finds it in the list. */
  lemma FindDashOfValues(ds: seq<Dash>, values: seq<SliderValue>, x: real)
    requires |ds| == |values|
    requires forall i :: 0 <= i < |ds| ==> ds[i].v.value == values[i].value
    ensures FindDash(ds, x) == IndexOfValue(values, x)
  {
    var g := IndexOfValue(values, x);
    FindDashIsFirst(ds, x);
    if g.Some? {
      assert FirstWithValue(ds, x, g.value);
    } else {
      assert !HasValue(ds, x);
    }
  }

  /** Two dash lists that agree on what stands where: values, offsets, hidden flags. */
  predicate SameGeometry(a: seq<Dash>, b: seq<Dash>) {
    |a| == |b| &&
    forall i :: 0 <= i < |a| ==> a[i].v == b[i].v && a[i].left == b[i].left && a[i].hidden == b[i].hidden
  }

  lemma FindDashSameGeometry(a: seq<Dash>, b: seq<Dash>, x: real)
    requires SameGeometry(a, b)
    ensures FindDash(a, x) == FindDash(b, x)
  {
    FindDashIsFirst(a, x);
    FindDashIsFirst(b, x);
    if FindDash(a, x).Some? {
      assert FirstWithValue(b, x, FindDash(a, x).value);
    } else {
      assert !HasValue(b, x);
    }
  }

  /** JavaScript `index % step !== 0` for a non-negative index: a zero step gives NaN,
      which is not 0, so every dash is hidden. */
  predicate OffStep(index: nat, step: int) {
    step == 0 || index % step != 0
  }

  /** The dashes that `init` creates: one per value, in list order, at the value's
      offset, hidden off the step grid, with the normal label colour and dash background. */
  function BuildDashes(values: seq<SliderValue>, width: nat, step: int, markColor: string, dashColor: string): (ds: seq<Dash>)
    requires Spread(values)
  {
    var min, max := MinOf(values), MaxOf(values);
    seq(|values|, i requires 0 <= i < |values| =>
      Dash(values[i], Offset(width, values[i].value, min, max), OffStep(i, step), false, markColor, dashColor, None))
  }

  /** Every value gets a dash (hidden ones too, for hit-testing), and every offset lies on the track. */
  lemma DashesCoverValues(values: seq<SliderValue>, width: nat, step: int, markColor: string, dashColor: string)
    requires Spread(values)
    ensures var ds := BuildDashes(values, width, step, markColor, dashColor);
      |ds| == |values| &&
      forall i :: 0 <= i < |ds| ==> ds[i].v == values[i] && 0 <= ds[i].left <= width
  {
    var ds := BuildDashes(values, width, step, markColor, dashColor);
    forall i | 0 <= i < |ds| ensures 0 <= ds[i].left <= width {
      assert Nums(values)[i] == values[i].value;
      OffsetInTrack(width, values[i].value, MinOf(values), MaxOf(values));
    }
  }

  /** The dashes of the smallest and the largest value sit at 0 and at `width`. */
  lemma DashesSpanTrack(values: seq<SliderValue>, width: nat, step: int, markColor: string, dashColor: string, i: nat)
    requires Spread(values) && i < |values|
    ensures var ds := BuildDashes(values, width, step, markColor, dashColor);
      (values[i].value == MinOf(values) ==> ds[i].left == 0) &&
      (values[i].value == MaxOf(values) ==> ds[i].left == width)
  {
    OffsetOfMin(width, MinOf(values), MaxOf(values));
    OffsetOfMax(width, MinOf(values), MaxOf(values));
  }

  /** Offsets follow the values' order, not the list's. */
  lemma DashesMonotone(values: seq<SliderValue>, width: nat, step: int, markColor: string, dashColor: string, i: nat, j: nat)
    requires Spread(values) && i < |values| && j < |values| && values[i].value <= values[j].value
    ensures var ds := BuildDashes(values, width, step, markColor, dashColor);
      ds[i].left <= ds[j].left
  {
    OffsetMonotone(width, values[i].value, values[j].value, MinOf(values), MaxOf(values));
  }

  /** The layout does not depend on insertion order or on the labels: two lists with the
      same numbers place equal values at equal offsets. */
  lemma DashesOrderIndependent(a: seq<SliderValue>, b: seq<SliderValue>, width: nat, step: int, markColor: string, dashColor: string, i: nat, j: nat)
    requires Spread(a) && Spread(b) && i < |a| && j < |b|
    requires forall x :: x in Nums(a) <==> x in Nums(b)
    requires a[i].value == b[j].value
    ensures BuildDashes(a, width, step, markColor, dashColor)[i].left == BuildDashes(b, width, step, markColor, dashColor)[j].left
  {
    var na, nb := Nums(a), Nums(b);
    assert MinOf(a) == MinOf(b) by {
      assert SeqMin(na) in nb && SeqMin(nb) in na;
      var p :| 0 <= p < |nb| && nb[p] == SeqMin(na);
      var q :| 0 <= q < |na| && na[q] == SeqMin(nb);
    }
    assert MaxOf(a) == MaxOf(b) by {
      assert SeqMax(na) in nb && SeqMax(nb) in na;
      var p :| 0 <= p < |nb| && nb[p] == SeqMax(na);
      var q :| 0 <= q < |na| && na[q] == SeqMax(nb);
    }
  }

  /** A dash is hidden exactly off the step grid: the first dash and every `step`-th one
      after it stay visible, and hidden dashes are still laid out like the others. */
  lemma DashHiddenOffStep(values: seq<SliderValue>, width: nat, step: int, markColor: string, dashColor: string)
    requires Spread(values) && step > 0
    ensures var ds := BuildDashes(values, width, step, markColor, dashColor);
      !ds[0].hidden && forall i :: 0 <= i < |ds| ==> (ds[i].hidden <==> i % step != 0)
  {
  }

  // ---------------------------------------------------------------------------------
  // findClosest

  /** Distance of a dash from a pixel offset. */
  function Dist(d: Dash, x: real): real { Abs(d.left as real - x) }

  /** Among the first n dashes, dash k is nearest to x and no earlier dash is as near. */
  predicate FirstNearest(ds: seq<Dash>, x: real, k: nat, n: nat) {
    k < n <= |ds| &&
    (forall j :: 0 <= j < n ==> Dist(ds[k], x) <= Dist(ds[j], x)) &&
    (forall j :: 0 <= j < k ==> Dist(ds[k], x) < Dist(ds[j], x))
  }

  /** The reduction step by step: `prev` is the winner among the first i dashes; a later
      dash replaces it only when strictly nearer. */
  function ReduceClosest(ds: seq<Dash>, x: real, prev: nat, i: nat): (k: nat)
    requires i <= |ds| && FirstNearest(ds, x, prev, i)
    ensures FirstNearest(ds, x, k, |ds|)
    decreases |ds| - i
  {
    if i == |ds| then prev
    else ReduceClosest(ds, x, if Dist(ds[i], x) < Dist(ds[prev], x) then i else prev, i + 1)
  }

  /** `findClosest(x)`: `dashes.reduce((prev, curr) => |curr.left - x| < |prev.left - x| ? curr : prev)`
      without a seed, so the list must not be empty. The result is a dash nearest to x;
      on a tie the earliest such dash wins. */
  function FindClosest(ds: seq<Dash>, x: real): (k: nat)
    requires |ds| > 0
    ensures k < |ds|
    ensures forall j :: 0 <= j < |ds| ==> Dist(ds[k], x) <= Dist(ds[j], x)
    ensures forall j :: 0 <= j < k ==> Dist(ds[k], x) < Dist(ds[j], x)
  {
    ReduceClosest(ds, x, 0, 1)
  }

  /** Hitting a tick exactly selects a dash at that very offset, the first one there. */
  lemma ClosestAtTick(ds: seq<Dash>, i: nat)
    requires i < |ds|
    ensures var k := FindClosest(ds, ds[i].left as real);
      ds[k].left == ds[i].left && k <= i && forall j :: 0 <= j < k ==> ds[j].left != ds[i].left
  {
  }

  /** With distinct offsets, hitting the tick of dash i selects dash i. */
  lemma ClosestAtTickRoundTrip(ds: seq<Dash>, i: nat)
    requires i < |ds|
    requires forall a, b :: 0 <= a < b < |ds| ==> ds[a].left != ds[b].left
    ensures FindClosest(ds, ds[i].left as real) == i
  {
    ClosestAtTick(ds, i);
  }

  /** `Math.min`/`Math.max` over the dashes' `style.left`. */
  function Lefts(ds: seq<Dash>): seq<real> {
    seq(|ds|, i requires 0 <= i < |ds| => ds[i].left as real)
  }

  /** A drag candidate lies between the leftmost and the rightmost dash. */
  predicate InReach(ds: seq<Dash>, candidate: real)
    requires |ds| > 0
  {
    SeqMin(Lefts(ds)) <= candidate <= SeqMax(Lefts(ds))
  }

  /** A candidate is within reach exactly when some dash lies at or left of it and some dash
      lies at or right of it; in particular every dash's own offset is within reach. */
  lemma InReachIff(ds: seq<Dash>, candidate: real)
    requires |ds| > 0
    ensures InReach(ds, candidate) <==>
      (exists i :: 0 <= i < |ds| && ds[i].left as real <= candidate) &&
      (exists j :: 0 <= j < |ds| && candidate <= ds[j].left as real)
    ensures forall k :: 0 <= k < |ds| ==> InReach(ds, ds[k].left as real)
  {
    var ls := Lefts(ds);
    var lo :| 0 <= lo < |ls| && ls[lo] == SeqMin(ls);
    var hi :| 0 <= hi < |ls| && ls[hi] == SeqMax(ls);
    if InReach(ds, candidate) {
      assert ds[lo].left as real <= candidate;
      assert candidate <= ds[hi].left as real;
    }
    forall k | 0 <= k < |ds| ensures InReach(ds, ds[k].left as real) {
      assert ls[k] == ds[k].left as real;
    }
  }

  // ---------------------------------------------------------------------------------
  // The step window and the indicator colour

  /** `gab`, the distance between neighbouring values when n values are spread evenly
      from min to max. */
  function Gap(min: real, max: real, n: nat): (g: real)
    requires n >= 2 && min <= max
    ensures g >= 0.0 && (n - 1) as real * g == max - min
  {
    (max - min) / (n - 1) as real
  }

  /** `lowerLimit`/`upperLimit` with `gab = (max - min) / (n - 1)`:
      the window starts `index % step` gaps below the value and spans `step` gaps,
      capped at max. A zero step makes both NaN in the source, which no dash matches;
      the model returns None. */
  function StepWindow(v: real, index: nat, step: int, min: real, max: real, n: nat): (w: Option<(real, real)>)
    requires n >= 2 && min <= max
    ensures w.None? <==> step == 0
    ensures w.Some? ==> w.value.0 <= v && w.value.1 <= max
    ensures w.Some? && index % step == 0 ==> w.value.0 == v
    ensures w.Some? && step > 0 && v <= max ==> w.value.0 <= w.value.1
  {
    if step == 0 then None
    else
      var gap := Gap(min, max, n);
      var lower := v - (index % step) as real * gap;
      var upper := lower + step as real * gap;
      Some((lower, if upper > max then max else upper))
  }

  lemma ModBelow(index: nat, step: int)
    requires step > 0
    ensures index % step <= index
  {
    var q := index / step;
    assert index == step * q + index % step;
    assert step * q >= 0;
  }

  /** The index of the dash that opens the group of `step` dashes holding `index`. */
  function GroupStart(index: nat, step: int): (s: nat)
    requires step > 0
    ensures s <= index
  {
    ModBelow(index, step);
    index - index % step
  }

  /** The window of a value that sits on an evenly spaced grid, in grid coordinates. */
  lemma WindowOnGrid(v: real, index: nat, step: int, min: real, max: real, n: nat)
    requires step > 0 && n >= 2 && min <= max && index < n
    requires v == min + index as real * Gap(min, max, n)
    ensures var gap := Gap(min, max, n);
      var start := GroupStart(index, step);
      var w := StepWindow(v, index, step, min, max, n);
      w.Some? && w.value.0 == min + start as real * gap &&
      (start + step < n ==> w.value.1 == min + (start + step) as real * gap) &&
      (start + step >= n ==> w.value.1 == max)
  {
    var gap := Gap(min, max, n);
    var start := GroupStart(index, step);
    var r := index % step;
    GridArithmetic(min, max, gap, index, r, step, n);
    var lower := v - r as real * gap;
    var upper := lower + step as real * gap;
    var w := StepWindow(v, index, step, min, max, n);
    assert w.value.0 == lower;
    assert w.value.1 == if upper > max then max else upper;
  }

  /** The arithmetic of `WindowOnGrid`, with the gap held abstract. */
  lemma GridArithmetic(min: real, max: real, gap: real, index: nat, r: nat, step: nat, n: nat)
    requires gap >= 0.0 && n >= 1 && r <= index
    requires (n - 1) as real * gap == max - min
    ensures var lower := min + index as real * gap - r as real * gap;
      var upper := lower + step as real * gap;
      lower == min + (index - r) as real * gap &&
      upper == min + (index - r + step) as real * gap &&
      (index - r + step < n ==> upper <= max) &&
      (index - r + step >= n ==> upper >= max)
  {
    var start := index - r;
    assert index as real * gap - r as real * gap == start as real * gap by {
      assert index as real * gap - r as real * gap == (index as real - r as real) * gap;
    }
    assert start as real * gap + step as real * gap == (start + step) as real * gap;
    if start + step < n {
      ScaleMonotone((start + step) as real, (n - 1) as real, gap);
    } else {
      ScaleMonotone((n - 1) as real, (start + step) as real, gap);
    }
  }

  /** Values spaced evenly, in list order, starting at min with `gap` between neighbours. */
  predicate EvenlySpaced(values: seq<SliderValue>, min: real, gap: real) {
    forall i :: 0 <= i < |values| ==> values[i].value == min + i as real * gap
  }

  lemma EvenlySpacedAt(values: seq<SliderValue>, min: real, gap: real, i: nat)
    requires EvenlySpaced(values, min, gap) && i < |values|
    ensures values[i].value == min + i as real * gap
  {
  }

  /** The window of an evenly spaced list, for any bounds. */
  lemma GridWindow(values: seq<SliderValue>, index: nat, step: int, min: real, max: real)
    requires |values| >= 2 && min <= max && index < |values| && step > 0
    requires EvenlySpaced(values, min, Gap(min, max, |values|))
    ensures var w := StepWindow(values[index].value, index, step, min, max, |values|);
      var start := GroupStart(index, step);
      w.Some? && w.value.0 == values[start].value &&
      (start + step < |values| ==> w.value.1 == values[start + step].value) &&
      (start + step >= |values| ==> w.value.1 == max)
  {
    var gap := Gap(min, max, |values|);
    var start := GroupStart(index, step);
    EvenlySpacedAt(values, min, gap, index);
    WindowOnGrid(values[index].value, index, step, min, max, |values|);
    EvenlySpacedAt(values, min, gap, start);
    if start + step < |values| {
      EvenlySpacedAt(values, min, gap, start + step);
    }
  }

  /** On evenly spaced values the window snaps to the step grid: it starts at the value
      of the dash that opens the current group of `step` dashes and ends at the value
      of the dash that opens the next group, or at max when there is none. */
  lemma WindowAlignsToGrid(values: seq<SliderValue>, index: nat, step: int)
    requires Spread(values) && index < |values| && step > 0
    requires EvenlySpaced(values, MinOf(values), Gap(MinOf(values), MaxOf(values), |values|))
    ensures var w := StepWindow(values[index].value, index, step, MinOf(values), MaxOf(values), |values|);
      var start := GroupStart(index, step);
      w.Some? && w.value.0 == values[start].value &&
      (start + step < |values| ==> w.value.1 == values[start + step].value) &&
      (start + step >= |values| ==> w.value.1 == MaxOf(values))
  {
    GridWindow(values, index, step, MinOf(values), MaxOf(values));
  }

  /** `indicatorColor.find(c => value <= c.limit)`, as an index. */
  function FindBand(bands: seq<IndicatorBand>, v: real): (r: Option<nat>)
    ensures r.Some? ==> r.value < |bands| && v <= bands[r.value].limit
    ensures r.Some? ==> forall j :: 0 <= j < r.value ==> v > bands[j].limit
    ensures r.None? <==> forall j :: 0 <= j < |bands| ==> v > bands[j].limit
  {
    if |bands| == 0 then None
    else if v <= bands[0].limit then Some(0)
    else
      var rest := FindBand(bands[1..], v);
      assert forall j :: 1 <= j < |bands| ==> bands[j] == bands[1..][j - 1];
      if rest.Some? then Some(rest.value + 1) else None
  }

  /** `opts?.indicatorColor?.find(c => value <= c.limit)?.color`. */
  function IndicatorColorOf(bands: Option<seq<IndicatorBand>>, v: real): Option<string> {
    if bands.None? then None
    else
      var k := FindBand(bands.value, v);
      if k.Some? then Some(bands.value[k.value].color) else None
  }

  /** With bands in ascending order, the first band whose limit reaches v is the one
      right after the last band below v: v lies between its limit and the previous one. */
  lemma AscendingBandBrackets(bands: seq<IndicatorBand>, v: real)
    requires BandsAscending(bands)
    ensures var k := FindBand(bands, v);
      k.Some? ==> (k.value > 0 ==> bands[k.value - 1].limit < v) && forall j :: k.value <= j < |bands| ==> v <= bands[j].limit
  {
  }

  // ---------------------------------------------------------------------------------
  // Per-dash render state

  /** `dashes.forEach(d => setStyle(d.placeholder, 'color', c))`. */
  function WithMarkColor(ds: seq<Dash>, c: string): seq<Dash> {
    seq(|ds|, i requires 0 <= i < |ds| => ds[i].(markColor := c))
  }

  /** `dashes.forEach(d => removeClass(d.placeholder, 'active'))`. */
  function Deactivated(ds: seq<Dash>): seq<Dash> {
    seq(|ds|, i requires 0 <= i < |ds| => ds[i].(active := false))
  }

  /** The reset loop before the window is drawn: every tick gets the dash background and
      the configured dash shape back. */
  function WithDashShape(ds: seq<Dash>, dashColor: string): seq<Dash> {
    seq(|ds|, i requires 0 <= i < |ds| => ds[i].(background := dashColor, band := None))
  }

  /** All labels painted `normal`, then the label of the dash `find` returns for v
      painted `selected`. */
  function Recolored(ds: seq<Dash>, v: real, normal: string, selected: string): seq<Dash> {
    var k := FindDash(ds, v);
    seq(|ds|, i requires 0 <= i < |ds| => ds[i].(markColor := if k == Some(i) then selected else normal))
  }

  /** The `active` class taken off every label and put on the dash `find` returns for v. */
  function Activated(ds: seq<Dash>, v: real): seq<Dash> {
    var k := FindDash(ds, v);
    seq(|ds|, i requires 0 <= i < |ds| => ds[i].(active := k == Some(i)))
  }

  /** Exactly the first dash with value v gets the `selected` colour; every other label
      the `normal` one; nothing else changes. */
  lemma RecoloredMarksFirst(ds: seq<Dash>, v: real, normal: string, selected: string)
    ensures var r := Recolored(ds, v, normal, selected);
      |r| == |ds| &&
      forall i :: 0 <= i < |r| ==> r[i] == ds[i].(markColor := if FirstWithValue(ds, v, i) then selected else normal)
  {
    FindDashIsFirst(ds, v);
  }

  /** Exactly the first dash with value v is active; nothing else changes. */
  lemma ActivatedMarksFirst(ds: seq<Dash>, v: real)
    ensures var r := Activated(ds, v);
      |r| == |ds| && forall i :: 0 <= i < |r| ==> r[i] == ds[i].(active := FirstWithValue(ds, v, i))
  {
    FindDashIsFirst(ds, v);
  }

  /** The ticks at the window's limits, looked up in page order: the first dash at the
      lower limit and the first at the upper limit. A limit without a dash makes the page
      lookup throw, which the handler swallows: no window is drawn. */
  function WindowTicks(ds: seq<Dash>, w: Option<(real, real)>): (t: Option<(nat, nat)>)
    ensures t.Some? ==> t.value.0 < |ds| && t.value.1 < |ds|
  {
    if w.None? then None
    else
      var lower, upper := FindDash(ds, w.value.0), FindDash(ds, w.value.1);
      if lower.Some? && upper.Some? then Some((lower.value, upper.value)) else None
  }

  /** Dash i is the tick that the window `w` widens: the first dash at the lower limit,
      when a dash also stands at the upper limit. */
  predicate EmphasisAt(ds: seq<Dash>, w: Option<(real, real)>, i: int) {
    w.Some? && FirstWithValue(ds, w.value.0, i) && HasValue(ds, w.value.1)
  }

  /** A colour that `if (color)` accepts. */
  predicate Truthy(colour: Option<string>) { colour.Some? && colour.value != "" }

  /** The window drawn: every tick reset to the dash shape and background, then the tick at
      the lower limit widened to reach the tick at the upper limit (plus half a dash) and,
      when a band colour is set, painted with it. */
  function Emphasised(ds: seq<Dash>, w: Option<(real, real)>, colour: Option<string>, dashColor: string): seq<Dash> {
    var t := WindowTicks(ds, w);
    seq(|ds|, i requires 0 <= i < |ds| =>
      if t.Some? && t.value.0 == i then
        ds[i].(background := if Truthy(colour) then colour.value else dashColor,
               band := Some(ds[t.value.1].left - ds[i].left))
      else ds[i].(background := dashColor, band := None))
  }

  /** The window's ticks are the first dashes at its limits, when both exist. */
  lemma WindowTicksAreFirst(ds: seq<Dash>, w: Option<(real, real)>, i: int)
    ensures (WindowTicks(ds, w).Some? && WindowTicks(ds, w).value.0 == i) <==> EmphasisAt(ds, w, i)
    ensures EmphasisAt(ds, w, i) ==> WindowTicks(ds, w).value.1 == FindDash(ds, w.value.1).value
  {
    if w.Some? {
      FindDashIsFirst(ds, w.value.0);
      FindDashIsFirst(ds, w.value.1);
    }
  }

  /** What the window drawing does to each tick: every tick but the widened one gets the
      dash background and shape back; the widened one spans to the first tick at the upper
      limit plus half a dash and takes the band colour when there is one. Values,
      offsets, visibility and labels are untouched. */
  lemma EmphasisedDraws(ds: seq<Dash>, w: Option<(real, real)>, colour: Option<string>, dashColor: string)
    ensures var r := Emphasised(ds, w, colour, dashColor);
      |r| == |ds| &&
      (forall i :: 0 <= i < |r| && !EmphasisAt(ds, w, i) ==>
         r[i] == ds[i].(background := dashColor, band := None)) &&
      (forall i :: 0 <= i < |r| && EmphasisAt(ds, w, i) ==>
         var upper := FindDash(ds, w.value.1).value;
         upper < |ds| &&
         r[i] == ds[i].(background := if Truthy(colour) then colour.value else dashColor,
                        band := Some(ds[upper].left - ds[i].left)))
  {
    var r := Emphasised(ds, w, colour, dashColor);
    forall i | 0 <= i < |r| && !EmphasisAt(ds, w, i)
      ensures r[i] == ds[i].(background := dashColor, band := None)
    {
      EmphasisedTick(ds, w, colour, dashColor, i);
    }
    forall i | 0 <= i < |r| && EmphasisAt(ds, w, i)
      ensures var upper := FindDash(ds, w.value.1).value;
        upper < |ds| &&
        r[i] == ds[i].(background := if Truthy(colour) then colour.value else dashColor,
                       band := Some(ds[upper].left - ds[i].left))
    {
      EmphasisedTick(ds, w, colour, dashColor, i);
    }
  }

  /** `EmphasisedDraws` at one tick. */
  lemma EmphasisedTick(ds: seq<Dash>, w: Option<(real, real)>, colour: Option<string>, dashColor: string, i: nat)
    requires i < |ds|
    ensures var r := Emphasised(ds, w, colour, dashColor);
      |r| == |ds| &&
      (!EmphasisAt(ds, w, i) ==> r[i] == ds[i].(background := dashColor, band := None)) &&
      (EmphasisAt(ds, w, i) ==>
         var upper := FindDash(ds, w.value.1).value;
         upper < |ds| &&
         r[i] == ds[i].(background := if Truthy(colour) then colour.value else dashColor,
                        band := Some(ds[upper].left - ds[i].left)))
  {
    WindowTicksAreFirst(ds, w, i);
  }

  /** Two dash lists with the same geometry have the same window ticks. */
  lemma WindowTicksOnGeometry(a: seq<Dash>, b: seq<Dash>, w: Option<(real, real)>)
    requires SameGeometry(a, b)
    ensures WindowTicks(a, w) == WindowTicks(b, w)
  {
    if w.Some? {
      FindDashSameGeometry(a, b, w.value.0);
      FindDashSameGeometry(a, b, w.value.1);
    }
  }

  /** The label marking and the window drawing of `setBarPosition` overwrite every field
      but the geometry, so what they leave depends on the dashes only through it. */
  lemma RedrawOnGeometry(a: seq<Dash>, b: seq<Dash>, v: real, normal: string, selected: string,
                         w: Option<(real, real)>, colour: Option<string>, dashColor: string)
    requires SameGeometry(a, b)
    ensures Emphasised(Activated(Recolored(a, v, normal, selected), v), w, colour, dashColor) ==
            Emphasised(Activated(Recolored(b, v, normal, selected), v), w, colour, dashColor)
  {
    var ea := Emphasised(Activated(Recolored(a, v, normal, selected), v), w, colour, dashColor);
    var eb := Emphasised(Activated(Recolored(b, v, normal, selected), v), w, colour, dashColor);
    forall i: nat | i < |a| ensures ea[i] == eb[i] {
      RedrawOnGeometryAt(a, b, v, normal, selected, w, colour, dashColor, i);
    }
  }

  lemma RedrawOnGeometryAt(a: seq<Dash>, b: seq<Dash>, v: real, normal: string, selected: string,
                           w: Option<(real, real)>, colour: Option<string>, dashColor: string, i: nat)
    requires SameGeometry(a, b) && i < |a|
    ensures var ea := Emphasised(Activated(Recolored(a, v, normal, selected), v), w, colour, dashColor);
      var eb := Emphasised(Activated(Recolored(b, v, normal, selected), v), w, colour, dashColor);
      |ea| == |eb| == |a| && ea[i] == eb[i]
  {
    RedrawnAt(a, v, normal, selected, w, colour, dashColor, i);
    RedrawnAt(b, v, normal, selected, w, colour, dashColor, i);
    assert FirstWithValue(a, v, i) <==> FirstWithValue(b, v, i);
    if w.Some? {
      FindDashSameGeometry(a, b, w.value.1);
      assert EmphasisAt(a, w, i) <==> EmphasisAt(b, w, i) by {
        FindDashSameGeometry(a, b, w.value.0);
        FindDashIsFirst(a, w.value.0);
        FindDashIsFirst(b, w.value.0);
        FindDashIsFirst(a, w.value.1);
        FindDashIsFirst(b, w.value.1);
      }
    }
    var ea := Emphasised(Activated(Recolored(a, v, normal, selected), v), w, colour, dashColor);
    var eb := Emphasised(Activated(Recolored(b, v, normal, selected), v), w, colour, dashColor);
    assert ea[i].band == eb[i].band;
    assert ea[i].background == eb[i].background;
  }

  /** Marking the labels leaves the geometry alone. */
  lemma MarkedGeometry(ds: seq<Dash>, v: real, normal: string, selected: string)
    ensures SameGeometry(Activated(Recolored(ds, v, normal, selected), v), ds)
  {
  }

  /** Marking the labels twice marks them as marking them once does. */
  lemma MarkingIdempotent(ds: seq<Dash>, v: real, normal: string, selected: string)
    ensures var m := Activated(Recolored(ds, v, normal, selected), v);
      Activated(Recolored(m, v, normal, selected), v) == m
  {
    var r := Recolored(ds, v, normal, selected);
    var m := Activated(r, v);
    FindDashSameGeometry(r, ds, v);
    FindDashSameGeometry(m, ds, v);
    var r2 := Recolored(m, v, normal, selected);
    FindDashSameGeometry(r2, ds, v);
    var m2 := Activated(r2, v);
    forall i | 0 <= i < |m| ensures m2[i] == m[i] {
    }
  }

  /** The full redraw of `setBarPosition` at tick i. */
  lemma RedrawnAt(ds: seq<Dash>, v: real, normal: string, selected: string,
                  w: Option<(real, real)>, colour: Option<string>, dashColor: string, i: nat)
    requires i < |ds|
    ensures var r := Emphasised(Activated(Recolored(ds, v, normal, selected), v), w, colour, dashColor);
      |r| == |ds| &&
      r[i].v == ds[i].v && r[i].left == ds[i].left && r[i].hidden == ds[i].hidden &&
      r[i].active == FirstWithValue(ds, v, i) &&
      r[i].markColor == (if FirstWithValue(ds, v, i) then selected else normal) &&
      (r[i].band.Some? <==> EmphasisAt(ds, w, i)) &&
      r[i].background == (if EmphasisAt(ds, w, i) && Truthy(colour) then colour.value else dashColor) &&
      (EmphasisAt(ds, w, i) ==> r[i].band.value == ds[FindDash(ds, w.value.1).value].left - ds[i].left)
  {
    var recoloured := Recolored(ds, v, normal, selected);
    var marked := Activated(recoloured, v);
    FindDashIsFirst(ds, v);
    FindDashSameGeometry(recoloured, ds, v);
    assert SameGeometry(marked, ds);
    WindowTicksOnGeometry(marked, ds, w);
    WindowTicksAreFirst(ds, w, i);
  }

  /** The full redraw of `setBarPosition`, tick by tick, in terms of the dashes it started
      from: geometry kept, exactly the first dash with value v selected and active, and the
      window drawn as `EmphasisedDraws` says. */
  lemma RedrawnDashes(ds: seq<Dash>, v: real, normal: string, selected: string,
                      w: Option<(real, real)>, colour: Option<string>, dashColor: string)
    ensures var marked := Activated(Recolored(ds, v, normal, selected), v);
      var r := Emphasised(marked, w, colour, dashColor);
      SameGeometry(marked, ds) && SameGeometry(r, ds) &&
      forall i :: 0 <= i < |ds| ==>
        r[i].active == FirstWithValue(ds, v, i) &&
        r[i].markColor == (if FirstWithValue(ds, v, i) then selected else normal) &&
        (r[i].band.Some? <==> EmphasisAt(ds, w, i)) &&
        r[i].background == (if EmphasisAt(ds, w, i) && Truthy(colour) then colour.value else dashColor) &&
        (EmphasisAt(ds, w, i) ==>
          r[i].band.value == ds[FindDash(ds, w.value.1).value].left - ds[i].left)
  {
    var recoloured := Recolored(ds, v, normal, selected);
    var marked := Activated(recoloured, v);
    FindDashSameGeometry(recoloured, ds, v);
    assert SameGeometry(marked, ds);
    forall i: nat | i < |ds| {
      RedrawnAt(ds, v, normal, selected, w, colour, dashColor, i);
    }
  }

  // ---------------------------------------------------------------------------------
  // The handlers' loops, step by step

  /** The marking of `setBarPosition`: repaint, deactivate, then mark the dash `find`
      returns on the repainted dashes. */
  lemma MarkingSteps(ds: seq<Dash>, v: real, normal: string, selected: string)
    ensures var base := Deactivated(WithMarkColor(ds, normal));
      var k := FindDash(base, v);
      Activated(Recolored(ds, v, normal, selected), v) ==
        if k.Some? then base[k.value := base[k.value].(markColor := selected, active := true)] else base
  {
    var base := Deactivated(WithMarkColor(ds, normal));
    var recoloured := Recolored(ds, v, normal, selected);
    FindDashSameGeometry(base, ds, v);
    FindDashSameGeometry(recoloured, ds, v);
    var k := FindDash(base, v);
    var lhs := Activated(recoloured, v);
    var rhs := if k.Some? then base[k.value := base[k.value].(markColor := selected, active := true)] else base;
    forall i | 0 <= i < |lhs| ensures lhs[i] == rhs[i] {
    }
  }

  /** On a fresh layout, whose labels all have the normal colour, repainting is a no-op. */
  lemma LaidOutMarking(ds: seq<Dash>, v: real, normal: string, selected: string)
    requires forall i :: 0 <= i < |ds| ==> ds[i].markColor == normal
    ensures var base := Deactivated(ds);
      var k := FindDash(base, v);
      Activated(Recolored(ds, v, normal, selected), v) ==
        if k.Some? then base[k.value := base[k.value].(markColor := selected, active := true)] else base
  {
    assert WithMarkColor(ds, normal) == ds;
    MarkingSteps(ds, v, normal, selected);
  }

  /** The repaint during a drag: repaint, then mark the dash `find` returns on the
      repainted dashes. */
  lemma RecolorSteps(ds: seq<Dash>, v: real, normal: string, selected: string)
    ensures var base := WithMarkColor(ds, normal);
      var k := FindDash(base, v);
      Recolored(ds, v, normal, selected) ==
        if k.Some? then base[k.value := base[k.value].(markColor := selected)] else base
  {
    var base := WithMarkColor(ds, normal);
    FindDashSameGeometry(base, ds, v);
    var k := FindDash(base, v);
    var lhs := Recolored(ds, v, normal, selected);
    var rhs := if k.Some? then base[k.value := base[k.value].(markColor := selected)] else base;
    forall i | 0 <= i < |lhs| ensures lhs[i] == rhs[i] {
    }
  }

  /** The window drawing: reset every tick, look the limits up on the reset ticks, then
      widen and paint the lower one. */
  lemma DrawSteps(ds: seq<Dash>, w: Option<(real, real)>, colour: Option<string>, dashColor: string)
    ensures var base := WithDashShape(ds, dashColor);
      var t := WindowTicks(base, w);
      Emphasised(ds, w, colour, dashColor) ==
        if t.Some? then
          base[t.value.0 := base[t.value.0].(band := Some(base[t.value.1].left - base[t.value.0].left),
                                             background := if Truthy(colour) then colour.value else dashColor)]
        else base
  {
    var base := WithDashShape(ds, dashColor);
    WindowTicksOnGeometry(base, ds, w);
    var t := WindowTicks(base, w);
    var lhs := Emphasised(ds, w, colour, dashColor);
    var rhs := if t.Some? then
          base[t.value.0 := base[t.value.0].(band := Some(base[t.value.1].left - base[t.value.0].left),
                                             background := if Truthy(colour) then colour.value else dashColor)]
        else base;
    forall i | 0 <= i < |lhs| ensures lhs[i] == rhs[i] {
    }
  }
}

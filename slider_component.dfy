/** NgxSliderComponent (projects/ngx-slider/src/lib/ngx-slider.component.ts): the
    component's state, its lifecycle hooks and its event handlers. The page is reduced to
    what the handlers read back from it: the dashes' render state, the bar's CSS `left`
    and whether the bar element is attached. */
module SliderComponent {
  import opened SliderInterface
  import opened SliderGeometry

  /** Why a handler throws. */
  datatype SliderError =
    | NotListed(value: real)   // `value ${value} is not listed in input values`
    | EmptyReduce              // `reduce` of an empty dash list has no initial value
    | NoCurrentDash            // `current.placeholder` on an undefined `current`
    | BarNotAttached           // `removeChild` of a bar that is not a child of the track

  /** A handler either returns normally or throws. */
  datatype Outcome = Pass | Fail(error: SliderError)

  /** What a drag remembers from its `mousedown`/`touchstart`: the pointer's page x and
      `parseFloat(bar.style.left)`, None when the bar has no `left` yet (NaN). */
  datatype DragAnchor = DragAnchor(pageX: real, left: Option<real>)

  /** What a handler leaves behind: how it ended, the dashes and the bar's CSS `left`. */
  datatype Render = Render(outcome: Outcome, dashes: seq<Dash>, barLeft: Option<real>)

  /** `this.value || min`: an unset or zero value falls back to the smallest value. */
  function EffectiveValue(inner: Option<real>, values: seq<SliderValue>): real
    requires |values| > 0
  {
    if inner.None? || inner.value == 0.0 then MinOf(values) else inner.value
  }

  /** `this.values.find(v => v.value === value)` is truthy. */
  predicate Listed(values: seq<SliderValue>, v: real) {
    IndexOfValue(values, v).Some?
  }

  /** The dashes `init` lays out for the resolved options. */
  function Layout(values: seq<SliderValue>, width: nat, o: SliderOptions): seq<Dash>
    requires Spread(values) && Complete(o)
  {
    BuildDashes(values, width, o.step.value, o.dashMarkColor.value, o.dashColor.value)
  }

  /** The bar's CSS `left`: the value's offset minus half the bar, so the bar is centred
      on the value's tick. */
  function BarLeft(width: nat, v: real, min: real, max: real, barWidth: real): real
    requires min < max
  {
    Offset(width, v, min, max) as real - barWidth / 2.0
  }

  /** `init` after the track has been styled: the dashes are laid out; then the value is
      checked (the throw leaves the new bar without a `left` and outside the track);
      then the bar is placed and the current dash marked. */
  function Initialised(values: seq<SliderValue>, inner: Option<real>, width: nat, o: SliderOptions): Render
    requires Spread(values) && Complete(o)
  {
    var ds := Layout(values, width, o);
    var v := EffectiveValue(inner, values);
    if !Listed(values, v) then Render(Fail(NotListed(v)), ds, None)
    else
      Render(Pass, Activated(Recolored(ds, v, o.dashMarkColor.value, o.dashMarkSelectedColor.value), v),
             Some(BarLeft(width, v, MinOf(values), MaxOf(values), o.barWidth.value)))
  }

  /** `setBarPosition` on dashes `ds` and bar `left` `bar`: an unlisted value throws before
      anything is touched; otherwise the bar moves, every label is repainted and
      deactivated, the current dash is looked up (throwing when there is none) and marked,
      and the step window is drawn. */
  function Reposition(values: seq<SliderValue>, inner: Option<real>, width: nat, o: SliderOptions,
                      ds: seq<Dash>, bar: Option<real>): Render
    requires Spread(values) && Complete(o)
  {
    var min, max := MinOf(values), MaxOf(values);
    var v := EffectiveValue(inner, values);
    var index := IndexOfValue(values, v);
    if index.None? then Render(Fail(NotListed(v)), ds, bar)
    else
      var bar' := Some(BarLeft(width, v, min, max, o.barWidth.value));
      var marked := Activated(Recolored(ds, v, o.dashMarkColor.value, o.dashMarkSelectedColor.value), v);
      if FindDash(ds, v).None? then Render(Fail(NoCurrentDash), marked, bar')
      else
        var w := StepWindow(v, index.value, o.step.value, min, max, |values|);
        Render(Pass, Emphasised(marked, w, IndicatorColorOf(o.indicatorColor, v), o.dashColor.value), bar')
  }

  /** The drag handler's range test on `Math.min`/`Math.max` of the dashes' CSS `left`:
      with no dashes the range runs from Infinity down to -Infinity and holds nothing. */
  predicate Reaches(ds: seq<Dash>, candidate: real) {
    |ds| > 0 && InReach(ds, candidate)
  }

  /** The candidate offset of a pointer at page x during the drag from `a`: the remembered
      CSS `left` moved by the pointer's travel. */
  function Candidate(a: DragAnchor, pageX: real): real
    requires a.left.Some?
  {
    a.left.value + pageX - a.pageX
  }

  /** `findClosest(parseFloat(bar.style.left))`: a bar without a `left` gives NaN, every
      comparison with it is false and the reduction keeps the first dash. */
  function ClosestTo(ds: seq<Dash>, x: Option<real>): (k: nat)
    requires |ds| > 0
    ensures k < |ds|
    ensures x.None? ==> k == 0
    ensures x.Some? ==> forall j :: 0 <= j < |ds| ==> Dist(ds[k], x.value) <= Dist(ds[j], x.value)
  {
    if x.None? then 0 else FindClosest(ds, x.value)
  }

  /** The value of the dash `findClosest` picks for x. */
  function NearestValue(ds: seq<Dash>, x: real): real
    requires |ds| > 0
  {
    ds[FindClosest(ds, x)].v.value
  }

  /** The value of the dash nearest to the bar's CSS `left`. */
  function ValueAtBar(ds: seq<Dash>, bar: Option<real>): real
    requires |ds| > 0
  {
    ds[ClosestTo(ds, bar)].v.value
  }

  // ---------------------------------------------------------------------------------
  // Properties of the specification functions

  /** The value falls back to min when it is unset or zero, and min is always listed. */
  lemma UnsetValueIsListed(values: seq<SliderValue>, inner: Option<real>)
    requires |values| > 0
    requires inner.None? || inner.value == 0.0
    ensures EffectiveValue(inner, values) == MinOf(values) && Listed(values, MinOf(values))
  {
    var ns := Nums(values);
    var i :| 0 <= i < |ns| && ns[i] == SeqMin(ns);
    assert values[i].value == MinOf(values);
  }

  /** The dash list `init` builds and the value list agree on where a value first stands. */
  lemma LayoutFindsValue(values: seq<SliderValue>, width: nat, o: SliderOptions, x: real)
    requires Spread(values) && Complete(o)
    ensures FindDash(Layout(values, width, o), x) == IndexOfValue(values, x)
  {
    DashesCoverValues(values, width, o.step.value, o.dashMarkColor.value, o.dashColor.value);
    FindDashOfValues(Layout(values, width, o), values, x);
  }

  /** Dashes that share the layout's geometry find values where the value list has them. */
  lemma ConsistentFindsValue(values: seq<SliderValue>, width: nat, o: SliderOptions, ds: seq<Dash>, x: real)
    requires Spread(values) && Complete(o) && SameGeometry(ds, Layout(values, width, o))
    ensures FindDash(ds, x) == IndexOfValue(values, x)
  {
    FindDashSameGeometry(ds, Layout(values, width, o), x);
    LayoutFindsValue(values, width, o, x);
  }

  /** `init` throws exactly when the value is not listed; otherwise it marks exactly the
      first dash with the value — selected colour and `active` — every other label keeps
      the normal colour, and the bar is centred on that dash's tick. */
  lemma InitialisedMarksCurrent(values: seq<SliderValue>, inner: Option<real>, width: nat, o: SliderOptions)
    requires Spread(values) && Complete(o)
    ensures var r := Initialised(values, inner, width, o);
      var v := EffectiveValue(inner, values);
      (r.outcome.Fail? <==> !Listed(values, v)) &&
      (r.outcome.Fail? ==> r.outcome == Fail(NotListed(v)) && r.barLeft.None?) &&
      SameGeometry(r.dashes, Layout(values, width, o)) &&
      (r.outcome.Pass? ==>
        var k := IndexOfValue(values, v).value;
        k < |r.dashes| && r.barLeft.Some? &&
        r.barLeft.value + o.barWidth.value / 2.0 == r.dashes[k].left as real &&
        forall i :: 0 <= i < |r.dashes| ==>
          (r.dashes[i].active <==> i == k) &&
          r.dashes[i].markColor == (if i == k then o.dashMarkSelectedColor.value else o.dashMarkColor.value))
  {
    var v := EffectiveValue(inner, values);
    var ds := Layout(values, width, o);
    LayoutFindsValue(values, width, o, v);
    FindDashIsFirst(ds, v);
    FindDashSameGeometry(Recolored(ds, v, o.dashMarkColor.value, o.dashMarkSelectedColor.value), ds, v);
  }

  /** The dashes `setBarPosition` leaves on a listed value, tick by tick. */
  lemma RepositionDashes(values: seq<SliderValue>, inner: Option<real>, width: nat, o: SliderOptions,
                         ds: seq<Dash>, bar: Option<real>)
    requires Spread(values) && Complete(o) && Listed(values, EffectiveValue(inner, values))
    ensures var r := Reposition(values, inner, width, o, ds, bar);
      var v := EffectiveValue(inner, values);
      var w := StepWindow(v, IndexOfValue(values, v).value, o.step.value, MinOf(values), MaxOf(values), |values|);
      var colour := IndicatorColorOf(o.indicatorColor, v);
      SameGeometry(r.dashes, ds) &&
      (r.outcome.Pass? <==> HasValue(ds, v)) &&
      forall i :: 0 <= i < |ds| ==>
        r.dashes[i].active == FirstWithValue(ds, v, i) &&
        r.dashes[i].markColor == (if FirstWithValue(ds, v, i) then o.dashMarkSelectedColor.value else o.dashMarkColor.value) &&
        (r.outcome.Pass? ==>
          (r.dashes[i].band.Some? <==> EmphasisAt(ds, w, i)) &&
          r.dashes[i].background == (if EmphasisAt(ds, w, i) && Truthy(colour) then colour.value else o.dashColor.value) &&
          (EmphasisAt(ds, w, i) ==>
            r.dashes[i].band.value == ds[FindDash(ds, w.value.1).value].left - ds[i].left))
  {
    var v := EffectiveValue(inner, values);
    var w := StepWindow(v, IndexOfValue(values, v).value, o.step.value, MinOf(values), MaxOf(values), |values|);
    FindDashIsFirst(ds, v);
    RedrawnDashes(ds, v, o.dashMarkColor.value, o.dashMarkSelectedColor.value,
                  w, IndicatorColorOf(o.indicatorColor, v), o.dashColor.value);
  }

  /** `setBarPosition` throws "not listed" exactly when the effective value is not in
      the value list, and then leaves everything as it was. */
  lemma RepositionFailsIffUnlisted(values: seq<SliderValue>, inner: Option<real>, width: nat, o: SliderOptions,
                                   ds: seq<Dash>, bar: Option<real>)
    requires Spread(values) && Complete(o)
    ensures var r := Reposition(values, inner, width, o, ds, bar);
      var v := EffectiveValue(inner, values);
      (r.outcome == Fail(NotListed(v)) <==> !Listed(values, v)) &&
      (!Listed(values, v) ==> r.dashes == ds && r.barLeft == bar)
  {
  }

  /** `setBarPosition` never moves a dash, changes its value or its visibility. */
  lemma RepositionKeepsGeometry(values: seq<SliderValue>, inner: Option<real>, width: nat, o: SliderOptions,
                                ds: seq<Dash>, bar: Option<real>)
    requires Spread(values) && Complete(o)
    ensures SameGeometry(Reposition(values, inner, width, o, ds, bar).dashes, ds)
  {
    if Listed(values, EffectiveValue(inner, values)) {
      RepositionDashes(values, inner, width, o, ds, bar);
    }
  }

  /** On dashes laid out for the current values, a listed value never makes
      `setBarPosition` throw; the current dash is the value's first position and is its
      only selected and only active label; and the bar is centred on its tick. */
  lemma RepositionMarksCurrent(values: seq<SliderValue>, inner: Option<real>, width: nat, o: SliderOptions,
                               ds: seq<Dash>, bar: Option<real>)
    requires Spread(values) && Complete(o) && SameGeometry(ds, Layout(values, width, o))
    requires Listed(values, EffectiveValue(inner, values))
    ensures var r := Reposition(values, inner, width, o, ds, bar);
      var k := IndexOfValue(values, EffectiveValue(inner, values)).value;
      r.outcome == Pass && k < |r.dashes| && r.barLeft.Some? &&
      r.barLeft.value + o.barWidth.value / 2.0 == r.dashes[k].left as real &&
      forall i :: 0 <= i < |r.dashes| ==>
        (r.dashes[i].active <==> i == k) &&
        r.dashes[i].markColor == (if i == k then o.dashMarkSelectedColor.value else o.dashMarkColor.value)
  {
    var v := EffectiveValue(inner, values);
    ConsistentFindsValue(values, width, o, ds, v);
    FindDashIsFirst(ds, v);
    RepositionDashes(values, inner, width, o, ds, bar);
  }

  /** On a step window, the ticks `setBarPosition` widens: only the first dash at the
      window's lower limit, and only when some dash stands at the upper limit; it then
      spans to that dash plus half a dash and takes the value's band colour if it has one.
      Every other tick gets the plain dash shape and colour back. */
  lemma RepositionDrawsWindow(values: seq<SliderValue>, inner: Option<real>, width: nat, o: SliderOptions,
                              ds: seq<Dash>, bar: Option<real>)
    requires Spread(values) && Complete(o)
    ensures var r := Reposition(values, inner, width, o, ds, bar);
      var v := EffectiveValue(inner, values);
      r.outcome == Pass ==>
        var w := StepWindow(v, IndexOfValue(values, v).value, o.step.value, MinOf(values), MaxOf(values), |values|);
        var colour := IndicatorColorOf(o.indicatorColor, v);
        forall i :: 0 <= i < |r.dashes| ==>
          (r.dashes[i].band.Some? <==> EmphasisAt(ds, w, i)) &&
          r.dashes[i].background == (if EmphasisAt(ds, w, i) && Truthy(colour) then colour.value else o.dashColor.value) &&
          (EmphasisAt(ds, w, i) ==>
            r.dashes[i].band.value == ds[FindDash(ds, w.value.1).value].left - ds[i].left)
  {
    if Listed(values, EffectiveValue(inner, values)) {
      RepositionDashes(values, inner, width, o, ds, bar);
    }
  }

  /** When it finds the current dash, what `setBarPosition` leaves depends on the dashes
      only through their geometry. */
  lemma RepositionOnGeometry(values: seq<SliderValue>, inner: Option<real>, width: nat, o: SliderOptions,
                             a: seq<Dash>, b: seq<Dash>, bar1: Option<real>, bar2: Option<real>)
    requires Spread(values) && Complete(o) && SameGeometry(a, b)
    requires Listed(values, EffectiveValue(inner, values)) && HasValue(a, EffectiveValue(inner, values))
    ensures Reposition(values, inner, width, o, a, bar1) == Reposition(values, inner, width, o, b, bar2)
  {
    var v := EffectiveValue(inner, values);
    var w := StepWindow(v, IndexOfValue(values, v).value, o.step.value, MinOf(values), MaxOf(values), |values|);
    FindDashSameGeometry(a, b, v);
    FindDashIsFirst(a, v);
    RedrawOnGeometry(a, b, v, o.dashMarkColor.value, o.dashMarkSelectedColor.value,
                     w, IndicatorColorOf(o.indicatorColor, v), o.dashColor.value);
  }

  /** Running `setBarPosition` twice leaves what running it once leaves. */
  lemma RepositionIdempotent(values: seq<SliderValue>, inner: Option<real>, width: nat, o: SliderOptions,
                             ds: seq<Dash>, bar: Option<real>)
    requires Spread(values) && Complete(o)
    ensures var r := Reposition(values, inner, width, o, ds, bar);
      Reposition(values, inner, width, o, r.dashes, r.barLeft) == r
  {
    var r := Reposition(values, inner, width, o, ds, bar);
    var v := EffectiveValue(inner, values);
    if Listed(values, v) {
      RepositionKeepsGeometry(values, inner, width, o, ds, bar);
      FindDashIsFirst(ds, v);
      if HasValue(ds, v) {
        assert HasValue(r.dashes, v) by {
          FindDashSameGeometry(r.dashes, ds, v);
          FindDashIsFirst(r.dashes, v);
        }
        RepositionOnGeometry(values, inner, width, o, r.dashes, ds, r.barLeft, bar);
      } else {
        MarkingIdempotent(ds, v, o.dashMarkColor.value, o.dashMarkSelectedColor.value);
        FindDashSameGeometry(r.dashes, ds, v);
      }
    }
  }

  /** A value taken from a laid-out dash is listed, so committing it and repositioning
      never throws; this covers a click, a drag step and a drag end. */
  /** The value of a laid-out dash is listed. */
  lemma DashValueListed(values: seq<SliderValue>, width: nat, o: SliderOptions, ds: seq<Dash>, k: nat)
    requires Spread(values) && Complete(o) && LaidOut(values, width, o, ds) && k < |ds|
    ensures Listed(values, ds[k].v.value)
  {
    ConsistentFindsValue(values, width, o, ds, ds[k].v.value);
    FindDashIsFirst(ds, ds[k].v.value);
  }

  lemma CommittedDashIsListed(values: seq<SliderValue>, width: nat, o: SliderOptions, ds: seq<Dash>, k: nat, bar: Option<real>)
    requires Spread(values) && Complete(o) && SameGeometry(ds, Layout(values, width, o)) && k < |ds|
    ensures Listed(values, ds[k].v.value)
    ensures Reposition(values, Some(ds[k].v.value), width, o, ds, bar).outcome == Pass
  {
    var x := ds[k].v.value;
    ConsistentFindsValue(values, width, o, ds, x);
    FindDashIsFirst(ds, x);
    if x == 0.0 {
      UnsetValueIsListed(values, Some(x));
      ConsistentFindsValue(values, width, o, ds, MinOf(values));
    }
    RepositionMarksCurrent(values, Some(x), width, o, ds, bar);
  }

  /** After `destroy` has emptied the dash list, a listed value moves the bar and then
      throws on the missing current dash. */
  lemma RepositionWithoutDashes(values: seq<SliderValue>, inner: Option<real>, width: nat, o: SliderOptions, bar: Option<real>)
    requires Spread(values) && Complete(o) && Listed(values, EffectiveValue(inner, values))
    ensures var r := Reposition(values, inner, width, o, [], bar);
      r.outcome == Fail(NoCurrentDash) && r.dashes == [] && r.barLeft.Some?
  {
  }

  /** The component's invariant on its dashes: none (after `destroy`), or dashes that stand
      where `init` laid them out, with the same values and visibility. */
  predicate LaidOut(values: seq<SliderValue>, width: nat, o: SliderOptions, ds: seq<Dash>)
    requires Spread(values) && Complete(o)
  {
    ds == [] || SameGeometry(ds, Layout(values, width, o))
  }

  /** Dashes that `init` has just laid out, and those it has marked, are laid out. */
  lemma MarkedLayoutLaidOut(values: seq<SliderValue>, width: nat, o: SliderOptions, v: real)
    requires Spread(values) && Complete(o)
    ensures LaidOut(values, width, o, Layout(values, width, o))
    ensures LaidOut(values, width, o, Activated(Recolored(Layout(values, width, o), v, o.dashMarkColor.value, o.dashMarkSelectedColor.value), v))
  {
    MarkedGeometry(Layout(values, width, o), v, o.dashMarkColor.value, o.dashMarkSelectedColor.value);
  }

  /** `setBarPosition` keeps the dashes laid out, whether it succeeds or throws. */
  lemma RepositionKeepsLaidOut(values: seq<SliderValue>, inner: Option<real>, width: nat, o: SliderOptions,
                               ds: seq<Dash>, bar: Option<real>)
    requires Spread(values) && Complete(o) && LaidOut(values, width, o, ds)
    ensures LaidOut(values, width, o, Reposition(values, inner, width, o, ds, bar).dashes)
  {
    RepositionKeepsGeometry(values, inner, width, o, ds, bar);
  }

  /** The label repaint of a drag step keeps the dashes laid out. */
  lemma RecoloredKeepsLaidOut(values: seq<SliderValue>, width: nat, o: SliderOptions, ds: seq<Dash>,
                              v: real, normal: string, selected: string)
    requires Spread(values) && Complete(o) && LaidOut(values, width, o, ds)
    ensures LaidOut(values, width, o, Recolored(ds, v, normal, selected))
  {
    RecoloredMarksFirst(ds, v, normal, selected);
  }

  // ---------------------------------------------------------------------------------
  // The component

  class NgxSlider {
    /** The `options` and `values` inputs. */
    var options: Option<SliderOptions>
    var values: seq<SliderValue>
    /** The resolved options. */
    var opts: SliderOptions
    /** `innerValue`; None while undefined. */
    var innerValue: Option<real>
    /** `gridValues.clientWidth`, measured when the dashes were laid out. */
    var trackWidth: nat
    /** The dashes and their render state. */
    var dashes: seq<Dash>
    /** `parseFloat(bar.style.left)`; None (NaN) while the bar has no `left`. */
    var barLeft: Option<real>
    /** The bar element is a child of the track. */
    var barAttached: bool
    /** The drag in progress, between a press and the next release. */
    var drag: Option<DragAnchor>
    /** Every value handed to the registered `onChange` callback, oldest first. */
    var changes: seq<real>

    /** Inputs resolved and the dashes, when there are any, laid out for them. */
    predicate Consistent()
      reads this`values, this`opts, this`trackWidth, this`dashes
    {
      Spread(values) && Complete(opts) && LaidOut(values, trackWidth, opts, dashes)
    }

    /** A fresh component: no options, no values, nothing rendered. */
    constructor()
      ensures options.None? && values == [] && innerValue.None? && opts == NoOptions()
      ensures dashes == [] && barLeft.None? && !barAttached && drag.None? && changes == []
    {
      options := None;
      values := [];
      opts := NoOptions();
      innerValue := None;
      trackWidth := 0;
      dashes := [];
      barLeft := None;
      barAttached := false;
      drag := None;
      changes := [];
    }

    /** The `value` setter: stores the value and reports it to `onChange`. */
    method SetValue(v: real)
      modifies this`innerValue, this`changes
      ensures innerValue == Some(v) && changes == old(changes) + [v]
    {
      innerValue := Some(v);
      changes := changes + [v];
    }

    /** `ngOnInit`: resolve the options. */
    method OnInit()
      modifies this`opts
      ensures opts == Merge(options)
    {
      opts := Merge(options);
    }

    /** Paint every label with colour c. */
    method PaintMarks(c: string)
      modifies this`dashes
      ensures dashes == WithMarkColor(old(dashes), c)
    {
      var i := 0;
      while i < |dashes|
        invariant 0 <= i <= |dashes| == |old(dashes)|
        invariant forall j :: 0 <= j < i ==> dashes[j] == old(dashes)[j].(markColor := c)
        invariant forall j :: i <= j < |dashes| ==> dashes[j] == old(dashes)[j]
      {
        dashes := dashes[i := dashes[i].(markColor := c)];
        i := i + 1;
      }
    }

    /** Take the `active` class off every label. */
    method ClearActive()
      modifies this`dashes
      ensures dashes == Deactivated(old(dashes))
    {
      var i := 0;
      while i < |dashes|
        invariant 0 <= i <= |dashes| == |old(dashes)|
        invariant forall j :: 0 <= j < i ==> dashes[j] == old(dashes)[j].(active := false)
        invariant forall j :: i <= j < |dashes| ==> dashes[j] == old(dashes)[j]
      {
        dashes := dashes[i := dashes[i].(active := false)];
        i := i + 1;
      }
    }

    /** Give every tick the dash colour and the configured dash shape back. */
    method ResetShapes(dashColor: string)
      modifies this`dashes
      ensures dashes == WithDashShape(old(dashes), dashColor)
    {
      var i := 0;
      while i < |dashes|
        invariant 0 <= i <= |dashes| == |old(dashes)|
        invariant forall j :: 0 <= j < i ==> dashes[j] == old(dashes)[j].(background := dashColor, band := None)
        invariant forall j :: i <= j < |dashes| ==> dashes[j] == old(dashes)[j]
      {
        dashes := dashes[i := dashes[i].(background := dashColor, band := None)];
        i := i + 1;
      }
    }

    /** The `map` over the values in `init`: one new dash per value. */
    method LayOut(width: nat)
      requires Spread(values) && Complete(opts)
      modifies this`dashes
      ensures dashes == Layout(values, width, opts)
    {
      var min, max := MinOf(values), MaxOf(values);
      var ds: seq<Dash> := [];
      var i := 0;
      while i < |values|
        invariant 0 <= i <= |values|
        invariant ds == Layout(values, width, opts)[..i]
      {
        ds := ds + [Dash(values[i], Offset(width, values[i].value, min, max), OffStep(i, opts.step.value),
                         false, opts.dashMarkColor.value, opts.dashColor.value, None)];
        i := i + 1;
      }
      dashes := ds;
    }

    /** Repaint every label with `normal`, take every `active` class off, then mark the
        first dash with value v: `selected` colour and `active`. */
    method MarkCurrent(v: real, normal: string, selected: string)
      modifies this`dashes
      ensures dashes == Activated(Recolored(old(dashes), v, normal, selected), v)
    {
      MarkingSteps(dashes, v, normal, selected);
      PaintMarks(normal);
      ClearActive();
      var current := FindDash(dashes, v);
      if current.Some? {
        var k := current.value;
        dashes := dashes[k := dashes[k].(markColor := selected, active := true)];
      }
    }

    /** The marking in `init`: the labels of a fresh layout already have the normal
        colour, so only the `active` classes are cleared before the current dash is
        marked. */
    method MarkLaidOut(v: real, normal: string, selected: string)
      requires forall i :: 0 <= i < |dashes| ==> dashes[i].markColor == normal
      modifies this`dashes
      ensures dashes == Activated(Recolored(old(dashes), v, normal, selected), v)
    {
      LaidOutMarking(dashes, v, normal, selected);
      ClearActive();
      var current := FindDash(dashes, v);
      if current.Some? {
        var k := current.value;
        dashes := dashes[k := dashes[k].(markColor := selected, active := true)];
      }
    }

    /** The repaint during a drag: every label `normal`, then the first dash with value v
        `selected`; the `active` classes are left alone. */
    method RepaintMarks(v: real, normal: string, selected: string)
      modifies this`dashes
      ensures dashes == Recolored(old(dashes), v, normal, selected)
      ensures old(Consistent()) ==> Consistent()
    {
      if Consistent() {
        RecoloredKeepsLaidOut(values, trackWidth, opts, dashes, v, normal, selected);
      }
      RecolorSteps(dashes, v, normal, selected);
      PaintMarks(normal);
      var current := FindDash(dashes, v);
      if current.Some? {
        var k := current.value;
        dashes := dashes[k := dashes[k].(markColor := selected)];
      }
    }

    /** The `try` block of `setBarPosition`: every tick reset, then the tick at the lower
        limit widened to the tick at the upper limit and painted with the band colour;
        a limit without a tick throws, which the block swallows. */
    method DrawWindow(w: Option<(real, real)>, colour: Option<string>, dashColor: string)
      modifies this`dashes
      ensures dashes == Emphasised(old(dashes), w, colour, dashColor)
    {
      DrawSteps(dashes, w, colour, dashColor);
      ResetShapes(dashColor);
      if w.None? {
        return;
      }
      var lower := FindDash(dashes, w.value.0);
      if lower.None? {
        return;
      }
      var upper := FindDash(dashes, w.value.1);
      if upper.None? {
        return;
      }
      var a, b := lower.value, upper.value;
      dashes := dashes[a := dashes[a].(band := Some(dashes[b].left - dashes[a].left),
                                       background := if Truthy(colour) then colour.value else dashColor)];
    }

    /** `init`, from the layout of the dashes on: a new bar is created and only attached
        when the value is listed. */
    method Init(width: nat) returns (r: Outcome)
      requires Spread(values) && Complete(opts)
      modifies this`trackWidth, this`dashes, this`barLeft, this`barAttached
      ensures Render(r, dashes, barLeft) == Initialised(values, innerValue, width, opts)
      ensures trackWidth == width && barAttached == r.Pass? && Consistent()
    {
      trackWidth := width;
      LayOut(width);
      r := PlaceBar();
    }

    /** The second half of `init`, on freshly laid-out dashes: the value is checked, then
        the bar is placed and attached and the current dash marked. */
    method PlaceBar() returns (r: Outcome)
      requires Spread(values) && Complete(opts) && dashes == Layout(values, trackWidth, opts)
      modifies this`dashes, this`barLeft, this`barAttached
      ensures Render(r, dashes, barLeft) == Initialised(values, innerValue, trackWidth, opts)
      ensures barAttached == r.Pass? && Consistent()
    {
      var v := EffectiveValue(innerValue, values);
      MarkedLayoutLaidOut(values, trackWidth, opts, v);
      barLeft := None;
      barAttached := false;
      if IndexOfValue(values, v).None? {
        return Fail(NotListed(v));
      }
      barLeft := Some(BarLeft(trackWidth, v, MinOf(values), MaxOf(values), opts.barWidth.value));
      barAttached := true;
      ghost var laid := dashes;
      assert forall i :: 0 <= i < |laid| ==> laid[i].markColor == opts.dashMarkColor.value;
      MarkLaidOut(v, opts.dashMarkColor.value, opts.dashMarkSelectedColor.value);
      r := Pass;
    }

    /** `setBarPosition`. */
    method SetBarPosition() returns (r: Outcome)
      requires Consistent()
      modifies this`dashes, this`barLeft
      ensures Render(r, dashes, barLeft) == Reposition(values, innerValue, trackWidth, opts, old(dashes), old(barLeft))
      ensures Consistent()
    {
      RepositionKeepsLaidOut(values, innerValue, trackWidth, opts, dashes, barLeft);
      var min, max := MinOf(values), MaxOf(values);
      var v := EffectiveValue(innerValue, values);
      var index := IndexOfValue(values, v);
      if index.None? {
        return Fail(NotListed(v));
      }
      barLeft := Some(BarLeft(trackWidth, v, min, max, opts.barWidth.value));
      MarkCurrent(v, opts.dashMarkColor.value, opts.dashMarkSelectedColor.value);
      MarkedGeometry(old(dashes), v, opts.dashMarkColor.value, opts.dashMarkSelectedColor.value);
      FindDashSameGeometry(dashes, old(dashes), v);
      if FindDash(dashes, v).None? {
        return Fail(NoCurrentDash);
      }
      var w := StepWindow(v, index.value, opts.step.value, min, max, |values|);
      DrawWindow(w, IndicatorColorOf(opts.indicatorColor, v), opts.dashColor.value);
      r := Pass;
    }

    /** The click handler: the dash nearest to the click becomes the value (reported to
        `onChange`) and the bar is repositioned. */
    method Click(x: real) returns (r: Outcome)
      requires Consistent()
      modifies this`innerValue, this`changes, this`dashes, this`barLeft
      ensures Consistent()
      ensures old(dashes) != [] ==> r == Pass && innerValue.Some? && Listed(values, innerValue.value)
      ensures old(dashes) == [] ==>
        r == Fail(EmptyReduce) && innerValue == old(innerValue) && changes == old(changes) &&
        dashes == old(dashes) && barLeft == old(barLeft)
      ensures old(dashes) != [] ==>
        var picked := NearestValue(old(dashes), x);
        innerValue == Some(picked) && changes == old(changes) + [picked] &&
        Render(r, dashes, barLeft) == Reposition(values, Some(picked), trackWidth, opts, old(dashes), old(barLeft))
    {
      if dashes == [] {
        return Fail(EmptyReduce);
      }
      var picked := NearestValue(dashes, x);
      ghost var after := Reposition(values, Some(picked), trackWidth, opts, dashes, barLeft);
      CommittedDashIsListed(values, trackWidth, opts, dashes, FindClosest(dashes, x), barLeft);
      SetValue(picked);
      r := SetBarPosition();
      assert Render(r, dashes, barLeft) == after;
    }

    /** Committing the value at the bar's CSS `left` (the drag-end handler, and the
        common tail of `Click`-like commits). */
    method CommitAtBar() returns (r: Outcome)
      requires Consistent()
      modifies this`innerValue, this`changes, this`dashes, this`barLeft
      ensures Consistent()
      ensures old(dashes) != [] ==> r == Pass && innerValue.Some? && Listed(values, innerValue.value)
      ensures old(dashes) == [] ==>
        r == Fail(EmptyReduce) && innerValue == old(innerValue) && changes == old(changes) &&
        dashes == old(dashes) && barLeft == old(barLeft)
      ensures old(dashes) != [] ==>
        var picked := ValueAtBar(old(dashes), old(barLeft));
        innerValue == Some(picked) && changes == old(changes) + [picked] &&
        Render(r, dashes, barLeft) == Reposition(values, Some(picked), trackWidth, opts, old(dashes), old(barLeft))
    {
      if dashes == [] {
        return Fail(EmptyReduce);
      }
      var picked := ValueAtBar(dashes, barLeft);
      ghost var after := Reposition(values, Some(picked), trackWidth, opts, dashes, barLeft);
      CommittedDashIsListed(values, trackWidth, opts, dashes, ClosestTo(dashes, barLeft), barLeft);
      SetValue(picked);
      r := SetBarPosition();
      assert Render(r, dashes, barLeft) == after;
    }

    /** `mousedown` on the bar or `touchstart` on the slider: remember the pointer and the
        bar's CSS `left`. */
    method DragStart(pageX: real)
      modifies this`drag
      ensures drag == Some(DragAnchor(pageX, barLeft))
    {
      drag := Some(DragAnchor(pageX, barLeft));
    }

    /** A drag step inside the dashes' span to the candidate offset `candidate` (the bar's
        remembered CSS `left` moved by the pointer's travel): the bar's new CSS `left` is the
        candidate less half the bar width again, so a step with no travel still moves the bar
        `barWidth / 2` to the left; the dash nearest to that `left` becomes the
        value (reported to `onChange`) and only the label colours are repainted (the `active`
        class stays where it was). */
    twostate predicate Followed(candidate: real)
      requires old(Complete(opts))
      reads this
    {
      |old(dashes)| > 0 &&
      var o := old(opts);
      var left := candidate - o.barWidth.value / 2.0;
      var picked := NearestValue(old(dashes), left);
      barLeft == Some(left) && innerValue == Some(picked) && changes == old(changes) + [picked] &&
      dashes == Recolored(old(dashes), picked, o.dashMarkColor.value, o.dashMarkSelectedColor.value)
    }

    /** Outside the dashes' span the bar snaps back: `setBarPosition` runs on the value as
        it was. */
    twostate predicate SnappedBack(r: Outcome)
      requires Spread(values) && Complete(opts)
      reads this
    {
      innerValue == old(innerValue) && changes == old(changes) &&
      Render(r, dashes, barLeft) == Reposition(values, innerValue, trackWidth, opts, old(dashes), old(barLeft))
    }

    /** What a drag step to the candidate offset `candidate` leaves: the bar follows within the
        dashes' span and snaps back outside it, or when there are no dashes (an empty span). */
    twostate predicate DraggedTo(candidate: real, r: Outcome)
      requires Spread(values) && Complete(opts) && old(Complete(opts))
      reads this
    {
      && (Reaches(old(dashes), candidate) ==> r == Pass && Followed(candidate))
      && (!Reaches(old(dashes), candidate) ==> SnappedBack(r))
    }

    /** The body of a drag step inside the span. */
    method Follow(candidate: real)
      requires |dashes| > 0 && Consistent()
      modifies this`innerValue, this`changes, this`dashes, this`barLeft
      ensures Followed(candidate) && Consistent()
    {
      var left := candidate - opts.barWidth.value / 2.0;
      var picked := NearestValue(dashes, left);
      barLeft := Some(left);
      SetValue(picked);
      RepaintMarks(picked, opts.dashMarkColor.value, opts.dashMarkSelectedColor.value);
    }

    /** The drag handler for a candidate offset (remembered CSS `left` plus the pointer's
        travel), as `DraggedTo` says. */
    method DragMove(candidate: real) returns (r: Outcome)
      requires Consistent()
      modifies this`innerValue, this`changes, this`dashes, this`barLeft
      ensures DraggedTo(candidate, r)
      ensures Consistent()
      ensures Reaches(old(dashes), candidate) ==> innerValue.Some? && Listed(values, innerValue.value)
    {
      if Reaches(dashes, candidate) {
        DashValueListed(values, trackWidth, opts, dashes, FindClosest(dashes, candidate - opts.barWidth.value / 2.0));
        Follow(candidate);
        r := Pass;
      } else {
        r := SetBarPosition();
      }
    }

    /** A pointer move while a drag is in progress: the candidate is the remembered bar
        `left` moved by the pointer's travel. Before any press, or from a bar without a
        `left` (NaN fails both range tests), nothing happens. */
    method PointerMove(pageX: real) returns (r: Outcome)
      requires Consistent()
      modifies this`innerValue, this`changes, this`dashes, this`barLeft
      ensures Consistent()
      ensures old(drag).None? || old(drag).value.left.None? ==>
        r == Pass && innerValue == old(innerValue) && changes == old(changes) &&
        dashes == old(dashes) && barLeft == old(barLeft)
      ensures old(drag).Some? && old(drag).value.left.Some? ==> DraggedTo(Candidate(old(drag).value, pageX), r)
    {
      if drag.None? || drag.value.left.None? {
        return Pass;
      }
      r := DragMove(Candidate(drag.value, pageX));
    }

    /** `mouseup`/`touchend` anywhere on the page: the drag (if any) ends and the value
        nearest to the bar's CSS `left` is committed, press or no press. */
    method DragEnd() returns (r: Outcome)
      requires Consistent()
      modifies this`drag, this`innerValue, this`changes, this`dashes, this`barLeft
      ensures drag.None? && Consistent()
      ensures old(dashes) != [] ==> r == Pass && innerValue.Some? && Listed(values, innerValue.value)
      ensures old(dashes) == [] ==>
        r == Fail(EmptyReduce) && innerValue == old(innerValue) && changes == old(changes) &&
        dashes == old(dashes) && barLeft == old(barLeft)
      ensures old(dashes) != [] ==>
        var picked := ValueAtBar(old(dashes), old(barLeft));
        innerValue == Some(picked) && changes == old(changes) + [picked] &&
        Render(r, dashes, barLeft) == Reposition(values, Some(picked), trackWidth, opts, old(dashes), old(barLeft))
    {
      drag := None;
      r := CommitAtBar();
    }

    /** `writeValue` from the forms API: a falsy value is ignored; any other value is
        stored without being reported back and the bar is repositioned. */
    method WriteValue(val: Option<real>) returns (r: Outcome)
      requires Consistent()
      modifies this`innerValue, this`dashes, this`barLeft
      ensures Consistent()
      ensures (val.None? || val.value == 0.0) ==>
        r == Pass && innerValue == old(innerValue) && dashes == old(dashes) && barLeft == old(barLeft)
      ensures !(val.None? || val.value == 0.0) ==>
        innerValue == val &&
        Render(r, dashes, barLeft) == Reposition(values, val, trackWidth, opts, old(dashes), old(barLeft))
    {
      if val.None? || val.value == 0.0 {
        return Pass;
      }
      innerValue := val;
      r := SetBarPosition();
    }

    /** `destroy`: the dashes are removed and forgotten, then the bar is removed, which
        throws when the bar is not a child of the track. */
    method Destroy() returns (r: Outcome)
      modifies this`dashes, this`barAttached
      ensures dashes == [] && !barAttached
      ensures old(Consistent()) ==> Consistent()
      ensures r == if old(barAttached) then Pass else Fail(BarNotAttached)
    {
      dashes := [];
      if !barAttached {
        return Fail(BarNotAttached);
      }
      barAttached := false;
      r := Pass;
    }

    /** `ngOnDestroy`: the subscriptions are dropped and the slider destroyed. */
    method OnDestroy() returns (r: Outcome)
      modifies this`dashes, this`barAttached
      ensures dashes == [] && !barAttached
      ensures old(Consistent()) ==> Consistent()
      ensures r == if old(barAttached) then Pass else Fail(BarNotAttached)
    {
      r := Destroy();
    }

    /** The window resize handler: destroy, then lay out again on the re-measured track;
        a failing `destroy` stops it. */
    method Resize(width: nat) returns (r: Outcome)
      requires Spread(values) && Complete(opts)
      modifies this`trackWidth, this`dashes, this`barLeft, this`barAttached
      ensures old(barAttached) ==>
        Render(r, dashes, barLeft) == Initialised(values, innerValue, width, opts) && trackWidth == width &&
        barAttached == r.Pass?
      ensures !old(barAttached) ==>
        r == Fail(BarNotAttached) && dashes == [] && barLeft == old(barLeft) && !barAttached &&
        trackWidth == old(trackWidth)
      ensures Consistent()
    {
      r := Destroy();
      if r.Fail? {
        return;
      }
      r := Init(width);
    }

    /** `ngOnChanges` after Angular has stored the changed inputs: when either input
        changed, the options are resolved again and the slider is laid out anew. */
    method OnChanges(optionsChanged: bool, newOptions: Option<SliderOptions>,
                     valuesChanged: bool, newValues: seq<SliderValue>, width: nat) returns (r: Outcome)
      requires Spread(if valuesChanged then newValues else values)
      requires !(optionsChanged || valuesChanged) ==> Complete(opts)
      modifies this`options, this`values, this`opts, this`trackWidth, this`dashes, this`barLeft, this`barAttached
      ensures options == (if optionsChanged then newOptions else old(options))
      ensures values == (if valuesChanged then newValues else old(values))
      ensures (optionsChanged || valuesChanged) ==>
        opts == Merge(options) && trackWidth == width && barAttached == r.Pass? &&
        Render(r, dashes, barLeft) == Initialised(values, innerValue, width, opts)
      ensures !(optionsChanged || valuesChanged) ==>
        r == Pass && opts == old(opts) && dashes == old(dashes) && barLeft == old(barLeft) &&
        barAttached == old(barAttached) && trackWidth == old(trackWidth)
      ensures (optionsChanged || valuesChanged || old(Consistent())) ==> Consistent()
    {
      if optionsChanged {
        options := newOptions;
      }
      if valuesChanged {
        values := newValues;
      }
      if !(optionsChanged || valuesChanged) {
        return Pass;
      }
      opts := Merge(options);
      r := Init(width);
    }
  }
}

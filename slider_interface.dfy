/** The record types of the slider and its built-in defaults
    (projects/ngx-slider/src/lib/ngx-slider.interface.ts). */
module SliderInterface {

  /** An optional field of a TypeScript record: None is "key absent". */
  datatype Option<T> = None | Some(value: T)

  /** The display text of a value, `string | number`. */
  datatype Placeholder = Text(text: string) | Number(number: real)

  /** One discrete position: `value` is its numeric identity, `placeholder` only its label. */
  datatype SliderValue = SliderValue(value: real, placeholder: Placeholder)

  /** One entry of `indicatorColor`: values up to `limit` are painted `color`. */
  datatype IndicatorBand = IndicatorBand(limit: real, color: string)

  /** `SliderOptions`: every field is optional. */
  datatype SliderOptions = SliderOptions(
    width: Option<string>,
    gridHeight: Option<real>,
    step: Option<int>,
    gridColor: Option<string>,
    gridBorderRadius: Option<real>,
    gridPadding: Option<real>,
    dashBorderRadius: Option<real>,
    dashColor: Option<string>,
    dashWidth: Option<real>,
    dashHeight: Option<real>,
    dashMarkColor: Option<string>,
    dashMarkSelectedColor: Option<string>,
    dashMarkFont: Option<string>,
    dashMarkFontSize: Option<real>,
    dashMarkFontWeight: Option<real>,
    dashMarkPadding: Option<real>,
    barColor: Option<string>,
    barWidth: Option<real>,
    barHeight: Option<real>,
    barBorderRadius: Option<real>,
    indicatorColor: Option<seq<IndicatorBand>>)

  /** The keys of `SliderOptions`, so that statements can range over all of them. */
  datatype Field =
    | Width | GridHeight | Step | GridColor | GridBorderRadius | GridPadding
    | DashBorderRadius | DashColor | DashWidth | DashHeight | DashMarkColor
    | DashMarkSelectedColor | DashMarkFont | DashMarkFontSize | DashMarkFontWeight
    | DashMarkPadding | BarColor | BarWidth | BarHeight | BarBorderRadius | IndicatorColor

  /** A field's value, whatever its type. */
  datatype Val = Str(s: string) | Num(n: real) | Count(k: int) | Bands(bands: seq<IndicatorBand>)

  function StrVal(x: Option<string>): Option<Val> { if x.Some? then Some(Str(x.value)) else None }
  function NumVal(x: Option<real>): Option<Val> { if x.Some? then Some(Num(x.value)) else None }

  /** The value stored under key `f` of `o`, or None when `o` lacks that key. */
  function Get(o: SliderOptions, f: Field): Option<Val> {
    match f
    case Width => StrVal(o.width)
    case GridHeight => NumVal(o.gridHeight)
    case Step => if o.step.Some? then Some(Count(o.step.value)) else None
    case GridColor => StrVal(o.gridColor)
    case GridBorderRadius => NumVal(o.gridBorderRadius)
    case GridPadding => NumVal(o.gridPadding)
    case DashBorderRadius => NumVal(o.dashBorderRadius)
    case DashColor => StrVal(o.dashColor)
    case DashWidth => NumVal(o.dashWidth)
    case DashHeight => NumVal(o.dashHeight)
    case DashMarkColor => StrVal(o.dashMarkColor)
    case DashMarkSelectedColor => StrVal(o.dashMarkSelectedColor)
    case DashMarkFont => StrVal(o.dashMarkFont)
    case DashMarkFontSize => NumVal(o.dashMarkFontSize)
    case DashMarkFontWeight => NumVal(o.dashMarkFontWeight)
    case DashMarkPadding => NumVal(o.dashMarkPadding)
    case BarColor => StrVal(o.barColor)
    case BarWidth => NumVal(o.barWidth)
    case BarHeight => NumVal(o.barHeight)
    case BarBorderRadius => NumVal(o.barBorderRadius)
    case IndicatorColor => if o.indicatorColor.Some? then Some(Bands(o.indicatorColor.value)) else None
  }

  /** Every optional field carries a value. */
  predicate Complete(o: SliderOptions) {
    && o.width.Some? && o.gridHeight.Some? && o.step.Some? && o.gridColor.Some?
    && o.gridBorderRadius.Some? && o.gridPadding.Some? && o.dashBorderRadius.Some?
    && o.dashColor.Some? && o.dashWidth.Some? && o.dashHeight.Some? && o.dashMarkColor.Some?
    && o.dashMarkSelectedColor.Some? && o.dashMarkFont.Some? && o.dashMarkFontSize.Some?
    && o.dashMarkFontWeight.Some? && o.dashMarkPadding.Some? && o.barColor.Some?
    && o.barWidth.Some? && o.barHeight.Some? && o.barBorderRadius.Some? && o.indicatorColor.Some?
  }

  /** Bands listed by ascending limit. */
  predicate BandsAscending(bands: seq<IndicatorBand>) {
    forall i, j :: 0 <= i < j < |bands| ==> bands[i].limit <= bands[j].limit
  }

  /** The options record with no key set, what `{...undefined}` spreads. */
  function NoOptions(): SliderOptions {
    SliderOptions(None, None, None, None, None, None, None, None, None, None, None,
                  None, None, None, None, None, None, None, None, None, None)
  }

  /** `defaultOptions()`. */
  function Defaults(): (d: SliderOptions)
    ensures Complete(d)
    ensures forall f :: Get(d, f).Some?
    ensures d.step.value > 0
    ensures forall f :: Get(d, f).Some? && Get(d, f).value.Num? ==> Get(d, f).value.n >= 0.0
    ensures BandsAscending(d.indicatorColor.value)
  {
    SliderOptions(
      width := Some("100%"),
      gridHeight := Some(39.0),
      step := Some(4),
      gridColor := Some("#E3EEF6"),
      gridBorderRadius := Some(4.0),
      gridPadding := Some(8.0),
      dashBorderRadius := Some(50.0),
      dashColor := Some("#CBDFEA"),
      dashWidth := Some(3.0),
      dashHeight := Some(21.0),
      dashMarkColor := Some("#7D9EB5"),
      dashMarkSelectedColor := Some("#223345"),
      dashMarkFont := Some("sans-serif"),
      dashMarkFontSize := Some(10.0),
      dashMarkFontWeight := Some(600.0),
      dashMarkPadding := Some(8.0),
      // The gradient is written in pieces; their concatenation is the source's one string.
      barColor := Some("transparent " + "linear-gradient(" + "180deg, " + "#E3EEF6 0%, " + "#BAC7D0 100%)"
                       + " 0% 0% " + "no-repeat " + "padding-box"),
      barWidth := Some(30.0),
      barHeight := Some(58.0),
      barBorderRadius := Some(4.0),
      indicatorColor := Some([IndicatorBand(12.0, "red"), IndicatorBand(20.0, "yellow")]))
  }

  /** One key of an object spread: a key the later object has wins. */
  function Overlay<T>(base: Option<T>, top: Option<T>): Option<T> {
    if top.Some? then top else base
  }

  /** The key `f` is present in the user's options. */
  predicate Present(user: Option<SliderOptions>, f: Field) {
    user.Some? && Get(user.value, f).Some?
  }

  /** `{ ...base, ...top }` on two options records: a shallow, key-by-key spread. */
  function Spread2(base: SliderOptions, top: SliderOptions): SliderOptions {
    SliderOptions(
      Overlay(base.width, top.width), Overlay(base.gridHeight, top.gridHeight), Overlay(base.step, top.step),
      Overlay(base.gridColor, top.gridColor), Overlay(base.gridBorderRadius, top.gridBorderRadius),
      Overlay(base.gridPadding, top.gridPadding), Overlay(base.dashBorderRadius, top.dashBorderRadius),
      Overlay(base.dashColor, top.dashColor), Overlay(base.dashWidth, top.dashWidth),
      Overlay(base.dashHeight, top.dashHeight), Overlay(base.dashMarkColor, top.dashMarkColor),
      Overlay(base.dashMarkSelectedColor, top.dashMarkSelectedColor),
      Overlay(base.dashMarkFont, top.dashMarkFont), Overlay(base.dashMarkFontSize, top.dashMarkFontSize),
      Overlay(base.dashMarkFontWeight, top.dashMarkFontWeight),
      Overlay(base.dashMarkPadding, top.dashMarkPadding), Overlay(base.barColor, top.barColor),
      Overlay(base.barWidth, top.barWidth), Overlay(base.barHeight, top.barHeight),
      Overlay(base.barBorderRadius, top.barBorderRadius),
      Overlay(base.indicatorColor, top.indicatorColor))
  }

  /** Key by key, a spread takes the later record's value where it has one. */
  lemma SpreadByKey(base: SliderOptions, top: SliderOptions, f: Field)
    ensures Get(Spread2(base, top), f) == Overlay(Get(base, f), Get(top, f))
  {
    match f
    case Width => case GridHeight => case Step => case GridColor => case GridBorderRadius =>
    case GridPadding => case DashBorderRadius => case DashColor => case DashWidth =>
    case DashHeight => case DashMarkColor => case DashMarkSelectedColor => case DashMarkFont =>
    case DashMarkFontSize => case DashMarkFontWeight => case DashMarkPadding => case BarColor =>
    case BarWidth => case BarHeight => case BarBorderRadius => case IndicatorColor =>
  }

  /** `{ ...defaultOptions(), ...options }`: a shallow, key-by-key merge. */
  function Merge(user: Option<SliderOptions>): (r: SliderOptions)
    ensures Complete(r)
  {
    Spread2(Defaults(), if user.Some? then user.value else NoOptions())
  }

  /** Key by key: a key the user sets is taken from the user's options as it is,
      every other key keeps its default. */
  lemma MergeByKey(user: Option<SliderOptions>, f: Field)
    ensures Present(user, f) ==> Get(Merge(user), f) == Get(user.value, f)
    ensures !Present(user, f) ==> Get(Merge(user), f) == Get(Defaults(), f)
  {
    var u := if user.Some? then user.value else NoOptions();
    SpreadByKey(Defaults(), u, f);
    if user.None? {
      assert Get(NoOptions(), f).None? by {
        match f
        case Width => case GridHeight => case Step => case GridColor => case GridBorderRadius =>
        case GridPadding => case DashBorderRadius => case DashColor => case DashWidth =>
        case DashHeight => case DashMarkColor => case DashMarkSelectedColor => case DashMarkFont =>
        case DashMarkFontSize => case DashMarkFontWeight => case DashMarkPadding => case BarColor =>
        case BarWidth => case BarHeight => case BarBorderRadius => case IndicatorColor =>
      }
    }
  }

  /** Absent user options resolve to exactly the defaults. */
  lemma MergeUndefined()
    ensures Merge(None) == Defaults()
  {
  }

  /** Resolving an already resolved record changes nothing. */
  lemma MergeIdempotent(user: Option<SliderOptions>)
    ensures Merge(Some(Merge(user))) == Merge(user)
  {
  }

  /** A user-supplied band list replaces the default list wholesale; it is not merged
      element by element. */
  lemma MergeReplacesBands(user: SliderOptions)
    requires user.indicatorColor.Some?
    ensures Merge(Some(user)).indicatorColor == user.indicatorColor
  {
    MergeByKey(Some(user), IndicatorColor);
  }
}

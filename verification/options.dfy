/**
 * Rule-set configurations: the built-in defaults, the partial configs a
 * caller passes to `init`, and how each partial is merged over the
 * defaults.
 */
module Options {
  import opened Wrappers
  import opened Document
  import opened Rules

  /** Where and how the error class is applied. */
  datatype Highlight = Highlight(className: string, attachTo: string, active: bool)

  /**
   * A resolved config. `tooltip` records only whether a tooltip config is
   * present (truthy); its placement options belong to the tooltip widget.
   */
  datatype Config = Config(
    selector: string,
    triggers: seq<string>,
    validations: seq<Rule>,
    messages: map<string, string>,
    tooltip: bool,
    highlight: Highlight)

  /** The plugin's `defaults` object. */
  const Defaults: Config := Config(
    "input[required]",
    ["blur"],
    [Named("required")],
    map["required" := "This field is required", "base" := "Field is invalid"],
    true,
    Highlight("has-error", ".form-group", true))

  /** The fields of a partial `highlight` object; `None` is an absent field. */
  datatype HighlightPatch = HighlightPatch(className: Option<string>, attachTo: Option<string>, active: Option<bool>)

  /**
   * One partial config as a caller writes it. Absent arrays and maps are
   * empty; `tooltip` is `Some(false)` for a falsy value such as `false`
   * and `Some(true)` for a tooltip object.
   */
  datatype Partial = Partial(
    selector: Option<string>,
    triggers: seq<string>,
    validations: seq<Rule>,
    messages: map<string, string>,
    tooltip: Option<bool>,
    highlight: HighlightPatch)

  /** A partial that sets nothing. */
  const EmptyPartial: Partial := Partial(None, [], [], map[], None, HighlightPatch(None, None, None))

  /**
   * A deep `$.extend` of an array over an array whose entries are strings,
   * as the defaults' `triggers` and `validations` are: entries of `patch`
   * overwrite the base index by index, and the base's longer tail survives.
   * (Over a plain-object entry, `$.extend` would merge key by key instead.)
   */
  function Overlay<T>(base: seq<T>, patch: seq<T>): (r: seq<T>)
    ensures |r| == if |patch| < |base| then |base| else |patch|
    ensures forall i :: 0 <= i < |patch| ==> r[i] == patch[i]
    ensures forall i :: |patch| <= i < |base| ==> r[i] == base[i]
  {
    if |patch| < |base| then patch + base[|patch|..] else patch
  }

  /** Field-wise merge of a highlight patch. */
  function MergeHighlight(h: Highlight, p: HighlightPatch): (r: Highlight)
    ensures p.className.Some? ==> r.className == p.className.value
    ensures p.className.None? ==> r.className == h.className
    ensures p.attachTo.Some? ==> r.attachTo == p.attachTo.value
    ensures p.attachTo.None? ==> r.attachTo == h.attachTo
    ensures p.active.Some? ==> r.active == p.active.value
    ensures p.active.None? ==> r.active == h.active
  {
    Highlight(p.className.GetOr(h.className), p.attachTo.GetOr(h.attachTo), p.active.GetOr(h.active))
  }

  /**
   * `$.extend(true, {}, Defaults, p)`: every field the partial sets wins,
   * every field it leaves out keeps the base's value, nested message maps
   * and highlight objects are merged key by key, and arrays index by index.
   * `init` merges over `Defaults` only, whose arrays hold strings, so an
   * array entry of the partial simply replaces the base's entry.
   */
  function Merge(base: Config, p: Partial): (r: Config)
    ensures p.selector.Some? ==> r.selector == p.selector.value
    ensures p.selector.None? ==> r.selector == base.selector
    ensures |r.triggers| >= |p.triggers| && r.triggers[..|p.triggers|] == p.triggers
    ensures |p.triggers| == 0 ==> r.triggers == base.triggers
    ensures |r.validations| >= |p.validations| && r.validations[..|p.validations|] == p.validations
    ensures |p.validations| == 0 ==> r.validations == base.validations
    ensures r.messages.Keys == base.messages.Keys + p.messages.Keys
    ensures forall k :: k in p.messages ==> r.messages[k] == p.messages[k]
    ensures forall k :: k in base.messages && k !in p.messages ==> r.messages[k] == base.messages[k]
    ensures p.tooltip.Some? ==> r.tooltip == p.tooltip.value
    ensures p.tooltip.None? ==> r.tooltip == base.tooltip
    ensures r.triggers == Overlay(base.triggers, p.triggers)
    ensures r.validations == Overlay(base.validations, p.validations)
    ensures r.highlight == MergeHighlight(base.highlight, p.highlight)
  {
    Config(
      p.selector.GetOr(base.selector),
      Overlay(base.triggers, p.triggers),
      Overlay(base.validations, p.validations),
      base.messages + p.messages,
      p.tooltip.GetOr(base.tooltip),
      MergeHighlight(base.highlight, p.highlight))
  }

  /** The `options` argument of `init`, as far as `init` inspects it. */
  datatype InitArg =
    | Falsy                          // undefined, null, false, 0, '' — replaced by []
    | NonArray                       // a truthy value that is not an array
    | Items(partials: seq<Partial>)  // an array of partial configs

  datatype ConfigError = NotAnArray

  /**
   * The configs `init` stores for one binding: the defaults alone when no
   * partial is given, otherwise one config per partial, each merged over the
   * defaults and over nothing else; a non-array argument is an error.
   */
  function Resolve(arg: InitArg): (r: Result<seq<Config>, ConfigError>)
    ensures r.Failure? <==> arg.NonArray?
    ensures r.Success? ==> |r.value| > 0
    ensures arg.Falsy? ==> r == Success([Defaults])
    ensures arg.Items? && |arg.partials| == 0 ==> r == Success([Defaults])
    ensures arg.Items? && |arg.partials| > 0 ==>
      && r.Success?
      && |r.value| == |arg.partials|
      && forall i :: 0 <= i < |arg.partials| ==> r.value[i] == Merge(Defaults, arg.partials[i])
  {
    match arg
    case Falsy => Success([Defaults])
    case NonArray => Failure(NotAnArray)
    case Items(ps) =>
      if |ps| == 0 then Success([Defaults])
      else Success(seq(|ps|, i requires 0 <= i < |ps| => Merge(Defaults, ps[i])))
  }

  /**
   * The defaults govern `input[required]` fields on `blur` with the one rule
   * `required`: a field passes exactly when its value is non-empty, and
   * otherwise fails that rule and counts as invalid.
   */
  lemma DefaultRulesRequireValue(dom: Dom, el: Element)
    ensures Defaults.selector == "input[required]" && Defaults.triggers == ["blur"]
    ensures Evaluate(Defaults.validations, dom, el).verdict == JsTrue <==> dom.value(el) != ""
    ensures Invalid(Defaults.validations, dom, el) <==> dom.value(el) == ""
    ensures dom.value(el) == "" ==> Evaluate(Defaults.validations, dom, el).failedAt == Some(0)
  {
    EvaluateSpec(Defaults.validations, dom, el);
  }

  /**
   * Config `i` depends on partial `i` alone: two argument lists that agree
   * at position `i` resolve to the same config there, whatever the other
   * partials say.
   */
  lemma NoLeakBetweenPartials(ps: seq<Partial>, qs: seq<Partial>, i: nat)
    requires i < |ps| && i < |qs| && ps[i] == qs[i]
    ensures Resolve(Items(ps)).Success? && Resolve(Items(qs)).Success?
    ensures Resolve(Items(ps)).value[i] == Resolve(Items(qs)).value[i]
  {
  }

  /** Merging a partial that sets nothing yields the defaults unchanged. */
  lemma EmptyPartialIsDefaults()
    ensures Merge(Defaults, EmptyPartial) == Defaults
  {
    assert Defaults.messages + map[] == Defaults.messages;
  }

  /**
   * Merging never loses a default message: a partial that adds its own
   * messages keeps `required` and `base` unless it overrides them.
   */
  lemma MergeKeepsDefaultMessages(p: Partial)
    ensures "required" in Merge(Defaults, p).messages && "base" in Merge(Defaults, p).messages
    ensures "base" !in p.messages ==> Merge(Defaults, p).messages["base"] == "Field is invalid"
  {
  }

  /**
   * An empty `validations` (or `triggers`) array in a partial does not
   * clear the default one: the deep merge keeps the defaults' entries.
   */
  lemma EmptyArraysKeepDefaults(p: Partial)
    requires |p.validations| == 0 && |p.triggers| == 0
    ensures Merge(Defaults, p).validations == [Named("required")]
    ensures Merge(Defaults, p).triggers == ["blur"]
  {
  }
}

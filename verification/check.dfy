/**
 * Checking elements against configs: `checkValidations` for one element,
 * `checkAllValidations` for every element a container's configs match,
 * and the hiding pass of `reset`.
 */
module Check {
  import opened Wrappers
  import opened Document
  import opened Rules
  import opened Options
  import opened Render

  /** The value `checkValidations` returns and the page it leaves. */
  datatype Outcome = Outcome(verdict: JsValue, render: RenderState)

  /**
   * `checkValidations` on one element: the verdict of the pass over the
   * config's rules; unless silent, the failing rule's error is shown, an
   * element whose verdict is exactly `true` has its error hidden, and in
   * every other case (silent, or no failure but no `true` verdict) the page
   * is left as it was.
   */
  function CheckOne(st: RenderState, dom: Dom, el: Element, cfg: Config, silent: bool): (o: Outcome)
    ensures o.verdict == Evaluate(cfg.validations, dom, el).verdict
    ensures silent ==> o.render == st
    ensures var e := Evaluate(cfg.validations, dom, el);
      !silent && e.failedAt.Some? && e.failedAt.value < |cfg.validations| ==>
        o.render == ShowError(st, dom, el, cfg.validations[e.failedAt.value], cfg)
    ensures !silent && o.verdict == JsTrue ==> o.render == HideError(st, dom, el, cfg)
    ensures Evaluate(cfg.validations, dom, el).failedAt.None? && o.verdict != JsTrue ==> o.render == st
  {
    var e := Evaluate(cfg.validations, dom, el);
    EvaluateSpec(cfg.validations, dom, el);
    if silent then Outcome(e.verdict, st)
    else if e.failedAt.Some? then
      Outcome(e.verdict, ShowError(st, dom, el, cfg.validations[e.failedAt.value], cfg))
    else if e.verdict == JsTrue then
      Outcome(e.verdict, HideError(st, dom, el, cfg))
    else
      Outcome(e.verdict, st)
  }

  /**
   * The loop of `checkValidations` as written: walk the rules, skip the
   * ones that do not resolve, break at the first falsy result after showing
   * its error, and hide the error when `valid` ends exactly `true`.
   */
  method CheckValidations(st: RenderState, dom: Dom, el: Element, cfg: Config, silent: bool)
    returns (valid: JsValue, st': RenderState)
    ensures valid == CheckOne(st, dom, el, cfg, silent).verdict
    ensures st' == CheckOne(st, dom, el, cfg, silent).render
  {
    var rules := cfg.validations;
    valid := Undefined;
    st' := st;
    var i := 0;
    while i < |rules|
      invariant 0 <= i <= |rules|
      invariant st' == st
      invariant EvalFrom(rules, dom, el, i, valid).verdict == Evaluate(rules, dom, el).verdict
      invariant EvalFrom(rules, dom, el, i, valid).failedAt == Evaluate(rules, dom, el).failedAt
    {
      var rule := rules[i];
      if rule.Named? && Registered(rule.name) {
        valid := Required(dom, el);
        if !valid.Truthy() {
          if !silent {
            st' := ShowError(st', dom, el, rule, cfg);
          }
          break;
        }
      } else if rule.Custom? {
        valid := rule.validator(el);
        if !valid.Truthy() {
          if !silent {
            st' := ShowError(st', dom, el, rule, cfg);
          }
          break;
        }
      }
      i := i + 1;
    }
    if valid == JsTrue && !silent {
      st' := HideError(st', dom, el, cfg);
    }
  }

  /** Checking an element twice in a row leaves the page as checking it once. */
  lemma CheckOneIdempotent(st: RenderState, dom: Dom, el: Element, cfg: Config, silent: bool)
    ensures CheckOne(CheckOne(st, dom, el, cfg, silent).render, dom, el, cfg, silent).render
         == CheckOne(st, dom, el, cfg, silent).render
  {
    var e := Evaluate(cfg.validations, dom, el);
    EvaluateSpec(cfg.validations, dom, el);
    if !silent && e.failedAt.Some? {
      ShowIdempotent(st, dom, el, cfg.validations[e.failedAt.value], cfg);
    } else if !silent && e.verdict == JsTrue {
      HideIdempotent(st, dom, el, cfg);
    }
  }

  /** Running total of errors and the page so far. */
  datatype Tally = Tally(errors: nat, render: RenderState)

  /** The positions of `items` that count as errors under `cfg`. */
  function ErrorIndices(dom: Dom, items: seq<Element>, cfg: Config): set<nat> {
    set k: nat | k < |items| && Invalid(cfg.validations, dom, items[k])
  }

  /** The elements `cfg` governs inside `container`. */
  function Matched(dom: Dom, container: Element, cfg: Config): seq<Element> {
    dom.find(container, cfg.selector)
  }

  /**
   * Every (config index, matched position) pair of a container whose
   * element counts as an error.
   */
  function ErrorPairs(dom: Dom, container: Element, configs: seq<Config>): set<(nat, nat)> {
    set i: nat, k: nat | i < |configs| && k in ErrorIndices(dom, Matched(dom, container, configs[i]), configs[i]) :: (i, k)
  }

  /**
   * The `.each` over one config's matched elements, in order: each element
   * is checked against the page the previous ones left, and counted when
   * its verdict is falsy. A silent pass leaves the page untouched.
   */
  function CheckItems(st: RenderState, dom: Dom, items: seq<Element>, cfg: Config, silent: bool): (t: Tally)
    ensures silent ==> t.render == st
    ensures t.errors <= |items|
    decreases |items|
  {
    if |items| == 0 then Tally(0, st)
    else
      var t := CheckItems(st, dom, items[..|items| - 1], cfg, silent);
      var o := CheckOne(t.render, dom, items[|items| - 1], cfg, silent);
      Tally(t.errors + (if o.verdict.Truthy() then 0 else 1), o.render)
  }

  /**
   * `checkAllValidations` for one container: every config in order, every
   * element it matches in order. A silent pass leaves the page untouched.
   */
  function CheckAllValidations(st: RenderState, dom: Dom, container: Element, configs: seq<Config>, silent: bool): (t: Tally)
    ensures silent ==> t.render == st
    decreases |configs|
  {
    if |configs| == 0 then Tally(0, st)
    else
      var t := CheckAllValidations(st, dom, container, configs[..|configs| - 1], silent);
      var cfg := configs[|configs| - 1];
      var u := CheckItems(t.render, dom, Matched(dom, container, cfg), cfg, silent);
      Tally(t.errors + u.errors, u.render)
  }

  /** The errors counted over one config's elements are exactly its error positions. */
  lemma {:induction false} CheckItemsCountsErrors(st: RenderState, dom: Dom, items: seq<Element>, cfg: Config, silent: bool)
    ensures CheckItems(st, dom, items, cfg, silent).errors == |ErrorIndices(dom, items, cfg)|
    decreases |items|
  {
    if |items| > 0 {
      var n := |items| - 1;
      CheckItemsCountsErrors(st, dom, items[..n], cfg, silent);
      ErrorIndicesSnoc(dom, items, cfg);
    }
  }

  /** The error positions of a list are those of its prefix plus, if it fails, the last position. */
  lemma ErrorIndicesSnoc(dom: Dom, items: seq<Element>, cfg: Config)
    requires |items| > 0
    ensures var n := |items| - 1;
      && n !in ErrorIndices(dom, items[..n], cfg)
      && ErrorIndices(dom, items, cfg)
         == ErrorIndices(dom, items[..n], cfg) + (if Invalid(cfg.validations, dom, items[n]) then {n} else {})
  {
    var n := |items| - 1;
    var pre := items[..n];
    forall k: nat | k < n
      ensures pre[k] == items[k]
    {
    }
  }

  /** The pairs `(m, k)` for `k` in `s`. */
  function Indexed(m: nat, s: set<nat>): set<(nat, nat)> {
    set k | k in s :: (m, k)
  }

  lemma {:induction false} IndexedSize(m: nat, s: set<nat>)
    ensures |Indexed(m, s)| == |s|
    decreases |s|
  {
    if s != {} {
      var x :| x in s;
      IndexedSize(m, s - {x});
      assert Indexed(m, s) == Indexed(m, s - {x}) + {(m, x)};
    }
  }

  /**
   * The error count of `checkAllValidations` is the number of (config,
   * matched element) pairs whose verdict is falsy, configs and elements
   * counted with multiplicity.
   */
  lemma {:induction false} CheckAllCountsErrorPairs(st: RenderState, dom: Dom, container: Element, configs: seq<Config>, silent: bool)
    ensures CheckAllValidations(st, dom, container, configs, silent).errors == |ErrorPairs(dom, container, configs)|
    decreases |configs|
  {
    if |configs| > 0 {
      var m := |configs| - 1;
      var pre := configs[..m];
      var t := CheckAllValidations(st, dom, container, pre, silent);
      CheckAllCountsErrorPairs(st, dom, container, pre, silent);
      var cfg := configs[m];
      var s := ErrorIndices(dom, Matched(dom, container, cfg), cfg);
      CheckItemsCountsErrors(t.render, dom, Matched(dom, container, cfg), cfg, silent);
      IndexedSize(m, s);
      ErrorPairsSnoc(dom, container, configs);
    }
  }

  /** The error pairs of a config list are those of its prefix plus the last config's, tagged with its index. */
  lemma ErrorPairsSnoc(dom: Dom, container: Element, configs: seq<Config>)
    requires |configs| > 0
    ensures var m := |configs| - 1;
      var s := ErrorIndices(dom, Matched(dom, container, configs[m]), configs[m]);
      && ErrorPairs(dom, container, configs) == ErrorPairs(dom, container, configs[..m]) + Indexed(m, s)
      && ErrorPairs(dom, container, configs[..m]) !! Indexed(m, s)
  {
    var m := |configs| - 1;
    var pre := configs[..m];
    forall i: nat | i < m
      ensures pre[i] == configs[i]
    {
    }
  }

  /**
   * The count does not depend on what the page showed before, nor on
   * whether the check was silent: rendering never feeds back into a verdict.
   */
  lemma CountIgnoresRendering(st: RenderState, st': RenderState, dom: Dom, container: Element, configs: seq<Config>, silent: bool, silent': bool)
    ensures CheckAllValidations(st, dom, container, configs, silent).errors
         == CheckAllValidations(st', dom, container, configs, silent').errors
  {
    CheckAllCountsErrorPairs(st, dom, container, configs, silent);
    CheckAllCountsErrorPairs(st', dom, container, configs, silent');
  }

  /** The highlights `hideError` removes for the elements of `items` under `cfg`. */
  function ItemMarks(dom: Dom, items: seq<Element>, cfg: Config): set<(Element, string)> {
    set x, m | x in items && m in Marks(dom, x, cfg) :: m
  }

  /** The elements whose tooltips `hideError` destroys: all of `items` when a tooltip config is present. */
  function ItemTips(items: seq<Element>, cfg: Config): set<Element> {
    if cfg.tooltip then set x | x in items else {}
  }

  lemma ItemsSnoc(dom: Dom, items: seq<Element>, cfg: Config)
    requires |items| > 0
    ensures var pre, last := items[..|items| - 1], items[|items| - 1];
      && ItemMarks(dom, items, cfg) == ItemMarks(dom, pre, cfg) + Marks(dom, last, cfg)
      && ItemTips(items, cfg) == ItemTips(pre, cfg) + (if cfg.tooltip then {last} else {})
  {
    var pre, last := items[..|items| - 1], items[|items| - 1];
    assert forall x :: x in items <==> x in pre || x == last;
  }

  /**
   * The hiding pass of `reset` over one config's matched elements: exactly
   * their marks are removed, and exactly their tooltips when a tooltip
   * config is present; every other highlight and tooltip stays.
   */
  function ResetItems(st: RenderState, dom: Dom, items: seq<Element>, cfg: Config): (r: RenderState)
    ensures r.highlighted == st.highlighted - ItemMarks(dom, items, cfg)
    ensures r.tooltips == st.tooltips - ItemTips(items, cfg)
    decreases |items|
  {
    if |items| == 0 then
      assert ItemTips(items, cfg) == {};
      st
    else
      ItemsSnoc(dom, items, cfg);
      HideError(ResetItems(st, dom, items[..|items| - 1], cfg), dom, items[|items| - 1], cfg)
  }

  /** Every highlight `reset` removes for one container: the marks of every config's matched elements. */
  function ConfigMarks(dom: Dom, container: Element, configs: seq<Config>): set<(Element, string)> {
    set i, m | 0 <= i < |configs| && m in ItemMarks(dom, Matched(dom, container, configs[i]), configs[i]) :: m
  }

  /** Every tooltip `reset` destroys for one container. */
  function ConfigTips(dom: Dom, container: Element, configs: seq<Config>): set<Element> {
    set i, x | 0 <= i < |configs| && x in ItemTips(Matched(dom, container, configs[i]), configs[i]) :: x
  }

  lemma ConfigsSnoc(dom: Dom, container: Element, configs: seq<Config>)
    requires |configs| > 0
    ensures var pre, cfg := configs[..|configs| - 1], configs[|configs| - 1];
      && ConfigMarks(dom, container, configs) == ConfigMarks(dom, container, pre) + ItemMarks(dom, Matched(dom, container, cfg), cfg)
      && ConfigTips(dom, container, configs) == ConfigTips(dom, container, pre) + ItemTips(Matched(dom, container, cfg), cfg)
  {
    var n := |configs| - 1;
    assert forall i :: 0 <= i < n ==> configs[..n][i] == configs[i];
  }

  /**
   * `reset` for one container: exactly the marks and tooltips of the
   * elements some stored config matches are removed; nothing else on the
   * page changes.
   */
  function ResetAll(st: RenderState, dom: Dom, container: Element, configs: seq<Config>): (r: RenderState)
    ensures r.highlighted == st.highlighted - ConfigMarks(dom, container, configs)
    ensures r.tooltips == st.tooltips - ConfigTips(dom, container, configs)
    decreases |configs|
  {
    if |configs| == 0 then
      assert ConfigMarks(dom, container, configs) == {};
      assert ConfigTips(dom, container, configs) == {};
      st
    else
      ConfigsSnoc(dom, container, configs);
      var pre := ResetAll(st, dom, container, configs[..|configs| - 1]);
      var cfg := configs[|configs| - 1];
      ResetItems(pre, dom, Matched(dom, container, cfg), cfg)
  }

  /**
   * After `reset` of a container, no element any stored config matches is
   * highlighted by that config's mark, nor, with a tooltip config, shows a
   * tooltip.
   */
  lemma ResetClearsMatched(st: RenderState, dom: Dom, container: Element, configs: seq<Config>, i: nat, k: nat)
    requires i < |configs| && k < |Matched(dom, container, configs[i])|
    ensures var r, cfg := ResetAll(st, dom, container, configs), configs[i];
      && Marks(dom, Matched(dom, container, cfg)[k], cfg) !! r.highlighted
      && (cfg.tooltip ==> Matched(dom, container, cfg)[k] !in r.tooltips)
  {
  }

  /** Two configs that differ at most in their rules and messages. */
  predicate SameButRules(a: Config, b: Config) {
    a.selector == b.selector && a.tooltip == b.tooltip && a.highlight == b.highlight
  }

  /** Two documents that differ at most in their fields' values. */
  ghost predicate SameButValues(d: Dom, d': Dom) {
    d.find == d'.find && d.closest == d'.closest
  }

  /**
   * `reset` evaluates no predicate: changing every config's rules and
   * messages, and every field's value, does not change what it leaves.
   */
  lemma {:induction false} ResetIgnoresRules(st: RenderState, dom: Dom, dom': Dom, container: Element, configs: seq<Config>, configs': seq<Config>)
    requires SameButValues(dom, dom')
    requires |configs| == |configs'|
    requires forall i :: 0 <= i < |configs| ==> SameButRules(configs[i], configs'[i])
    ensures ResetAll(st, dom, container, configs) == ResetAll(st, dom', container, configs')
    decreases |configs|
  {
    if |configs| > 0 {
      var m := |configs| - 1;
      ResetIgnoresRules(st, dom, dom', container, configs[..m], configs'[..m]);
      var pre := ResetAll(st, dom, container, configs[..m]);
      ResetItemsIgnoresRules(pre, dom, dom', Matched(dom, container, configs[m]), configs[m], configs'[m]);
    }
  }

  lemma {:induction false} ResetItemsIgnoresRules(st: RenderState, dom: Dom, dom': Dom, items: seq<Element>, cfg: Config, cfg': Config)
    requires SameButValues(dom, dom')
    requires SameButRules(cfg, cfg')
    ensures ResetItems(st, dom, items, cfg) == ResetItems(st, dom', items, cfg')
    decreases |items|
  {
    if |items| > 0 {
      ResetItemsIgnoresRules(st, dom, dom', items[..|items| - 1], cfg, cfg');
    }
  }
}

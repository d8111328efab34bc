/**
 * Validation rules and the short-circuit evaluation of an ordered rule list
 * (`checkValidations` without its rendering side effects).
 */
module Rules {
  import opened Wrappers
  import opened Document

  /**
   * A JavaScript value as far as the engine inspects one: it tests a
   * validator's result for truthiness (`!valid`) and, separately, for
   * being exactly `true` (`valid === true`).
   */
  datatype JsValue = JsTrue | JsFalse | Undefined | OtherTruthy | OtherFalsy {
    predicate Truthy() {
      JsTrue? || OtherTruthy?
    }
  }

  /**
   * One entry of a config's `validations` list: either the name of a
   * method in the built-in table or an inline `{validator, message}`
   * object. `message` is `None` when the object carries none.
   */
  datatype Rule =
    | Named(name: string)
    | Custom(validator: Element -> JsValue, message: Option<string>)

  /** The built-in method table holds exactly one method, `required`. */
  predicate Registered(name: string) {
    name == "required"
  }

  /** A rule the evaluator runs; every other rule is skipped silently. */
  predicate Resolvable(r: Rule) {
    (r.Named? && Registered(r.name)) || r.Custom?
  }

  /** The `required` method: the field's value is non-empty (`!!$el.val()`). */
  function Required(dom: Dom, el: Element): (v: JsValue)
    ensures v.Truthy() <==> dom.value(el) != ""
    ensures v == JsTrue || v == JsFalse
  {
    if dom.value(el) != "" then JsTrue else JsFalse
  }

  /** Invokes the predicate a resolvable rule stands for. */
  function Run(r: Rule, dom: Dom, el: Element): JsValue
    requires Resolvable(r)
  {
    if r.Custom? then r.validator(el) else Required(dom, el)
  }

  /** Rule `i` is resolvable and its predicate returns a falsy value. */
  predicate FailsAt(rules: seq<Rule>, dom: Dom, el: Element, i: int) {
    0 <= i < |rules| && Resolvable(rules[i]) && !Run(rules[i], dom, el).Truthy()
  }

  /**
   * What one pass over a rule list produced: the final value of `valid`,
   * the index of the rule that stopped the pass (if any), and the indices
   * of the rules whose predicate was invoked, in invocation order.
   */
  datatype Evaluation = Evaluation(verdict: JsValue, failedAt: Option<nat>, invoked: seq<nat>)

  /** One past the last index the pass looked at. */
  function Stop(rules: seq<Rule>, e: Evaluation): int {
    if e.failedAt.Some? then e.failedAt.value + 1 else |rules|
  }

  predicate Increasing(s: seq<nat>) {
    forall a, b :: 0 <= a < b < |s| ==> s[a] < s[b]
  }

  /**
   * The pass over `rules[i..]` when `valid` currently holds `valid`:
   * skip unresolvable rules, run the others in order, stop at the first
   * falsy result.
   */
  function EvalFrom(rules: seq<Rule>, dom: Dom, el: Element, i: nat, valid: JsValue): (e: Evaluation)
    requires i <= |rules|
    ensures e.failedAt.Some? ==> i <= e.failedAt.value < |rules|
    ensures |e.invoked| <= |rules| - i
    decreases |rules| - i
  {
    if i == |rules| then
      Evaluation(valid, None, [])
    else if Resolvable(rules[i]) then
      var v := Run(rules[i], dom, el);
      if !v.Truthy() then
        Evaluation(v, Some(i), [i])
      else
        var rest := EvalFrom(rules, dom, el, i + 1, v);
        rest.(invoked := [i] + rest.invoked)
    else
      EvalFrom(rules, dom, el, i + 1, valid)
  }

  /** A pass from `i` stops at the first failing rule at or after `i`, and only there. */
  lemma {:induction false} StopsAtFirstFailure(rules: seq<Rule>, dom: Dom, el: Element, i: nat, valid: JsValue)
    requires i <= |rules|
    ensures var e := EvalFrom(rules, dom, el, i, valid);
      && (e.failedAt.Some? ==> i <= e.failedAt.value && FailsAt(rules, dom, el, e.failedAt.value))
      && (forall j :: i <= j && FailsAt(rules, dom, el, j) ==> e.failedAt.Some? && e.failedAt.value <= j)
    decreases |rules| - i
  {
    if i < |rules| && Resolvable(rules[i]) {
      var v := Run(rules[i], dom, el);
      if v.Truthy() {
        StopsAtFirstFailure(rules, dom, el, i + 1, v);
      }
    } else if i < |rules| {
      StopsAtFirstFailure(rules, dom, el, i + 1, valid);
    }
  }

  /** Every invoked rule is resolvable and lies between `i` and the stopping rule. */
  lemma {:induction false} InvokedWithinPass(rules: seq<Rule>, dom: Dom, el: Element, i: nat, valid: JsValue)
    requires i <= |rules|
    ensures var e := EvalFrom(rules, dom, el, i, valid);
      && Stop(rules, e) <= |rules|
      && (forall n :: 0 <= n < |e.invoked| ==> i <= e.invoked[n] < Stop(rules, e) && Resolvable(rules[e.invoked[n]]))
    decreases |rules| - i
  {
    if i < |rules| && Resolvable(rules[i]) {
      var v := Run(rules[i], dom, el);
      if v.Truthy() {
        InvokedWithinPass(rules, dom, el, i + 1, v);
        StopsAtFirstFailure(rules, dom, el, i + 1, v);
        var rest := EvalFrom(rules, dom, el, i + 1, v);
        var e := EvalFrom(rules, dom, el, i, valid);
        assert forall n :: 0 < n < |e.invoked| ==> e.invoked[n] == rest.invoked[n - 1];
      }
    } else if i < |rules| {
      InvokedWithinPass(rules, dom, el, i + 1, valid);
    }
  }

  /** Rules are invoked in their declared order. */
  lemma {:induction false} InvokedInOrder(rules: seq<Rule>, dom: Dom, el: Element, i: nat, valid: JsValue)
    requires i <= |rules|
    ensures Increasing(EvalFrom(rules, dom, el, i, valid).invoked)
    decreases |rules| - i
  {
    if i < |rules| && Resolvable(rules[i]) {
      var v := Run(rules[i], dom, el);
      if v.Truthy() {
        InvokedInOrder(rules, dom, el, i + 1, v);
        InvokedWithinPass(rules, dom, el, i + 1, v);
        var rest := EvalFrom(rules, dom, el, i + 1, v);
        var e := EvalFrom(rules, dom, el, i, valid);
        assert forall n :: 0 < n < |e.invoked| ==> e.invoked[n] == rest.invoked[n - 1];
      }
    } else if i < |rules| {
      InvokedInOrder(rules, dom, el, i + 1, valid);
    }
  }

  /** Every resolvable rule from `i` up to the stopping rule was invoked. */
  lemma {:induction false} PassInvokesAll(rules: seq<Rule>, dom: Dom, el: Element, i: nat, valid: JsValue)
    requires i <= |rules|
    ensures var e := EvalFrom(rules, dom, el, i, valid);
      forall k :: i <= k < Stop(rules, e) && k < |rules| && Resolvable(rules[k]) ==> k in e.invoked
    decreases |rules| - i
  {
    if i < |rules| && Resolvable(rules[i]) {
      var v := Run(rules[i], dom, el);
      if v.Truthy() {
        PassInvokesAll(rules, dom, el, i + 1, v);
      }
    } else if i < |rules| {
      PassInvokesAll(rules, dom, el, i + 1, valid);
    }
  }

  /** `valid` ends as the last invoked predicate's value, or unchanged when none was invoked. */
  lemma {:induction false} VerdictOfPass(rules: seq<Rule>, dom: Dom, el: Element, i: nat, valid: JsValue)
    requires i <= |rules|
    ensures var e := EvalFrom(rules, dom, el, i, valid);
      && (e.failedAt.Some? ==> |e.invoked| > 0 && e.invoked[|e.invoked| - 1] == e.failedAt.value)
      && (|e.invoked| == 0 ==> e.verdict == valid)
      && (|e.invoked| > 0 ==>
            (e.invoked[|e.invoked| - 1] < |rules| && Resolvable(rules[e.invoked[|e.invoked| - 1]])
             && e.verdict == Run(rules[e.invoked[|e.invoked| - 1]], dom, el)))
      && (e.failedAt.None? && |e.invoked| > 0 ==> e.verdict.Truthy())
    decreases |rules| - i
  {
    if i < |rules| && Resolvable(rules[i]) {
      var v := Run(rules[i], dom, el);
      if v.Truthy() {
        VerdictOfPass(rules, dom, el, i + 1, v);
        var rest := EvalFrom(rules, dom, el, i + 1, v);
        var e := EvalFrom(rules, dom, el, i, valid);
        assert e.invoked == [i] + rest.invoked;
      }
    } else if i < |rules| {
      VerdictOfPass(rules, dom, el, i + 1, valid);
    }
  }

  /** The pass `checkValidations` makes over a rule list, starting with `valid` undefined. */
  function Evaluate(rules: seq<Rule>, dom: Dom, el: Element): (e: Evaluation)
    ensures e.failedAt.Some? ==> e.failedAt.value < |rules|
    ensures |e.invoked| <= |rules|
  {
    EvalFrom(rules, dom, el, 0, Undefined)
  }

  /**
   * The pass stops at the first failing rule and at no other; no rule after
   * it is invoked; every resolvable rule before it is invoked, in declared
   * order; and the verdict is the last invoked predicate's value, or
   * undefined when no rule was invoked at all.
   */
  lemma EvaluateSpec(rules: seq<Rule>, dom: Dom, el: Element)
    ensures var e := Evaluate(rules, dom, el);
      && (e.failedAt.Some? ==>
            FailsAt(rules, dom, el, e.failedAt.value)
            && forall j :: 0 <= j < e.failedAt.value ==> !FailsAt(rules, dom, el, j))
      && (e.failedAt.None? <==> forall j :: 0 <= j < |rules| ==> !FailsAt(rules, dom, el, j))
      && Stop(rules, e) <= |rules|
      && (forall n :: 0 <= n < |e.invoked| ==> e.invoked[n] < Stop(rules, e) && Resolvable(rules[e.invoked[n]]))
      && (forall k :: 0 <= k < Stop(rules, e) && Resolvable(rules[k]) ==> k in e.invoked)
      && Increasing(e.invoked)
      && (e.failedAt.Some? ==> !e.verdict.Truthy())
      && (e.failedAt.None? ==> (e.verdict.Truthy() <==> |e.invoked| > 0))
      && (|e.invoked| == 0 ==> e.verdict == Undefined)
      && (|e.invoked| > 0 ==> e.verdict == Run(rules[e.invoked[|e.invoked| - 1]], dom, el))
  {
    StopsAtFirstFailure(rules, dom, el, 0, Undefined);
    InvokedWithinPass(rules, dom, el, 0, Undefined);
    InvokedInOrder(rules, dom, el, 0, Undefined);
    PassInvokesAll(rules, dom, el, 0, Undefined);
    VerdictOfPass(rules, dom, el, 0, Undefined);
  }

  /** The element passes: `valid === true`, the only case that clears an error. */
  predicate Passes(rules: seq<Rule>, dom: Dom, el: Element) {
    Evaluate(rules, dom, el).verdict == JsTrue
  }

  /** The element counts as an error: the final `valid` is falsy. */
  predicate Invalid(rules: seq<Rule>, dom: Dom, el: Element) {
    !Evaluate(rules, dom, el).verdict.Truthy()
  }

  /**
   * A list in which no rule resolves leaves `valid` undefined: the element
   * neither passes nor fails a rule, yet it counts as an error.
   */
  lemma NoResolvableRuleIsNoVerdict(rules: seq<Rule>, dom: Dom, el: Element)
    requires forall k :: 0 <= k < |rules| ==> !Resolvable(rules[k])
    ensures Evaluate(rules, dom, el) == Evaluation(Undefined, None, [])
    ensures !Passes(rules, dom, el) && Invalid(rules, dom, el)
  {
    EvaluateSpec(rules, dom, el);
  }

  /** Where the stopping index of a pass moves when a rule is inserted at `at`. */
  function Shifted(failedAt: Option<nat>, at: nat): Option<nat> {
    if failedAt.Some? && failedAt.value >= at then Some(failedAt.value + 1) else failedAt
  }

  /** `rules` with `r` inserted at position `at`. */
  function Insert(rules: seq<Rule>, at: nat, r: Rule): (rules': seq<Rule>)
    requires at <= |rules|
    ensures |rules'| == |rules| + 1
  {
    rules[..at] + [r] + rules[at..]
  }

  /** Where an index of the original list sits in the longer one. */
  lemma InsertIndex(rules: seq<Rule>, at: nat, r: Rule, k: nat)
    requires at <= |rules| && k < |rules|
    ensures k < at ==> Insert(rules, at, r)[k] == rules[k]
    ensures k >= at ==> Insert(rules, at, r)[k + 1] == rules[k]
  {
  }

  /**
   * Inserting a rule that does not resolve, at any position, changes
   * neither the verdict nor which rule stops the pass (its index only
   * shifts past the insertion point).
   */
  lemma {:induction false} UnresolvableRuleIsSkipped(rules: seq<Rule>, dom: Dom, el: Element, at: nat, r: Rule, i: nat, valid: JsValue)
    requires !Resolvable(r)
    requires i <= at <= |rules|
    ensures EvalFrom(Insert(rules, at, r), dom, el, i, valid).verdict == EvalFrom(rules, dom, el, i, valid).verdict
    ensures EvalFrom(Insert(rules, at, r), dom, el, i, valid).failedAt == Shifted(EvalFrom(rules, dom, el, i, valid).failedAt, at)
    decreases |rules| - i
  {
    var rules' := Insert(rules, at, r);
    if i == at {
      ShiftedSuffix(rules, dom, el, at, r, i + 1, valid);
    } else {
      InsertIndex(rules, at, r, i);
      if Resolvable(rules[i]) && Run(rules[i], dom, el).Truthy() {
        UnresolvableRuleIsSkipped(rules, dom, el, at, r, i + 1, Run(rules[i], dom, el));
      } else if !Resolvable(rules[i]) {
        UnresolvableRuleIsSkipped(rules, dom, el, at, r, i + 1, valid);
      }
    }
  }

  /** Past the inserted rule, the pass over the longer list is the pass over the original, shifted by one. */
  lemma {:induction false} ShiftedSuffix(rules: seq<Rule>, dom: Dom, el: Element, at: nat, r: Rule, j: nat, valid: JsValue)
    requires at < j <= |rules| + 1
    ensures EvalFrom(Insert(rules, at, r), dom, el, j, valid).verdict == EvalFrom(rules, dom, el, j - 1, valid).verdict
    ensures EvalFrom(Insert(rules, at, r), dom, el, j, valid).failedAt == Shifted(EvalFrom(rules, dom, el, j - 1, valid).failedAt, at)
    decreases |rules| + 1 - j
  {
    var rules' := Insert(rules, at, r);
    if j <= |rules| {
      InsertIndex(rules, at, r, j - 1);
      if Resolvable(rules[j - 1]) && Run(rules[j - 1], dom, el).Truthy() {
        ShiftedSuffix(rules, dom, el, at, r, j + 1, Run(rules[j - 1], dom, el));
      } else if !Resolvable(rules[j - 1]) {
        ShiftedSuffix(rules, dom, el, at, r, j + 1, valid);
      }
    }
  }

  /** The same fact for whole passes, as `checkValidations` starts them. */
  lemma UnresolvableRuleChangesNothing(rules: seq<Rule>, dom: Dom, el: Element, at: nat, r: Rule)
    requires !Resolvable(r)
    requires at <= |rules|
    ensures Evaluate(Insert(rules, at, r), dom, el).verdict == Evaluate(rules, dom, el).verdict
    ensures Evaluate(Insert(rules, at, r), dom, el).failedAt == Shifted(Evaluate(rules, dom, el).failedAt, at)
  {
    UnresolvableRuleIsSkipped(rules, dom, el, at, r, 0, Undefined);
  }
}

# A Dafny model of the jQuery validator plugin

The plugin lives in `vendor/assets/bower_components/validator/validator.js`. It lets a page bind
rule-set configurations to container elements (`init`). On a trigger event it checks the element
that fired against the config that owns it. On demand it checks every governed element (`check`,
`hasErrors`) or clears what is shown (`reset`). A failing element gets a highlight class on its
form group and a tooltip with a message.

This project models that core with immutable data and pure functions:

- `Rules` (rules.dfy): a rule is a registry name or an inline `{validator, message}` object.
  `checkValidations` makes a short-circuit pass over an ordered rule list. Validator results are
  JavaScript values. The plugin tests them in two ways: for truthiness (`!valid`) and for being
  exactly `true` (`valid === true`).
- `Options` (options.dfy): the `defaults` object, the partial configs a caller passes to `init`,
  their deep merge over the defaults, and the check that the argument is an array.
- `Render` (render.dfy): `getAttached`, `showError` and `hideError`. These cover the highlight
  target, the message precedence, and the visible page state. That state is a set of
  (element, class) highlights plus a map from element to shown tooltip message.
- `Check` (check.dfy): `checkValidations` with its rendering effects, written once as a function
  and once as the loop with `break`; `checkAllValidations`; and the hiding pass of `reset`.
- `Ids` (ids.dfy): `generateUniqueId` and the key the config store is indexed by.
- `Engine` (engine.dfy): the plugin's process-wide state (`cachedOptions`, `uniqueIds`, the
  `validator-uid` tags, the page), together with `init`, `check`, `hasErrors` and `reset`.
- `Dispatch` (dispatch.dfy): the delegated handler `setupValidations` installs. It evaluates only
  the first config that owns the element that fired.

The document is a parameter (`Document.Dom`), not a model of HTML:
- `find(container, selector)` is the ordered list of matched elements;
- `closest(element, selector)` is the nearest matching ancestor-or-self;
- `value(element)` is the field's value.

`Math.random()` draws are a parameter too: a sequence of reals in [0, 1).

## Model

| member | source | states |
|---|---|---|
| Rules.Required | vendor/assets/bower_components/validator/validator.js:23-31 | the `required` method returns a boolean that is true exactly when the field's value is non-empty |
| Rules.EvalFrom | vendor/assets/bower_components/validator/validator.js:103-118 | the short-circuit pass from rule i on: it can stop only at a rule at or after i, and it invokes at most one predicate per remaining rule; the rest of its behaviour is stated by the lemmas below |
| Rules.Evaluate | vendor/assets/bower_components/validator/validator.js:101-118 | the whole pass, starting with `valid` undefined: it can stop only at a rule of the list and invokes at most one predicate per rule; characterised fully by `Rules.EvaluateSpec` |
| Rules.StopsAtFirstFailure | vendor/assets/bower_components/validator/validator.js:103-118 | a pass stops at a rule only if it resolves and returns a falsy value, and it stops no later than the first such rule |
| Rules.InvokedWithinPass | vendor/assets/bower_components/validator/validator.js:103-118 | only resolvable rules are invoked, and none after the rule that stopped the pass |
| Rules.InvokedInOrder | vendor/assets/bower_components/validator/validator.js:103-104 | rules are invoked in their declared order, each at most once |
| Rules.PassInvokesAll | vendor/assets/bower_components/validator/validator.js:103-118 | every resolvable rule before the stopping point is invoked |
| Rules.VerdictOfPass | vendor/assets/bower_components/validator/validator.js:102-117 | `valid` ends as the value of the last invoked predicate, or keeps its prior value if none ran; a pass that was not stopped ends truthy if anything ran |
| Rules.EvaluateSpec | vendor/assets/bower_components/validator/validator.js:101-122 | for the whole pass, starting with `valid` undefined: it stops at the first failing rule and nowhere else; it stops nowhere iff no rule fails; invoked rules are exactly the resolvable ones up to that point, in order; the verdict is the last invoked value, and undefined when nothing ran |
| Rules.NoResolvableRuleIsNoVerdict | vendor/assets/bower_components/validator/validator.js:101-122 | when no rule resolves, nothing is invoked, the verdict stays undefined, the element does not pass, and it counts as invalid |
| Rules.UnresolvableRuleIsSkipped | vendor/assets/bower_components/validator/validator.js:105-117 | from any start before the insertion point, inserting a rule that is neither registered nor an object keeps the verdict and only shifts the stopping index |
| Rules.ShiftedSuffix | vendor/assets/bower_components/validator/validator.js:105-117 | past an inserted unresolvable rule, the longer list's pass matches the original's pass with indices shifted by one |
| Rules.UnresolvableRuleChangesNothing | vendor/assets/bower_components/validator/validator.js:101-118 | a whole pass over a list with an unresolvable rule inserted anywhere has the same verdict, and the same failing rule, as the pass without it |
| Options.Overlay | vendor/assets/bower_components/validator/validator.js:196 | a deep extend of an array of strings (the defaults' `triggers` and `validations`) by an array overwrites index by index and keeps the base's longer tail |
| Options.MergeHighlight | vendor/assets/bower_components/validator/validator.js:196 | each highlight field the partial sets wins; each one it omits keeps the default |
| Options.Merge | vendor/assets/bower_components/validator/validator.js:195-196 | merging over the defaults: a partial's fields win; omitted fields keep the defaults; messages are merged key by key with the partial winning; `triggers` and `validations` are the defaults' arrays overlaid by the partial's (`Overlay`); the highlight is the field-wise merge `MergeHighlight` |
| Options.Resolve | vendor/assets/bower_components/validator/validator.js:180-201 | fails iff the argument is a truthy non-array; a missing or empty argument gives `[defaults]`; N partials give N configs, config i being partial i merged over the defaults |
| Options.NoLeakBetweenPartials | vendor/assets/bower_components/validator/validator.js:193-200 | config i depends on partial i alone: argument lists that agree at i resolve to the same config at i |
| Options.EmptyPartialIsDefaults | vendor/assets/bower_components/validator/validator.js:195-196 | merging a partial that sets nothing gives the defaults unchanged |
| Options.MergeKeepsDefaultMessages | vendor/assets/bower_components/validator/validator.js:6-9 | every merged config still has the `required` and `base` messages; `base` keeps the default text unless the partial overrides it |
| Options.EmptyArraysKeepDefaults | vendor/assets/bower_components/validator/validator.js:195-196 | an empty `validations` or `triggers` array in a partial does not clear the defaults' entries |
| Options.DefaultRulesRequireValue | vendor/assets/bower_components/validator/validator.js:2-21 | the `defaults` object governs `input[required]` on `blur` with the `required` rule alone: under it a field passes iff its value is non-empty, counts as invalid iff it is empty, and an empty field stops the pass at that first rule |
| Render.AttachTarget | vendor/assets/bower_components/validator/validator.js:45-55 | no target unless highlighting is active; the element itself for `self`; otherwise its closest match for `attachTo` |
| Render.Marks | vendor/assets/bower_components/validator/validator.js:60-63 | the class is applied to at most one element, and to exactly the attach target if there is one; the only class applied is the config's `className` |
| Render.ErrorMessage | vendor/assets/bower_components/validator/validator.js:65-76 | the inline message if the rule is an object that has one; else a non-empty `messages[name]`; else `messages.base` if present; else the empty string |
| Render.ShowError | vendor/assets/bower_components/validator/validator.js:57-84 | adds exactly the element's mark; if a tooltip config is present, shows the chosen message on that element; changes no other tooltip |
| Render.HideError | vendor/assets/bower_components/validator/validator.js:86-99 | removes exactly the element's mark; if a tooltip config is present, removes that element's tooltip; adds nothing and changes no other tooltip |
| Render.HideUndoesShow | vendor/assets/bower_components/validator/validator.js:57-99 | hiding after showing leaves the page as hiding alone would |
| Render.ShowIdempotent | vendor/assets/bower_components/validator/validator.js:57-84 | showing the same error twice equals showing it once |
| Render.HideIdempotent | vendor/assets/bower_components/validator/validator.js:86-99 | hiding twice equals hiding once, and hiding on a clear page changes nothing |
| Render.DefaultShowsRequiredMessage | vendor/assets/bower_components/validator/validator.js:2-21 | with the defaults, a failing `required` rule highlights the field's `.form-group` with `has-error` and shows "This field is required"; hiding removes that highlight |
| Check.CheckOne | vendor/assets/bower_components/validator/validator.js:101-123 | returns the pass's verdict; silent never changes the page; otherwise the first failing rule's error is shown, a verdict of exactly `true` hides the error, and any other outcome leaves the page as it was |
| Check.CheckValidations | vendor/assets/bower_components/validator/validator.js:101-123 | the loop with `break`, as written, returns the same verdict and leaves the same page as `CheckOne` |
| Check.CheckOneIdempotent | vendor/assets/bower_components/validator/validator.js:101-123 | checking an element twice in a row leaves the page as checking it once |
| Check.CheckItems | vendor/assets/bower_components/validator/validator.js:136-139 | a silent pass leaves the page untouched, and the count never exceeds the number of matched elements |
| Check.CheckAllValidations | vendor/assets/bower_components/validator/validator.js:125-144 | a silent pass over all configs leaves the page untouched |
| Check.CheckItemsCountsErrors | vendor/assets/bower_components/validator/validator.js:136-139 | the count over one config's matched elements is the number of positions whose verdict is falsy |
| Check.CheckAllCountsErrorPairs | vendor/assets/bower_components/validator/validator.js:125-144 | the count for a container is the number of (config, matched element) pairs whose verdict is falsy |
| Check.CountIgnoresRendering | vendor/assets/bower_components/validator/validator.js:125-144 | the count depends neither on the page shown before nor on `silent` |
| Check.ResetItems | vendor/assets/bower_components/validator/validator.js:234-236 | exactly the marks of the matched elements are removed, and exactly their tooltips when a tooltip config is present; every other highlight and tooltip stays |
| Check.ResetAll | vendor/assets/bower_components/validator/validator.js:232-238 | for one container, exactly the marks and tooltips of the elements some stored config matches are removed; nothing else on the page changes |
| Check.ResetClearsMatched | vendor/assets/bower_components/validator/validator.js:232-238 | after `reset` of a container, no matched element carries its config's mark, nor, with a tooltip config, a tooltip |
| Check.ResetIgnoresRules | vendor/assets/bower_components/validator/validator.js:222-240 | `reset` evaluates no predicate: configs that differ only in rules and messages, on pages that differ only in values, leave the same result |
| Check.ResetItemsIgnoresRules | vendor/assets/bower_components/validator/validator.js:234-236 | the same, for one config's matched elements |
| Ids.Scale | vendor/assets/bower_components/validator/validator.js:39 | a draw in [0, 1) gives an id in [0, 1000000000) |
| Ids.StringKey | vendor/assets/bower_components/validator/validator.js:185 | the store key as written is the selector followed by the decimal text of the id, so the selector is a proper prefix of the key |
| Ids.GenerateUniqueId | vendor/assets/bower_components/validator/validator.js:36-43 | returns the first drawn id not yet issued, in range, and appends it; an issued list without duplicates stays without duplicates; `None` only if every given draw was already issued |
| Ids.DecimalStringInjective | vendor/assets/bower_components/validator/validator.js:185 | different ids have different decimal texts |
| Ids.SameSelectorKeysDiffer | vendor/assets/bower_components/validator/validator.js:185 | under one selector, the string key `selector + uid` separates distinct ids |
| Ids.StringKeysCollide | vendor/assets/bower_components/validator/validator.js:185 | across selectors it does not: ("a1", 23) and ("a12", 3) both give "a123" |
| Engine.TagAll | vendor/assets/bower_components/validator/validator.js:186-187 | every container of the call is tagged with the id; other tags are untouched |
| Engine.Lookup | vendor/assets/bower_components/validator/validator.js:175-177 | a container's configs are the store entry under (selector, its tag); a missing tag or entry is an `Unbound` error |
| Engine.Bind | vendor/assets/bower_components/validator/validator.js:186-200 | the effect of `init` on every container: each is tagged with the id; the (selector, id) entry holds the configs when any container was given; every other tag and every other store entry is unchanged; ids and page are untouched |
| Engine.Init | vendor/assets/bower_components/validator/validator.js:180-201 | a non-array argument fails before an id is drawn; otherwise the id appended is the first draw not yet issued, and the call fails for lack of draws only when every given draw was already issued; the new id is fresh and in range, every container is bound to the resolved configs under it, and the state invariant is preserved |
| Engine.BindKeepsOtherBindings | vendor/assets/bower_components/validator/validator.js:185-200 | binding under a fresh id keeps every earlier store entry unchanged and adds the new one under a new key |
| Engine.EarlierBindingSurvives | vendor/assets/bower_components/validator/validator.js:185-200 | with (selector, id) keys, a later binding under another id, whatever its selector, leaves an earlier container's configs in place |
| Engine.BoundContainersShareEntry | vendor/assets/bower_components/validator/validator.js:185-190 | all containers of one call carry the same id and look up the same configs |
| Engine.CheckContainers | vendor/assets/bower_components/validator/validator.js:204-212 | fails exactly when some container is unbound; a silent check leaves the page unchanged |
| Engine.CheckErrors | vendor/assets/bower_components/validator/validator.js:204-212 | `check`: fails exactly when some container is unbound; otherwise it leaves configs, ids and tags unchanged, and a silent check leaves the whole state as it was |
| Engine.HasErrors | vendor/assets/bower_components/validator/validator.js:213-221 | `hasErrors`: the same failure condition and frame as `check`; its answer is related to `check`'s count by `Engine.HasErrorsAgreesWithCheck` |
| Engine.HasErrorsAgreesWithCheck | vendor/assets/bower_components/validator/validator.js:204-221 | `hasErrors` fails exactly when `check` does; otherwise it answers `check`'s count > 0 and leaves the same state |
| Engine.CheckCountsAllErrorPairs | vendor/assets/bower_components/validator/validator.js:204-212 | `check`'s count is the sum over containers of their falsy (config, element) pairs |
| Engine.SilentCheckChangesNothing | vendor/assets/bower_components/validator/validator.js:204-212 | a silent `check` leaves the whole state as it was |
| Engine.ResetContainers | vendor/assets/bower_components/validator/validator.js:222-240 | fails exactly when some container is unbound; otherwise removes exactly the marks and tooltips of the elements the stored configs of the containers match, and nothing else |
| Engine.ResetContainersClearsMatched | vendor/assets/bower_components/validator/validator.js:222-240 | after `reset`, no element matched by a stored config of any container carries that config's mark, nor, with a tooltip config, a tooltip |
| Engine.Reset | vendor/assets/bower_components/validator/validator.js:222-240 | `reset` fails exactly when some container is unbound; otherwise it removes exactly the matched elements' highlights and tooltips and leaves configs, ids and tags unchanged |
| Engine.ResetThenCheckSameCount | vendor/assets/bower_components/validator/validator.js:204-240 | `check` after `reset` counts what `check` before it counts |
| Engine.EmptyFieldIsFlagged | vendor/assets/bower_components/validator/validator.js:204-212 | with the defaults, checking a form whose one required field is empty counts one error, highlights the group and shows the required message |
| Engine.FilledFieldIsCleared | vendor/assets/bower_components/validator/validator.js:204-212 | once the field has a value, checking counts no error and removes the group's highlight |
| Engine.RequiredFieldScenario | vendor/assets/bower_components/validator/validator.js:180-212 | `init` with no options, then `check` on an empty field and then on a filled one: one error and a highlight, then none and no highlight |
| Engine.StringKeyedStoreLosesBinding | vendor/assets/bower_components/validator/validator.js:185-209 | with string keys, binding ("a12", 3) after ("a1", 23) makes the lookup `check` performs for the first container return the second binding's configs; with pair keys, the same binds keep the first binding's configs |
| Engine.StringLookup | vendor/assets/bower_components/validator/validator.js:175-177 | as written, a container's configs are the store entry under the string `selector + uid` of its tag |
| Engine.StringBind | vendor/assets/bower_components/validator/validator.js:185-200 | as written, `init` tags every container with the id and stores the configs under the string `selector + uid`, leaving every other string key's entry unchanged |
| Dispatch.OwnerFrom | vendor/assets/bower_components/validator/validator.js:164-170 | finds the first config from position i whose matched set inside the delegate contains the item, or reports that there is none |
| Dispatch.Owner | vendor/assets/bower_components/validator/validator.js:164-170 | the owner is the first config, in stored order, that matches the item; there is no owner iff no config matches it |
| Dispatch.HandleTrigger | vendor/assets/bower_components/validator/validator.js:163-170 | the delegated handler: if no stored config matches the item inside the delegate, the page is unchanged |
| Dispatch.HandlerChecksFirstMatch | vendor/assets/bower_components/validator/validator.js:163-170 | when config i is the first that matches the item, the handler is a non-silent check of the item against config i and nothing else |
| Dispatch.OnlyOwnerIsEvaluated | vendor/assets/bower_components/validator/validator.js:163-170 | the handler acts as if only the owning config were stored; configs after the owner make no difference |
| Dispatch.HandleTriggerIdempotent | vendor/assets/bower_components/validator/validator.js:163-170 | running the handler twice leaves the page as running it once |
| Dispatch.FireFrom | vendor/assets/bower_components/validator/validator.js:161-171 | the first n listeners of one binding firing in turn: if none of them listens for the event on the item, the page is unchanged |
| Dispatch.FireEvent | vendor/assets/bower_components/validator/validator.js:161-171 | all listeners of one binding: if any listens for the event on the item, the page ends as after one run of the handler; if none does, it is unchanged |
| Dispatch.EventEvaluatesOwnerOnce | vendor/assets/bower_components/validator/validator.js:159-171 | however many of a binding's listeners fire for one event, the page ends as after one evaluation of the owner; if none fires, the page is unchanged |

## Left out

- Tooltip widget calls (lines 77-82, 93-97) and `setupTooltips` (146-157). These are foreign UI calls. A tooltip is modelled only as "shown with this message" or "destroyed". `tooltip` in a config records only whether a tooltip config is present.
- The select2 special-casing (25-26, 78-79, 93-94). It is a foreign widget. `required` reads the field's value directly.
- jQuery's `find`, `closest` and delegated `on`. These are the given `Dom` functions and the `Listens` predicate.
- `$.extend` details beyond a field-wise merge. `Merge` covers nested maps and arrays index by index. It does not cover `null` or `undefined` values inside a partial, non-plain objects, or a message map replaced by a non-object.
- The mutation of the shared `options.tooltip` by `$.extend` (77, 148) and the aliasing of the `defaults` object stored at 190. Neither affects the modelled state.
- `Math.random()` (39). Draws are a parameter. `Ids.GenerateUniqueId` returns `None`, and `Engine.Init` fails with `DrawsExhausted`, when the given draws hold no fresh id. The plugin would keep drawing; termination is not modelled.
- Listener accumulation when `init` runs again on the same container (162). Event wiring is modelled for one binding's listeners (`Dispatch.FireEvent`), not across repeated binds.
- The `$.fn.validate` method-name dispatch (242-250). It is plumbing around the public methods, which are modelled directly.
- `app/assets/javascripts/dispatcher/AppDispatcher.js`. It wraps a dispatcher library that is not part of this model.
- Rule names inherited through the prototype of `validationMethods` (such as `toString`), and `null` entries in `validations`, which would throw. Only `required` is registered.
- `triggers` given as a non-array, `triggers: false`, and event names joined with spaces. A listener fires when the event is one of the config's trigger names.
- `highlight.active` values other than booleans. `active` is a `bool`, and only `true` enables highlighting, as with `=== true`.
- `check`, `hasErrors` and `reset` on a container that was never bound. The plugin would throw on `undefined.selector` (128-129, 227-228) partway through its loop over containers, so the highlights and tooltips it already changed for earlier containers stay on the page. `Engine.CheckErrors`, `Engine.HasErrors` and `Engine.Reset` instead return a bare `Unbound` error and drop those partial effects; nothing is stated about the page after such a call.
- Options.Overlay: models a deep `$.extend` of arrays whose base entries are strings, the only case `init` produces, since it merges over the defaults alone. Over a plain-object entry jQuery merges key by key; `Overlay` and `Merge` do not model that case.
- `highlight.className` is treated as one class token: a mark is the pair (element, className). jQuery's `addClass` and `removeClass` (62, 89) split the name on spaces. So with one config using "has-error has-feedback" and another "has-error" on the same group, hiding the second would remove the shared `has-error` class from the page, while the model still shows the first config's mark.
- The non-array store branch (128-132, 227-230). `init` always stores an array, so that branch is unreachable.

## Findings

| source | as written | input that shows it | evidently intended | confidence | as-written member | corrected member |
|---|---|---|---|---|---|---|
| vendor/assets/bower_components/validator/validator.js:185 | the store key is the string concatenation `selector + uid` | `init` on selector "a1" that draws id 23, then `init` on selector "a12" that draws id 3: both keys are "a123", so the second binding overwrites the first binding's configs | each binding keeps its own entry; the id is unique, so keying by the (selector, id) pair separates every binding | not executed | Ids.StringKeysCollide, Engine.StringLookup, Engine.StringKeyedStoreLosesBinding | Engine.EarlierBindingSurvives, Engine.BindKeepsOtherBindings |

The rest of the model stores configs under `Ids.BindingKey(selector, uid)`. The as-written members above model the string key the code builds.

/**
 * The plugin's public methods over its process-wide state: `init` binds
 * configs to containers, `check` and `hasErrors` count errors, and `reset`
 * clears what is shown.
 */
module Engine {
  import opened Wrappers
  import opened Document
  import opened Rules
  import opened Options
  import opened Render
  import opened Check
  import opened Ids

  /**
   * The plugin's state: the config store (`cachedOptions`), the issued ids
   * (`uniqueIds`), the `validator-uid` tag of each bound container, and
   * what the page shows.
   */
  datatype State = State(
    store: map<BindingKey, seq<Config>>,
    issued: seq<nat>,
    tags: map<Element, nat>,
    render: RenderState)

  /** The state when the page loads. */
  const Initial: State := State(map[], [], map[], Clear)

  /** Every stored key and every container tag carries an id that was issued, and no id was issued twice. */
  predicate Valid(e: State) {
    && NoDuplicates(e.issued)
    && (forall k :: k in e.store ==> k.uid in e.issued)
    && (forall c :: c in e.tags ==> e.tags[c] in e.issued)
  }

  datatype EngineError =
    | OptionsNotArray          // `$.error('Options must be an array of items.')`
    | DrawsExhausted           // the given draws held no fresh id
    | Unbound(container: Element)  // no config stored for this container under this selector

  /** `$(this).data('validator-uid', uid)` for every container of the call. */
  function TagAll(tags: map<Element, nat>, containers: seq<Element>, uid: nat): (r: map<Element, nat>)
    ensures forall c :: c in containers ==> c in r && r[c] == uid
    ensures forall c :: c !in containers ==> (c in r <==> c in tags)
    ensures forall c :: c in tags && c !in containers ==> r[c] == tags[c]
  {
    map c | c in tags.Keys + (set x | x in containers) :: if c in containers then uid else tags[c]
  }

  /**
   * The state part of `init` once the id is issued: every container is
   * tagged with the one id, and the configs are stored under the one key
   * (selector, id) when there is at least one container.
   */
  function Bind(e: State, selector: string, containers: seq<Element>, configs: seq<Config>, uid: nat): (r: State)
    ensures r.issued == e.issued && r.render == e.render
    ensures forall c :: c in containers ==> c in r.tags && r.tags[c] == uid
    ensures forall c :: c !in containers ==> (c in r.tags <==> c in e.tags) && (c in e.tags ==> r.tags[c] == e.tags[c])
    ensures |containers| > 0 ==> BindingKey(selector, uid) in r.store && r.store[BindingKey(selector, uid)] == configs
    ensures forall k :: k != BindingKey(selector, uid) ==> (k in r.store <==> k in e.store)
    ensures forall k :: k != BindingKey(selector, uid) && k in e.store ==> r.store[k] == e.store[k]
    ensures |containers| == 0 ==> r.store == e.store
  {
    State(
      if |containers| > 0 then e.store[BindingKey(selector, uid) := configs] else e.store,
      e.issued,
      TagAll(e.tags, containers, uid),
      e.render)
  }

  /** The configs `check` and `reset` find for a container, or the container is unbound. */
  function Lookup(e: State, selector: string, c: Element): (r: Result<seq<Config>, EngineError>)
    ensures r.Success? <==> c in e.tags && BindingKey(selector, e.tags[c]) in e.store
    ensures r.Success? ==> r.value == e.store[BindingKey(selector, e.tags[c])]
    ensures r.Failure? ==> r.error == Unbound(c)
  {
    if c in e.tags && BindingKey(selector, e.tags[c]) in e.store then
      Success(e.store[BindingKey(selector, e.tags[c])])
    else
      Failure(Unbound(c))
  }

  /**
   * `init`: reject a non-array argument before anything else happens;
   * otherwise issue one fresh id and bind every container with it.
   */
  method Init(e: State, selector: string, containers: seq<Element>, arg: InitArg, draws: seq<real>)
    returns (r: Result<State, EngineError>)
    requires forall i :: 0 <= i < |draws| ==> IsDraw(draws[i])
    ensures arg.NonArray? <==> r == Failure(OptionsNotArray)
    ensures r.Failure? && !arg.NonArray? ==> r.error == DrawsExhausted
    ensures r == Failure(DrawsExhausted) ==> forall i :: 0 <= i < |draws| ==> Scale(draws[i]) in e.issued
    ensures r.Success? ==>
      && |r.value.issued| == |e.issued| + 1
      && exists i :: 0 <= i < |draws| && r.value.issued[|e.issued|] == Scale(draws[i])
           && forall j :: 0 <= j < i ==> Scale(draws[j]) in e.issued
    ensures r.Success? ==>
      && |r.value.issued| == |e.issued| + 1
      && r.value.issued[..|e.issued|] == e.issued
      && r.value.issued[|e.issued|] !in e.issued
      && r.value.issued[|e.issued|] < IdRange
      && r.value == Bind(e.(issued := r.value.issued), selector, containers, Resolve(arg).value, r.value.issued[|e.issued|])
    ensures Valid(e) && r.Success? ==> Valid(r.value)
  {
    var configs := Resolve(arg);
    if configs.Failure? {
      return Failure(OptionsNotArray);
    }
    var uid, issued' := GenerateUniqueId(e.issued, draws);
    if uid.None? {
      return Failure(DrawsExhausted);
    }
    assert issued'[..|e.issued|] == e.issued;
    r := Success(Bind(e.(issued := issued'), selector, containers, configs.value, uid.value));
  }

  /**
   * A fresh id never disturbs an earlier binding: every entry stored before
   * is still there, unchanged, and the new configs sit under the new key.
   */
  lemma BindKeepsOtherBindings(e: State, selector: string, containers: seq<Element>, configs: seq<Config>, uid: nat)
    requires Valid(e) && uid !in e.issued && |containers| > 0
    ensures var r := Bind(e, selector, containers, configs, uid);
      && (forall k :: k in e.store ==> k in r.store && r.store[k] == e.store[k])
      && r.store[BindingKey(selector, uid)] == configs
      && BindingKey(selector, uid) !in e.store
  {
  }

  /**
   * With pair keys, a later binding under a different id, whatever its
   * selector, leaves an earlier container's configs in place.
   */
  lemma EarlierBindingSurvives(e: State, s1: string, c1: seq<Element>, cf1: seq<Config>, u1: nat,
                               s2: string, c2: seq<Element>, cf2: seq<Config>, u2: nat, c: Element)
    requires u1 != u2 && c in c1 && c !in c2
    ensures var e2 := Bind(Bind(e, s1, c1, cf1, u1), s2, c2, cf2, u2);
      Lookup(e2, s1, c) == Success(cf1)
  {
  }

  /** All containers of one `init` call share its id and its store entry. */
  lemma BoundContainersShareEntry(e: State, selector: string, containers: seq<Element>, configs: seq<Config>, uid: nat)
    ensures var r := Bind(e, selector, containers, configs, uid);
      forall c :: c in containers ==> r.tags[c] == uid && Lookup(r, selector, c) == Success(configs)
  {
  }

  /**
   * `check`'s loop over the containers, each checked against the page the
   * previous ones left. It fails exactly when some container is unbound.
   */
  function CheckContainers(e: State, dom: Dom, selector: string, containers: seq<Element>, silent: bool): (r: Result<Tally, EngineError>)
    ensures r.Failure? <==> exists c :: c in containers && Lookup(e, selector, c).Failure?
    ensures r.Success? && silent ==> r.value.render == e.render
    decreases |containers|
  {
    if |containers| == 0 then Success(Tally(0, e.render))
    else
      var pre := containers[..|containers| - 1];
      var c := containers[|containers| - 1];
      assert forall x :: x in containers <==> x in pre || x == c;
      match CheckContainers(e, dom, selector, pre, silent)
      case Failure(err) => Failure(err)
      case Success(t) =>
        match Lookup(e, selector, c)
        case Failure(err) => Failure(err)
        case Success(configs) =>
          var u := CheckAllValidations(t.render, dom, c, configs, silent);
          Success(Tally(t.errors + u.errors, u.render))
  }

  /** The result of `check`: the error count and the state it leaves. */
  datatype Checked = Checked(errors: nat, state: State)

  /** `check(silent)`. */
  function CheckErrors(e: State, dom: Dom, selector: string, containers: seq<Element>, silent: bool): (r: Result<Checked, EngineError>)
    ensures r.Failure? <==> exists c :: c in containers && Lookup(e, selector, c).Failure?
    ensures r.Success? ==> r.value.state.store == e.store && r.value.state.issued == e.issued && r.value.state.tags == e.tags
    ensures r.Success? && silent ==> r.value.state == e
  {
    match CheckContainers(e, dom, selector, containers, silent)
    case Failure(err) => Failure(err)
    case Success(t) => Success(Checked(t.errors, e.(render := t.render)))
  }

  /** The result of `hasErrors`: the answer and the state it leaves. */
  datatype Answer = Answer(hasErrors: bool, state: State)

  /** `hasErrors(silent)`: the same loop as `check`, answering whether it counted anything. */
  function HasErrors(e: State, dom: Dom, selector: string, containers: seq<Element>, silent: bool): (r: Result<Answer, EngineError>)
    ensures r.Failure? <==> exists c :: c in containers && Lookup(e, selector, c).Failure?
    ensures r.Success? ==> r.value.state.store == e.store && r.value.state.issued == e.issued && r.value.state.tags == e.tags
    ensures r.Success? && silent ==> r.value.state == e
  {
    match CheckContainers(e, dom, selector, containers, silent)
    case Failure(err) => Failure(err)
    case Success(t) => Success(Answer(t.errors > 0, e.(render := t.render)))
  }

  /**
   * `hasErrors` is `check`'s count compared with zero: both fail together,
   * and on success they agree on the answer and on the state they leave.
   */
  lemma HasErrorsAgreesWithCheck(e: State, dom: Dom, selector: string, containers: seq<Element>, silent: bool)
    ensures HasErrors(e, dom, selector, containers, silent).Success?
        <==> CheckErrors(e, dom, selector, containers, silent).Success?
    ensures CheckErrors(e, dom, selector, containers, silent).Success? ==>
      && HasErrors(e, dom, selector, containers, silent).value.hasErrors
         == (CheckErrors(e, dom, selector, containers, silent).value.errors > 0)
      && HasErrors(e, dom, selector, containers, silent).value.state
         == CheckErrors(e, dom, selector, containers, silent).value.state
  {
  }

  /** The error pairs of every container, summed in order. */
  function TotalErrorPairs(e: State, dom: Dom, selector: string, containers: seq<Element>): nat
    decreases |containers|
  {
    if |containers| == 0 then 0
    else
      var c := containers[|containers| - 1];
      TotalErrorPairs(e, dom, selector, containers[..|containers| - 1])
        + match Lookup(e, selector, c)
          case Success(configs) => |ErrorPairs(dom, c, configs)|
          case Failure(_) => 0
  }

  /**
   * `check` counts, over all containers, the (config, matched element)
   * pairs whose verdict is falsy; the count does not depend on the page
   * shown before nor on `silent`.
   */
  lemma {:induction false} CheckCountsAllErrorPairs(e: State, dom: Dom, selector: string, containers: seq<Element>, silent: bool)
    requires CheckContainers(e, dom, selector, containers, silent).Success?
    ensures CheckContainers(e, dom, selector, containers, silent).value.errors == TotalErrorPairs(e, dom, selector, containers)
    decreases |containers|
  {
    if |containers| > 0 {
      var pre := containers[..|containers| - 1];
      var c := containers[|containers| - 1];
      CheckCountsAllErrorPairs(e, dom, selector, pre, silent);
      var t := CheckContainers(e, dom, selector, pre, silent).value;
      CheckAllCountsErrorPairs(t.render, dom, c, Lookup(e, selector, c).value, silent);
    }
  }

  /** A silent `check` leaves the whole state as it was. */
  lemma SilentCheckChangesNothing(e: State, dom: Dom, selector: string, containers: seq<Element>)
    requires CheckErrors(e, dom, selector, containers, true).Success?
    ensures CheckErrors(e, dom, selector, containers, true).value.state == e
  {
  }

  /** Every highlight `reset` removes: the marks of what each bound container's stored configs match. */
  function ContainerMarks(e: State, dom: Dom, selector: string, containers: seq<Element>): set<(Element, string)> {
    set j, m | 0 <= j < |containers| && Lookup(e, selector, containers[j]).Success?
                && m in ConfigMarks(dom, containers[j], Lookup(e, selector, containers[j]).value) :: m
  }

  /** Every tooltip `reset` destroys. */
  function ContainerTips(e: State, dom: Dom, selector: string, containers: seq<Element>): set<Element> {
    set j, x | 0 <= j < |containers| && Lookup(e, selector, containers[j]).Success?
                && x in ConfigTips(dom, containers[j], Lookup(e, selector, containers[j]).value) :: x
  }

  lemma ContainersSnoc(e: State, dom: Dom, selector: string, containers: seq<Element>)
    requires |containers| > 0 && Lookup(e, selector, containers[|containers| - 1]).Success?
    ensures var pre, c := containers[..|containers| - 1], containers[|containers| - 1];
      var configs := Lookup(e, selector, c).value;
      && ContainerMarks(e, dom, selector, containers) == ContainerMarks(e, dom, selector, pre) + ConfigMarks(dom, c, configs)
      && ContainerTips(e, dom, selector, containers) == ContainerTips(e, dom, selector, pre) + ConfigTips(dom, c, configs)
  {
    var n := |containers| - 1;
    assert forall j :: 0 <= j < n ==> containers[..n][j] == containers[j];
  }

  /**
   * `reset`'s loop over the containers. It fails exactly when some container
   * is unbound; otherwise it removes exactly the marks and tooltips of the
   * elements the stored configs match, and nothing else.
   */
  function ResetContainers(e: State, dom: Dom, selector: string, containers: seq<Element>): (r: Result<RenderState, EngineError>)
    ensures r.Failure? <==> exists c :: c in containers && Lookup(e, selector, c).Failure?
    ensures r.Success? ==> r.value.highlighted == e.render.highlighted - ContainerMarks(e, dom, selector, containers)
    ensures r.Success? ==> r.value.tooltips == e.render.tooltips - ContainerTips(e, dom, selector, containers)
    decreases |containers|
  {
    if |containers| == 0 then
      assert ContainerMarks(e, dom, selector, containers) == {};
      assert ContainerTips(e, dom, selector, containers) == {};
      Success(e.render)
    else
      var pre := containers[..|containers| - 1];
      var c := containers[|containers| - 1];
      assert forall x :: x in containers <==> x in pre || x == c;
      match ResetContainers(e, dom, selector, pre)
      case Failure(err) => Failure(err)
      case Success(st) =>
        match Lookup(e, selector, c)
        case Failure(err) => Failure(err)
        case Success(configs) =>
          ContainersSnoc(e, dom, selector, containers);
          Success(ResetAll(st, dom, c, configs))
  }

  /**
   * After `reset`, no element matched by a stored config of any container
   * carries that config's highlight, nor, with a tooltip config, a tooltip.
   */
  lemma ResetContainersClearsMatched(e: State, dom: Dom, selector: string, containers: seq<Element>, j: nat, i: nat, k: nat)
    requires ResetContainers(e, dom, selector, containers).Success?
    requires j < |containers| && Lookup(e, selector, containers[j]).Success?
    requires i < |Lookup(e, selector, containers[j]).value|
    requires k < |Matched(dom, containers[j], Lookup(e, selector, containers[j]).value[i])|
    ensures var r := ResetContainers(e, dom, selector, containers).value;
      var cfg := Lookup(e, selector, containers[j]).value[i];
      var el := Matched(dom, containers[j], cfg)[k];
      && Marks(dom, el, cfg) !! r.highlighted
      && (cfg.tooltip ==> el !in r.tooltips)
  {
    var c, configs := containers[j], Lookup(e, selector, containers[j]).value;
    MatchedInConfig(dom, c, configs, i, k);
    ConfigInContainers(e, dom, selector, containers, j);
  }

  lemma MatchedInConfig(dom: Dom, c: Element, configs: seq<Config>, i: nat, k: nat)
    requires i < |configs| && k < |Matched(dom, c, configs[i])|
    ensures Marks(dom, Matched(dom, c, configs[i])[k], configs[i]) <= ConfigMarks(dom, c, configs)
    ensures configs[i].tooltip ==> Matched(dom, c, configs[i])[k] in ConfigTips(dom, c, configs)
  {
    var cfg := configs[i];
    var el := Matched(dom, c, cfg)[k];
    assert el in Matched(dom, c, cfg);
    assert Marks(dom, el, cfg) <= ItemMarks(dom, Matched(dom, c, cfg), cfg);
    if cfg.tooltip {
      assert el in ItemTips(Matched(dom, c, cfg), cfg);
    }
  }

  lemma ConfigInContainers(e: State, dom: Dom, selector: string, containers: seq<Element>, j: nat)
    requires j < |containers| && Lookup(e, selector, containers[j]).Success?
    ensures ConfigMarks(dom, containers[j], Lookup(e, selector, containers[j]).value) <= ContainerMarks(e, dom, selector, containers)
    ensures ConfigTips(dom, containers[j], Lookup(e, selector, containers[j]).value) <= ContainerTips(e, dom, selector, containers)
  {
  }

  /**
   * `reset`: exactly the highlights and tooltips of the elements the stored
   * configs match are removed, and the configs, ids and tags are untouched.
   */
  function Reset(e: State, dom: Dom, selector: string, containers: seq<Element>): (r: Result<State, EngineError>)
    ensures r.Failure? <==> exists c :: c in containers && Lookup(e, selector, c).Failure?
    ensures r.Success? ==> r.value.store == e.store && r.value.issued == e.issued && r.value.tags == e.tags
    ensures r.Success? ==> r.value.render.highlighted == e.render.highlighted - ContainerMarks(e, dom, selector, containers)
    ensures r.Success? ==> r.value.render.tooltips == e.render.tooltips - ContainerTips(e, dom, selector, containers)
  {
    match ResetContainers(e, dom, selector, containers)
    case Failure(err) => Failure(err)
    case Success(st) => Success(e.(render := st))
  }

  /** `check` after `reset` counts what `check` before it would have counted. */
  lemma ResetThenCheckSameCount(e: State, dom: Dom, selector: string, containers: seq<Element>, silent: bool)
    requires Reset(e, dom, selector, containers).Success?
    ensures var e' := Reset(e, dom, selector, containers).value;
      && CheckErrors(e', dom, selector, containers, silent).Success?
      && CheckErrors(e, dom, selector, containers, silent).Success?
      && CheckErrors(e', dom, selector, containers, silent).value.errors
         == CheckErrors(e, dom, selector, containers, silent).value.errors
  {
    var e' := Reset(e, dom, selector, containers).value;
    assert forall c :: Lookup(e', selector, c) == Lookup(e, selector, c);
    CheckCountsAllErrorPairs(e, dom, selector, containers, silent);
    CheckCountsAllErrorPairs(e', dom, selector, containers, silent);
    TotalErrorPairsIgnoresRender(e, e', dom, selector, containers);
  }

  lemma {:induction false} TotalErrorPairsIgnoresRender(e: State, e': State, dom: Dom, selector: string, containers: seq<Element>)
    requires e'.store == e.store && e'.tags == e.tags
    ensures TotalErrorPairs(e, dom, selector, containers) == TotalErrorPairs(e', dom, selector, containers)
    decreases |containers|
  {
    if |containers| > 0 {
      TotalErrorPairsIgnoresRender(e, e', dom, selector, containers[..|containers| - 1]);
    }
  }

  /** A form holding one required field inside one `.form-group`, the field's value being `value`. */
  function OneFieldPage(form: Element, field: Element, group: Element, value: string): Dom {
    Dom(
      (c: Element, s: string) => if c == form && s == "input[required]" then [field] else [],
      (x: Element, s: string) => if x == field && s == ".form-group" then Some(group) else None,
      (x: Element) => value)
  }

  /** The page after an empty required field failed: its group highlighted, its tooltip shown. */
  function Flagged(field: Element, group: Element): RenderState {
    RenderState({(group, "has-error")}, map[field := "This field is required"])
  }

  lemma {:induction false} EmptyFieldIsFlagged(form: Element, field: Element, group: Element, uid: nat)
    ensures var e := Bind(Initial, "#form", [form], [Defaults], uid);
      CheckContainers(e, OneFieldPage(form, field, group, ""), "#form", [form], false)
        == Success(Tally(1, Flagged(field, group)))
  {
    var e := Bind(Initial, "#form", [form], [Defaults], uid);
    var empty := OneFieldPage(form, field, group, "");
    var shown := Flagged(field, group);
    assert Lookup(e, "#form", form) == Success([Defaults]);
    assert [Defaults][..0] == [];
    assert [form][..0] == [];
    assert [field][..0] == [];
    assert Matched(empty, form, Defaults) == [field];
    assert Marks(empty, field, Defaults) == {(group, "has-error")};
    assert Evaluate(Defaults.validations, empty, field) == Evaluation(JsFalse, Some(0), [0]);
    assert CheckOne(Clear, empty, field, Defaults, false) == Outcome(JsFalse, shown);
    assert CheckItems(Clear, empty, [field], Defaults, false) == Tally(1, shown);
    assert CheckAllValidations(Clear, empty, form, [Defaults], false) == Tally(1, shown);
  }

  lemma {:induction false} FilledFieldIsCleared(form: Element, field: Element, group: Element, uid: nat)
    ensures var e := Bind(Initial, "#form", [form], [Defaults], uid).(render := Flagged(field, group));
      var r := CheckContainers(e, OneFieldPage(form, field, group, "x"), "#form", [form], false);
      && r.Success?
      && r.value.errors == 0
      && (group, "has-error") !in r.value.render.highlighted
  {
    var e := Bind(Initial, "#form", [form], [Defaults], uid).(render := Flagged(field, group));
    var filled := OneFieldPage(form, field, group, "x");
    var shown := Flagged(field, group);
    assert Lookup(e, "#form", form) == Success([Defaults]);
    assert [Defaults][..0] == [];
    assert [form][..0] == [];
    assert [field][..0] == [];
    assert Matched(filled, form, Defaults) == [field];
    assert Marks(filled, field, Defaults) == {(group, "has-error")};
    assert Evaluate(Defaults.validations, filled, field).verdict == JsTrue;
    var hidden := HideError(shown, filled, field, Defaults);
    assert (group, "has-error") !in hidden.highlighted;
    assert CheckOne(shown, filled, field, Defaults, false) == Outcome(JsTrue, hidden);
    assert CheckItems(shown, filled, [field], Defaults, false) == Tally(0, hidden);
    assert CheckAllValidations(shown, filled, form, [Defaults], false) == Tally(0, hidden);
  }

  /**
   * Bound with the defaults, an empty required field makes `check` count
   * one error and highlight the field's form group; once the field has a
   * value, `check` counts none and removes the highlight.
   */
  lemma RequiredFieldScenario(form: Element, field: Element, group: Element, uid: nat)
    ensures var e := Bind(Initial, "#form", [form], Resolve(Falsy).value, uid);
      var first := CheckErrors(e, OneFieldPage(form, field, group, ""), "#form", [form], false);
      && first.Success?
      && first.value.errors == 1
      && (group, "has-error") in first.value.state.render.highlighted
      && var second := CheckErrors(first.value.state, OneFieldPage(form, field, group, "x"), "#form", [form], false);
         && second.Success?
         && second.value.errors == 0
         && (group, "has-error") !in second.value.state.render.highlighted
  {
    EmptyFieldIsFlagged(form, field, group, uid);
    FilledFieldIsCleared(form, field, group, uid);
  }

  /** The store and tags as the plugin keeps them: configs under the string `selector + uid`. */
  datatype StringStore = StringStore(store: map<string, seq<Config>>, tags: map<Element, nat>)

  /** As-written `init` once the id is issued: tag the containers, store under the string key. */
  function StringBind(s: StringStore, selector: string, containers: seq<Element>, configs: seq<Config>, uid: nat): (r: StringStore)
    ensures forall c :: c in containers ==> c in r.tags && r.tags[c] == uid
    ensures |containers| > 0 ==> StringKey(selector, uid) in r.store && r.store[StringKey(selector, uid)] == configs
    ensures forall k :: k != StringKey(selector, uid) ==> (k in r.store <==> k in s.store)
    ensures forall k :: k != StringKey(selector, uid) && k in s.store ==> r.store[k] == s.store[k]
  {
    StringStore(
      if |containers| > 0 then s.store[StringKey(selector, uid) := configs] else s.store,
      TagAll(s.tags, containers, uid))
  }

  /** As-written `getOptionsForElement(selector + uid)`, as `check` and `reset` call it. */
  function StringLookup(s: StringStore, selector: string, c: Element): (r: Result<seq<Config>, EngineError>)
    ensures r.Success? <==> c in s.tags && StringKey(selector, s.tags[c]) in s.store
    ensures r.Success? ==> r.value == s.store[StringKey(selector, s.tags[c])]
  {
    if c in s.tags && StringKey(selector, s.tags[c]) in s.store then
      Success(s.store[StringKey(selector, s.tags[c])])
    else
      Failure(Unbound(c))
  }

  /**
   * As-written store: binding container `c2` under ("a12", 3) after
   * container `c1` under ("a1", 23) replaces the first binding's configs, so
   * a later `check` of `c1` evaluates the second binding's rules. With pair
   * keys, the same two binds leave `c1` with its own configs.
   */
  lemma StringKeyedStoreLosesBinding(c1: Element, c2: Element, first: seq<Config>, second: seq<Config>)
    requires c1 != c2
    ensures var s := StringBind(StringBind(StringStore(map[], map[]), "a1", [c1], first, 23), "a12", [c2], second, 3);
      StringLookup(s, "a1", c1) == Success(second)
    ensures var e := Bind(Bind(Initial, "a1", [c1], first, 23), "a12", [c2], second, 3);
      Lookup(e, "a1", c1) == Success(first)
  {
    StringKeysCollide();
  }
}

/**
 * The delegated trigger handler `setupValidations` installs: on an event,
 * only the first config that owns the element is evaluated.
 */
module Dispatch {
  import opened Wrappers
  import opened Document
  import opened Rules
  import opened Options
  import opened Render
  import opened Check

  /** The first config from index `i` on whose matched set inside `delegate` contains `item`. */
  function OwnerFrom(dom: Dom, delegate: Element, item: Element, configs: seq<Config>, i: nat): (o: Option<nat>)
    requires i <= |configs|
    ensures o.Some? ==> i <= o.value < |configs| && item in Matched(dom, delegate, configs[o.value])
    ensures o.Some? ==> forall j :: i <= j < o.value ==> item !in Matched(dom, delegate, configs[j])
    ensures o.None? ==> forall j :: i <= j < |configs| ==> item !in Matched(dom, delegate, configs[j])
    decreases |configs| - i
  {
    if i == |configs| then None
    else if item in Matched(dom, delegate, configs[i]) then Some(i)
    else OwnerFrom(dom, delegate, item, configs, i + 1)
  }

  /**
   * The config that owns `item`: the first, in stored order, whose
   * selector matches it inside the delegate container; none if no config
   * matches it.
   */
  function Owner(dom: Dom, delegate: Element, item: Element, configs: seq<Config>): (o: Option<nat>)
    ensures o.Some? ==> o.value < |configs| && item in Matched(dom, delegate, configs[o.value])
    ensures o.Some? ==> forall j :: 0 <= j < o.value ==> item !in Matched(dom, delegate, configs[j])
    ensures o.None? <==> forall j :: 0 <= j < |configs| ==> item !in Matched(dom, delegate, configs[j])
  {
    OwnerFrom(dom, delegate, item, configs, 0)
  }

  /**
   * The handler body: evaluate the owning config alone on `item`, not
   * silently; with no owner, nothing happens.
   */
  function HandleTrigger(st: RenderState, dom: Dom, delegate: Element, item: Element, configs: seq<Config>): (r: RenderState)
    ensures (forall j :: 0 <= j < |configs| ==> item !in Matched(dom, delegate, configs[j])) ==> r == st
  {
    match Owner(dom, delegate, item, configs)
    case None => st
    case Some(i) => CheckOne(st, dom, item, configs[i], false).render
  }

  /**
   * The handler checks the item, not silently, against the first config
   * that matches it, whatever the configs after it are.
   */
  lemma HandlerChecksFirstMatch(st: RenderState, dom: Dom, delegate: Element, item: Element, configs: seq<Config>, i: nat)
    requires i < |configs| && item in Matched(dom, delegate, configs[i])
    requires forall j :: 0 <= j < i ==> item !in Matched(dom, delegate, configs[j])
    ensures HandleTrigger(st, dom, delegate, item, configs) == CheckOne(st, dom, item, configs[i], false).render
  {
    var o := Owner(dom, delegate, item, configs);
    assert o.Some?;
    assert !(o.value < i);
  }

  /**
   * Only the owner is evaluated: the handler acts as if the owning config
   * were the only one stored, and configs after the owner, whatever they
   * are, make no difference.
   */
  lemma OnlyOwnerIsEvaluated(st: RenderState, dom: Dom, delegate: Element, item: Element, configs: seq<Config>, later: seq<Config>)
    requires Owner(dom, delegate, item, configs).Some?
    ensures var i := Owner(dom, delegate, item, configs).value;
      && HandleTrigger(st, dom, delegate, item, configs) == HandleTrigger(st, dom, delegate, item, [configs[i]])
      && HandleTrigger(st, dom, delegate, item, configs) == HandleTrigger(st, dom, delegate, item, configs[..i + 1] + later)
  {
    var i := Owner(dom, delegate, item, configs).value;
    var longer := configs[..i + 1] + later;
    assert forall j :: 0 <= j <= i ==> longer[j] == configs[j];
    var o := Owner(dom, delegate, item, longer);
    assert o == Some(i);
  }

  /**
   * The listener a config registers fires for `item` on `event`: the event
   * is one of the config's triggers and its selector matches the element
   * inside the delegate container.
   */
  predicate Listens(dom: Dom, delegate: Element, item: Element, event: string, cfg: Config) {
    event in cfg.triggers && item in Matched(dom, delegate, cfg)
  }

  /**
   * One event on `item`: the listeners of the first `n` configs fire in
   * registration order, and each runs the handler over all stored configs.
   */
  function FireFrom(st: RenderState, dom: Dom, delegate: Element, item: Element, event: string, configs: seq<Config>, n: nat): (r: RenderState)
    requires n <= |configs|
    ensures (forall j :: 0 <= j < n ==> !Listens(dom, delegate, item, event, configs[j])) ==> r == st
    decreases n
  {
    if n == 0 then st
    else
      var s := FireFrom(st, dom, delegate, item, event, configs, n - 1);
      if Listens(dom, delegate, item, event, configs[n - 1]) then HandleTrigger(s, dom, delegate, item, configs) else s
  }

  /** The effect of one event on the page, over all of a binding's listeners. */
  function FireEvent(st: RenderState, dom: Dom, delegate: Element, item: Element, event: string, configs: seq<Config>): (r: RenderState)
    ensures (exists j :: 0 <= j < |configs| && Listens(dom, delegate, item, event, configs[j])) ==> r == HandleTrigger(st, dom, delegate, item, configs)
    ensures (forall j :: 0 <= j < |configs| ==> !Listens(dom, delegate, item, event, configs[j])) ==> r == st
  {
    EventEvaluatesOwnerOnce(st, dom, delegate, item, event, configs, |configs|);
    FireFrom(st, dom, delegate, item, event, configs, |configs|)
  }

  /** Running the handler twice leaves the page as running it once. */
  lemma HandleTriggerIdempotent(st: RenderState, dom: Dom, delegate: Element, item: Element, configs: seq<Config>)
    ensures HandleTrigger(HandleTrigger(st, dom, delegate, item, configs), dom, delegate, item, configs)
         == HandleTrigger(st, dom, delegate, item, configs)
  {
    var o := Owner(dom, delegate, item, configs);
    if o.Some? {
      CheckOneIdempotent(st, dom, item, configs[o.value], false);
    }
  }

  /**
   * However many of a binding's listeners fire for one event, the page ends
   * as after a single evaluation of the owning config; if none fires, the
   * page is unchanged.
   */
  lemma {:induction false} EventEvaluatesOwnerOnce(st: RenderState, dom: Dom, delegate: Element, item: Element, event: string, configs: seq<Config>, n: nat)
    requires n <= |configs|
    ensures (exists j :: 0 <= j < n && Listens(dom, delegate, item, event, configs[j])) ==>
      FireFrom(st, dom, delegate, item, event, configs, n) == HandleTrigger(st, dom, delegate, item, configs)
    ensures (forall j :: 0 <= j < n ==> !Listens(dom, delegate, item, event, configs[j])) ==>
      FireFrom(st, dom, delegate, item, event, configs, n) == st
    decreases n
  {
    if n > 0 {
      EventEvaluatesOwnerOnce(st, dom, delegate, item, event, configs, n - 1);
      if exists j :: 0 <= j < n - 1 && Listens(dom, delegate, item, event, configs[j]) {
        HandleTriggerIdempotent(st, dom, delegate, item, configs);
      }
    }
  }
}

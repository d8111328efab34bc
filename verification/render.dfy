/**
 * Error rendering (`getAttached`, `showError`, `hideError`): which element
 * receives the highlight class, which message the tooltip shows, and the
 * visible state those calls leave behind.
 */
module Render {
  import opened Wrappers
  import opened Document
  import opened Rules
  import opened Options

  /**
   * What is visible on the page: the (element, class) pairs added as
   * highlights, and the message of every element whose tooltip is shown.
   */
  datatype RenderState = RenderState(highlighted: set<(Element, string)>, tooltips: map<Element, string>)

  /** Nothing highlighted, no tooltip shown. */
  const Clear: RenderState := RenderState({}, map[])

  /**
   * The element that receives the highlight class: none unless highlighting
   * is active (exactly `true`), the element itself for `attachTo: 'self'`,
   * otherwise its nearest ancestor (or itself) matching `attachTo`.
   */
  function AttachTarget(dom: Dom, el: Element, h: Highlight): (t: Option<Element>)
    ensures !h.active ==> t.None?
    ensures h.active && h.attachTo == "self" ==> t == Some(el)
    ensures h.active && h.attachTo != "self" ==> t == dom.closest(el, h.attachTo)
  {
    if !h.active then None
    else if h.attachTo == "self" then Some(el)
    else dom.closest(el, h.attachTo)
  }

  /** The highlight `showError` adds and `hideError` removes for `el`. */
  function Marks(dom: Dom, el: Element, cfg: Config): (m: set<(Element, string)>)
    ensures |m| <= 1
    ensures forall t, c :: (t, c) in m ==> c == cfg.highlight.className
    ensures forall t :: (t, cfg.highlight.className) in m <==> AttachTarget(dom, el, cfg.highlight) == Some(t)
  {
    var t := AttachTarget(dom, el, cfg.highlight);
    if t.Some? then {(t.value, cfg.highlight.className)} else {}
  }

  /** A message counts only when it is a non-empty (truthy) string. */
  predicate HasMessage(messages: map<string, string>, key: string) {
    key in messages && messages[key] != ""
  }

  /**
   * The tooltip text for a failing rule: the inline rule's own message if
   * it has one, else the config's message for the rule's name if that is
   * non-empty, else the `base` message if present, else the empty string.
   */
  function ErrorMessage(rule: Rule, messages: map<string, string>): (msg: string)
    ensures rule.Custom? && rule.message.Some? ==> msg == rule.message.value
    ensures rule.Named? && HasMessage(messages, rule.name) ==> msg == messages[rule.name]
    ensures (rule.Custom? && rule.message.None?) || (rule.Named? && !HasMessage(messages, rule.name)) ==>
      msg == (if "base" in messages then messages["base"] else "")
  {
    var own :=
      if rule.Custom? then rule.message
      else if HasMessage(messages, rule.name) then Some(messages[rule.name])
      else None;
    if own.Some? then own.value
    else if "base" in messages then messages["base"]
    else ""
  }

  /**
   * `showError`: adds the class to the attach target, and shows a tooltip
   * with the rule's message when a tooltip config is present. Nothing else
   * on the page changes.
   */
  function ShowError(st: RenderState, dom: Dom, el: Element, rule: Rule, cfg: Config): (r: RenderState)
    ensures r.highlighted == st.highlighted + Marks(dom, el, cfg)
    ensures cfg.tooltip ==> el in r.tooltips && r.tooltips[el] == ErrorMessage(rule, cfg.messages)
    ensures forall x :: x != el || !cfg.tooltip ==> (x in r.tooltips <==> x in st.tooltips)
    ensures forall x :: (x != el || !cfg.tooltip) && x in st.tooltips ==> r.tooltips[x] == st.tooltips[x]
  {
    RenderState(
      st.highlighted + Marks(dom, el, cfg),
      if cfg.tooltip then st.tooltips[el := ErrorMessage(rule, cfg.messages)] else st.tooltips)
  }

  /**
   * `hideError`: removes the class from the same target `showError` would
   * use, and destroys the element's tooltip when a tooltip config is
   * present. Nothing else on the page changes.
   */
  function HideError(st: RenderState, dom: Dom, el: Element, cfg: Config): (r: RenderState)
    ensures r.highlighted == st.highlighted - Marks(dom, el, cfg)
    ensures cfg.tooltip ==> el !in r.tooltips
    ensures forall x :: x != el || !cfg.tooltip ==> (x in r.tooltips <==> x in st.tooltips)
    ensures forall x :: x in r.tooltips ==> x in st.tooltips && r.tooltips[x] == st.tooltips[x]
  {
    RenderState(
      st.highlighted - Marks(dom, el, cfg),
      if cfg.tooltip then st.tooltips - {el} else st.tooltips)
  }

  /**
   * Hiding after showing leaves the page as hiding alone would: `hideError`
   * removes exactly what `showError` added for the same element and config.
   */
  lemma HideUndoesShow(st: RenderState, dom: Dom, el: Element, rule: Rule, cfg: Config)
    ensures HideError(ShowError(st, dom, el, rule, cfg), dom, el, cfg) == HideError(st, dom, el, cfg)
  {
    var a := HideError(ShowError(st, dom, el, rule, cfg), dom, el, cfg);
    var b := HideError(st, dom, el, cfg);
    assert a.tooltips == b.tooltips;
  }

  /** Showing the same error twice is the same as showing it once. */
  lemma ShowIdempotent(st: RenderState, dom: Dom, el: Element, rule: Rule, cfg: Config)
    ensures ShowError(ShowError(st, dom, el, rule, cfg), dom, el, rule, cfg) == ShowError(st, dom, el, rule, cfg)
  {
  }

  /** Hiding twice is the same as hiding once; hiding on a clear page changes nothing. */
  lemma HideIdempotent(st: RenderState, dom: Dom, el: Element, cfg: Config)
    ensures HideError(HideError(st, dom, el, cfg), dom, el, cfg) == HideError(st, dom, el, cfg)
    ensures HideError(Clear, dom, el, cfg) == Clear
  {
    var a := HideError(HideError(st, dom, el, cfg), dom, el, cfg);
    var b := HideError(st, dom, el, cfg);
    assert a.tooltips == b.tooltips;
  }

  /**
   * With the default config, an error on a field inside a `.form-group`
   * highlights that group with `has-error` and shows the required message.
   */
  lemma DefaultShowsRequiredMessage(st: RenderState, dom: Dom, el: Element, group: Element)
    requires dom.closest(el, ".form-group") == Some(group)
    ensures (group, "has-error") in ShowError(st, dom, el, Named("required"), Defaults).highlighted
    ensures ShowError(st, dom, el, Named("required"), Defaults).tooltips[el] == "This field is required"
    ensures (group, "has-error") !in HideError(st, dom, el, Defaults).highlighted
  {
    assert Marks(dom, el, Defaults) == {(group, "has-error")};
  }
}

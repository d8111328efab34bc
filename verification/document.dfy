/**
 * The parts of the browser document the validator looks at. jQuery's
 * `.find`, `.closest` and `.val` are not modelled; they are given
 * functions over opaque element identities.
 */
module Document {
  import opened Wrappers

  /** An element of the page, known only by its identity. */
  type Element = nat

  datatype Dom = Dom(
    /** `$(scope).find(selector)`: the matching descendants, in document order. */
    find: (Element, string) -> seq<Element>,
    /** `$(el).closest(selector)`: the element itself or its nearest matching ancestor. */
    closest: (Element, string) -> Option<Element>,
    /** `$(el).val()` of a form field. */
    value: Element -> string)
}

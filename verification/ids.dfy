/**
 * Binding identities: `generateUniqueId`, and the key under which a
 * binding's configs are stored.
 */
module Ids {
  import opened Wrappers

  /** Ids are drawn as `Math.floor(Math.random() * 1000000000)`. */
  const IdRange: nat := 1000000000

  /** A draw of `Math.random()`, a real in [0, 1). */
  predicate IsDraw(x: real) {
    0.0 <= x < 1.0
  }

  /** The candidate id a draw produces. */
  function Scale(x: real): (uid: int)
    requires IsDraw(x)
    ensures 0 <= uid < IdRange
  {
    (x * 1000000000.0).Floor
  }

  predicate NoDuplicates(s: seq<nat>) {
    forall a, b :: 0 <= a < b < |s| ==> s[a] != s[b]
  }

  /**
   * `generateUniqueId`: draw candidates until one is not in `issued`, then
   * append it. The random draws are the parameter `draws`; `None` means the
   * given draws ran out before a fresh id turned up, where the plugin
   * would keep drawing.
   */
  method GenerateUniqueId(issued: seq<nat>, draws: seq<real>) returns (uid: Option<nat>, issued': seq<nat>)
    requires forall i :: 0 <= i < |draws| ==> IsDraw(draws[i])
    ensures uid.Some? ==> 0 <= uid.value < IdRange && uid.value !in issued && issued' == issued + [uid.value]
    ensures uid.Some? ==>
      exists i :: 0 <= i < |draws| && uid.value == Scale(draws[i]) && (forall j :: 0 <= j < i ==> Scale(draws[j]) in issued)
    ensures uid.None? ==> issued' == issued && forall j :: 0 <= j < |draws| ==> Scale(draws[j]) in issued
    ensures NoDuplicates(issued) ==> NoDuplicates(issued')
  {
    var i := 0;
    while i < |draws| && Scale(draws[i]) in issued
      invariant 0 <= i <= |draws|
      invariant forall j :: 0 <= j < i ==> Scale(draws[j]) in issued
    {
      i := i + 1;
    }
    if i == |draws| {
      return None, issued;
    }
    var candidate := Scale(draws[i]);
    uid := Some(candidate);
    issued' := issued + [candidate];
  }

  /** The decimal text of a number, as JavaScript writes a non-negative integer. */
  function DecimalString(n: nat): (s: string)
    ensures |s| > 0
    ensures n >= 10 ==> |s| >= 2
    decreases n
  {
    var digit := "0123456789"[n % 10];
    if n < 10 then [digit] else DecimalString(n / 10) + [digit]
  }

  /** Different numbers have different decimal texts. */
  lemma {:induction false} DecimalStringInjective(a: nat, b: nat)
    requires DecimalString(a) == DecimalString(b)
    ensures a == b
    decreases a
  {
    var sa, sb := DecimalString(a), DecimalString(b);
    assert sa[|sa| - 1] == sb[|sb| - 1];
    assert "0123456789"[a % 10] == "0123456789"[b % 10];
    if a >= 10 && b >= 10 {
      assert DecimalString(a / 10) == sa[..|sa| - 1];
      assert DecimalString(b / 10) == sb[..|sb| - 1];
      DecimalStringInjective(a / 10, b / 10);
    }
  }

  /**
   * The store key as the plugin builds it: `selector + uid`, a string
   * concatenation of the selector and the id's decimal text.
   */
  function StringKey(selector: string, uid: nat): (k: string)
    ensures |k| > |selector| && k[..|selector|] == selector
    ensures k[|selector|..] == DecimalString(uid)
  {
    selector + DecimalString(uid)
  }

  /** Under one selector the string key does separate distinct ids. */
  lemma SameSelectorKeysDiffer(selector: string, a: nat, b: nat)
    requires a != b
    ensures StringKey(selector, a) != StringKey(selector, b)
  {
    if StringKey(selector, a) == StringKey(selector, b) {
      assert DecimalString(a) == StringKey(selector, a)[|selector|..];
      assert DecimalString(b) == StringKey(selector, b)[|selector|..];
      DecimalStringInjective(a, b);
    }
  }

  /**
   * Across selectors it does not: the bindings ("a1", 23) and ("a12", 3)
   * have distinct ids yet share the key "a123", so the second `init`
   * overwrites the first binding's configs.
   */
  lemma StringKeysCollide()
    ensures StringKey("a1", 23) == StringKey("a12", 3)
  {
    assert DecimalString(2) == "2";
    assert DecimalString(23) == "23";
    assert DecimalString(3) == "3";
  }

  /**
   * The key the rest of the model uses: the pair itself, so that distinct
   * ids always give distinct keys, whatever the selectors.
   */
  datatype BindingKey = BindingKey(selector: string, uid: nat)
}

/**
 * The name shown for a player on every card:
 * `ensData?.displayName || player.substring(0, 6) + '...' + player.substring(38)`.
 */
module Labels {
  import opened Bets

  function Min(x: int, y: int): int { if x <= y then x else y }
  function Max(x: int, y: int): int { if x <= y then y else x }

  /** JavaScript's index clamping for `substring`: negative indices become 0, indices past the end become the length. */
  function Clamp(i: int, n: nat): (c: nat)
    ensures c <= n
  {
    if i < 0 then 0 else if i > n then n else i
  }

  /**
   * `s.substring(start, end)`: both indices are clamped to `[0, |s|]`, and
   * if the start lies after the end the two are swapped. `s.substring(k)` is
   * `JsSubstring(s, k, |s|)`.
   */
  function JsSubstring(s: string, start: int, end: int): (r: string)
    ensures |r| <= |s|
  {
    var i, j := Clamp(start, |s|), Clamp(end, |s|);
    if i <= j then s[i..j] else s[j..i]
  }

  /** The order of the two indices does not matter. */
  lemma SubstringSymmetric(s: string, start: int, end: int)
    ensures JsSubstring(s, start, end) == JsSubstring(s, end, start)
  {
  }

  /** `s.substring(0, k)` is the prefix of `s` of length `k`, or all of `s` when it is shorter. */
  lemma SubstringPrefix(s: string, k: int)
    ensures JsSubstring(s, 0, k) <= s
    ensures |JsSubstring(s, 0, k)| == Max(0, Min(k, |s|))
  {
  }

  /** `s.substring(k)` is the suffix of `s` from index `k`, or empty when `s` is shorter. */
  lemma SubstringSuffix(s: string, k: int)
    ensures |JsSubstring(s, k, |s|)| == |s| - Max(0, Min(k, |s|))
    ensures JsSubstring(s, k, |s|) == s[|s| - |JsSubstring(s, k, |s|)|..]
  {
  }

  /**
   * The shortened address: the first six characters (fewer if the address
   * is shorter), three dots, then everything from index 38 on (nothing if
   * the address is no longer than 38).
   */
  function ShortAddress(a: Address): (r: string)
    ensures |r| == Min(6, |a|) + 3 + Max(0, |a| - 38)
    ensures r[..Min(6, |a|)] == a[..Min(6, |a|)]
    ensures r[Min(6, |a|)..Min(6, |a|) + 3] == "..."
    ensures r[Min(6, |a|) + 3..] == a[|a| - Max(0, |a| - 38)..]
  {
    SubstringPrefix(a, 6);
    SubstringSuffix(a, 38);
    JsSubstring(a, 0, 6) + "..." + JsSubstring(a, 38, |a|)
  }

  /** For a 42-character address (`0x` and 40 hex digits) the label keeps the first six and the last four characters. */
  lemma ShortEthereumAddress(a: Address)
    requires |a| == 42
    ensures ShortAddress(a) == a[..6] + "..." + a[38..]
    ensures |ShortAddress(a)| == 13
  {
    var r := ShortAddress(a);
    assert r == r[..6] + r[6..9] + r[9..];
  }

  /**
   * JavaScript truthiness of `ensData?.displayName` for a string display
   * name: `?.` on a `null` lookup gives `undefined`, and an absent or empty
   * name is falsy too.
   */
  predicate HasDisplayName(ens: Option<Identity>): (b: bool)
    ensures ens.None? ==> !b
    ensures b ==> ens.value.displayName.Some? && |ens.value.displayName.value| > 0
  {
    ens.Some? && ens.value.displayName.Some? && ens.value.displayName.value != ""
  }

  /**
   * The label of a player: the ENS display name when the lookup returned one
   * that is a non-empty string, otherwise the shortened address. It is never
   * empty.
   */
  function DisplayName(ens: Option<Identity>, player: Address): (r: string)
    ensures r != ""
    ensures HasDisplayName(ens) ==> r == ens.value.displayName.value
    ensures !HasDisplayName(ens) ==> r == ShortAddress(player)
  {
    if HasDisplayName(ens) then ens.value.displayName.value else ShortAddress(player)
  }
}

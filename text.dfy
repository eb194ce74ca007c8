/** String predicates and transformations used by the soil-moisture hook:
    prefix and substring tests, ASCII lower-casing, removal of the first
    occurrence of a pattern, the deployed-code test and decimal rendering. */
module Text {

  import opened Wrappers

  /** True when `p` is a prefix of `s`. */
  predicate StartsWith(s: string, p: string) {
    |p| <= |s| && s[..|p|] == p
  }

  /** `p` occurs in `s` at position `i`. */
  predicate OccursAt(s: string, p: string, i: nat) {
    i + |p| <= |s| && s[i..i + |p|] == p
  }

  /** JavaScript's `s.includes(p)`: `p` occurs somewhere in `s`. */
  predicate Contains(s: string, p: string) {
    exists i: nat :: i <= |s| && OccursAt(s, p, i)
  }

  /** An occurrence of "not authorized" is an occurrence of "authorized": the first
      disjunct of the decrypt error classification never decides anything. */
  lemma NotAuthorizedContainsAuthorized(s: string)
    requires Contains(s, "not authorized")
    ensures Contains(s, "authorized")
  {
    var i: nat :| i <= |s| && OccursAt(s, "not authorized", i);
    assert s[i + 4..i + 14] == s[i..i + 14][4..] == "authorized";
    assert OccursAt(s, "authorized", i + 4);
  }

  /** Lower-cases the ASCII letters A-Z; every other character is kept. */
  function LowerChar(c: char): (r: char)
    ensures 'A' <= c <= 'Z' ==> 'a' <= r <= 'z'
    ensures !('A' <= c <= 'Z') ==> r == c
    ensures !('A' <= r <= 'Z')
  {
    if 'A' <= c <= 'Z' then (c as int - 'A' as int + 'a' as int) as char else c
  }

  /** `s.toLowerCase()`, restricted to ASCII letters. */
  function ToLower(s: string): (r: string)
    ensures |r| == |s|
    ensures forall i :: 0 <= i < |s| ==> r[i] == LowerChar(s[i])
  {
    if s == [] then [] else [LowerChar(s[0])] + ToLower(s[1..])
  }

  /** Lower-casing twice is lower-casing once. */
  lemma ToLowerIdempotent(s: string)
    ensures ToLower(ToLower(s)) == ToLower(s)
  {
    var t := ToLower(s);
    assert forall i :: 0 <= i < |t| ==> LowerChar(t[i]) == t[i];
  }

  /** Lower-casing keeps the "0x" prefix of a hexadecimal string. */
  lemma ToLowerKeepsHexPrefix(s: string)
    requires StartsWith(s, "0x")
    ensures StartsWith(ToLower(s), "0x")
  {
    assert ToLower(s)[0] == s[0] && ToLower(s)[1] == s[1];
  }

  /** Index of the first occurrence of `p` in `s` at or after position `from`. */
  function IndexOfFrom(s: string, p: string, from: nat): (r: Option<nat>)
    requires from <= |s|
    ensures r.Some? ==> from <= r.value && OccursAt(s, p, r.value)
    ensures r.Some? ==> forall j: nat :: from <= j < r.value ==> !OccursAt(s, p, j)
    ensures r.None? ==> forall j: nat :: from <= j ==> !OccursAt(s, p, j)
    decreases |s| - from
  {
    if from + |p| > |s| then None
    else if OccursAt(s, p, from) then Some(from)
    else if from == |s| then None
    else IndexOfFrom(s, p, from + 1)
  }

  /** JavaScript's `s.replace(p, "")` with a string pattern: removes the FIRST occurrence
      of `p` only, wherever it is; a string without `p` is returned unchanged. */
  function RemoveFirst(s: string, p: string): (r: string)
    ensures |r| <= |s|
    ensures r == s <==> p == "" || !Contains(s, p)
  {
    match IndexOfFrom(s, p, 0)
    case None => s
    case Some(i) => s[..i] + s[i + |p|..]
  }

  /** What `RemoveFirst` does, in terms of occurrences: a string that starts with the
      pattern loses exactly that prefix, a string without it is unchanged, and otherwise
      exactly |p| characters go. */
  lemma RemoveFirstFacts(s: string, p: string)
    requires |p| > 0
    ensures StartsWith(s, p) ==> RemoveFirst(s, p) == s[|p|..]
    ensures !Contains(s, p) ==> RemoveFirst(s, p) == s
    ensures Contains(s, p) ==> |RemoveFirst(s, p)| == |s| - |p|
  {
    if StartsWith(s, p) {
      assert OccursAt(s, p, 0);
    }
  }

  /** The deployed-code test of the hook: `code === "0x" || code.length <= 2`. `getCode`
      returns hex text, which has no character beyond the Basic Multilingual Plane, so
      `|code|` is its `.length`. */
  predicate NotDeployed(code: string)
    ensures NotDeployed(code) <==> |code| <= 2
  {
    code == "0x" || |code| <= 2
  }

  /** The first disjunct is subsumed ("0x" has two characters), and the refresh test
      `code && code.length > 2` is exactly its negation (an empty string is falsy). */
  lemma NotDeployedIsShortCode(code: string)
    ensures NotDeployed(code) <==> |code| <= 2
    ensures !NotDeployed(code) <==> (code != "" && |code| > 2)
  {
  }

  /** Decimal digit for 0..9. */
  function Digit(d: nat): (c: char)
    requires d < 10
    ensures '0' <= c <= '9'
  {
    ['0', '1', '2', '3', '4', '5', '6', '7', '8', '9'][d]
  }

  /** The decimal text JavaScript gives a non-negative integer Number. */
  function NatToDecimal(n: nat): (r: string)
    ensures |r| > 0
    ensures forall i :: 0 <= i < |r| ==> '0' <= r[i] <= '9'
  {
    if n < 10 then [Digit(n)] else NatToDecimal(n / 10) + [Digit(n % 10)]
  }

  /** Value of a non-empty decimal text. */
  function DecimalValue(s: string): (n: nat)
    requires forall i :: 0 <= i < |s| ==> '0' <= s[i] <= '9'
  {
    if s == [] then 0 else 10 * DecimalValue(s[..|s| - 1]) + (s[|s| - 1] as int - '0' as int)
  }

  /** Reading the rendered digits back gives the number. */
  lemma {:induction false} NatToDecimalRoundTrip(n: nat)
    ensures DecimalValue(NatToDecimal(n)) == n
  {
    if n >= 10 {
      var r := NatToDecimal(n);
      assert r[..|r| - 1] == NatToDecimal(n / 10);
      NatToDecimalRoundTrip(n / 10);
    }
  }

}

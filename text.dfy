/** String searching and ASCII case folding, the pieces of JavaScript's
    `String.prototype` that the client relies on. */
module Text {
  import opened Wrappers

  /** `pat` occurs in `s` starting at index `k`. */
  predicate OccursAt(s: string, pat: string, k: nat)
  {
    k + |pat| <= |s| && s[k..k + |pat|] == pat
  }

  /** No occurrence of `pat` starts at an index in `[lo, hi)`. */
  predicate NoOccurrenceIn(s: string, pat: string, lo: nat, hi: nat)
  {
    forall j: nat :: lo <= j < hi ==> !OccursAt(s, pat, j)
  }

  /** `s.indexOf(pat, from)` for a non-empty `pat`: the first occurrence at
      or after `from`, if any. (For an empty `pat` and `from > |s|`, JS gives
      `|s|`; no caller searches for an empty pattern.) */
  function IndexOf(s: string, pat: string, from: nat): (r: Option<nat>)
    decreases |s| - from
    ensures r.Some? ==> from <= r.value && OccursAt(s, pat, r.value) && NoOccurrenceIn(s, pat, from, r.value)
    ensures r.None? ==> NoOccurrenceIn(s, pat, from, |s| + 1)
  {
    if from + |pat| > |s| then None
    else if s[from..from + |pat|] == pat then Some(from)
    else IndexOf(s, pat, from + 1)
  }

  /** `s.includes(pat)`. */
  predicate Contains(s: string, pat: string)
  {
    IndexOf(s, pat, 0).Some?
  }

  lemma ContainsIff(s: string, pat: string)
    ensures Contains(s, pat) <==> exists k: nat :: OccursAt(s, pat, k)
  {
    if !Contains(s, pat) {
      forall k: nat ensures !OccursAt(s, pat, k) {
        if k <= |s| {
          assert NoOccurrenceIn(s, pat, 0, |s| + 1);
        }
      }
    }
  }

  /** ASCII lower-casing of one character (Ethereum addresses are hex ASCII). */
  function LowerChar(c: char): char
  {
    if 'A' <= c <= 'Z' then (c as int - 'A' as int + 'a' as int) as char else c
  }

  /** `s.toLowerCase()` restricted to ASCII letters. */
  function ToLower(s: string): (r: string)
    ensures |r| == |s|
    ensures forall i :: 0 <= i < |s| ==> r[i] == LowerChar(s[i])
  {
    if s == [] then [] else [LowerChar(s[0])] + ToLower(s[1..])
  }

  /** `a.toLowerCase() === b.toLowerCase()`: the two strings have the same
      length and agree character by character up to ASCII case. */
  predicate EqualIgnoringCase(a: string, b: string): (r: bool)
    ensures r <==> |a| == |b| && forall i :: 0 <= i < |a| ==> LowerChar(a[i]) == LowerChar(b[i])
  {
    ToLower(a) == ToLower(b)
  }

  lemma ToLowerIdempotent(s: string)
    ensures ToLower(ToLower(s)) == ToLower(s)
  {
    assert forall i :: 0 <= i < |s| ==> LowerChar(LowerChar(s[i])) == LowerChar(s[i]);
  }
}

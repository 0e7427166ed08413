/**
 * The single (non-global) `String.prototype.replace` with a regular expression
 * made of `\d` classes and literal characters, such as `/(\d{2})(\d)/`, as the
 * masks use it: the leftmost match is found, and text is inserted before the
 * match and after its first group; with no match the string is unchanged.
 */
module Regex {
  import opened Wrappers
  import opened Text

  /** One position of a pattern: `\d` or a literal character. */
  datatype Atom = AnyDigit | Lit(c: char)

  predicate AtomMatches(a: Atom, c: char) {
    match a
    case AnyDigit => IsDigit(c)
    case Lit(x) => c == x
  }

  /** `\d{k}` */
  function Run(k: nat): (pat: seq<Atom>)
    ensures |pat| == k && forall i :: 0 <= i < k ==> pat[i] == AnyDigit
  {
    seq(k, _ => AnyDigit)
  }

  /** The pattern matches `v` starting at position `p`. */
  predicate MatchesAt(v: string, p: nat, pat: seq<Atom>) {
    p + |pat| <= |v| && forall i :: 0 <= i < |pat| ==> AtomMatches(pat[i], v[p + i])
  }

  /** The leftmost position at or after `from` where the pattern matches. */
  function FindMatch(v: string, pat: seq<Atom>, from: nat): (r: Option<nat>)
    decreases |v| - from
    ensures r.Some? ==> from <= r.value && MatchesAt(v, r.value, pat)
    ensures r.Some? ==> forall q :: from <= q < r.value ==> !MatchesAt(v, q, pat)
    ensures r.None? ==> forall q :: from <= q ==> !MatchesAt(v, q, pat)
  {
    if from + |pat| > |v| then None
    else if MatchesAt(v, from, pat) then Some(from)
    else FindMatch(v, pat, from + 1)
  }

  /**
   * `v.replace(re, pre + '$1' + mid + '$2')` where `re` is `pat` with its first
   * `cut` positions as group 1 and the rest as group 2.
   */
  function Replace(v: string, pat: seq<Atom>, cut: nat, pre: string, mid: string): string
    requires cut <= |pat|
  {
    match FindMatch(v, pat, 0)
    case None => v
    case Some(p) => v[..p] + pre + v[p..p + cut] + mid + v[p + cut..]
  }

  /** Where the leftmost match is at `p`, the replacement happens there. */
  lemma ReplaceAt(v: string, pat: seq<Atom>, cut: nat, pre: string, mid: string, p: nat)
    requires cut <= |pat| && MatchesAt(v, p, pat)
    requires forall q: nat :: q < p ==> !MatchesAt(v, q, pat)
    ensures Replace(v, pat, cut, pre, mid) == v[..p] + pre + v[p..p + cut] + mid + v[p + cut..]
    ensures pre == [] ==> Replace(v, pat, cut, pre, mid) == v[..p + cut] + mid + v[p + cut..]
  {
    LeftmostMatch(v, pat, p);
    if pre == [] {
      assert v[..p] + pre + v[p..p + cut] == v[..p + cut];
    }
  }

  lemma LeftmostMatch(v: string, pat: seq<Atom>, p: nat)
    requires MatchesAt(v, p, pat)
    requires forall q: nat :: q < p ==> !MatchesAt(v, q, pat)
    ensures FindMatch(v, pat, 0) == Some(p)
  {
    var r := FindMatch(v, pat, 0);
    assert r.Some?;
    assert r.value == p;
  }

  /** Where nothing matches, the string is unchanged. */
  lemma ReplaceNone(v: string, pat: seq<Atom>, cut: nat, pre: string, mid: string)
    requires cut <= |pat|
    requires forall q: nat :: q + |pat| <= |v| ==> !MatchesAt(v, q, pat)
    ensures Replace(v, pat, cut, pre, mid) == v
  {
    assert FindMatch(v, pat, 0).None?;
  }

  /** A run of digits matches `\d{k}`. */
  lemma RunAt(v: string, p: nat, k: nat)
    requires p + k <= |v|
    requires forall i :: p <= i < p + k ==> IsDigit(v[i])
    ensures MatchesAt(v, p, Run(k))
  {
    var pat := Run(k);
    forall i | 0 <= i < k ensures AtomMatches(pat[i], v[p + i]) {
    }
  }

  /** A non-digit at `j` blocks every `\d{k}` match that would cover `j`. */
  lemma Barrier(v: string, k: nat, j: nat)
    requires j < |v| && !IsDigit(v[j])
    ensures forall q: nat :: q <= j < q + k ==> !MatchesAt(v, q, Run(k))
  {
    forall q: nat | q <= j < q + k ensures !MatchesAt(v, q, Run(k)) {
      assert !AtomMatches(Run(k)[j - q], v[q + (j - q)]);
    }
  }
}

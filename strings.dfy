/**
 * The few JavaScript string operations the core relies on, over `string`
 * (a `seq<char>`): `startsWith` is Dafny's prefix operator `<=`, and this
 * module gives `indexOf`/`includes`, `replace` with a string pattern (which
 * replaces only the FIRST occurrence) and `split(sep)[0]`.
 */
module Strings {
  import opened Wrappers

  /** `p` occurs in `s` starting at index `i`. */
  predicate OccursAt(s: string, p: string, i: nat) {
    i + |p| <= |s| && s[i..i + |p|] == p
  }

  /**
   * `s.indexOf(p, from)` for a non-empty pattern `p`: the least index at or
   * after `from` where `p` occurs, or None (JavaScript's -1). JavaScript clamps
   * `from` to `|s|`, which differs from this only for an empty pattern.
   */
  function IndexOf(s: string, p: string, from: nat): (r: Option<nat>)
    decreases |s| - from
    ensures r.Some? ==> from <= r.value && OccursAt(s, p, r.value)
    ensures r.Some? ==> forall j: nat :: from <= j < r.value ==> !OccursAt(s, p, j)
    ensures r.None? ==> forall j: nat :: from <= j ==> !OccursAt(s, p, j)
  {
    if from + |p| > |s| then None
    else if s[from..from + |p|] == p then Some(from)
    else
      assert |p| > 0;
      IndexOf(s, p, from + 1)
  }

  /** `s.includes(p)`. */
  function Includes(s: string, p: string): (r: bool)
    ensures r <==> exists i: nat :: OccursAt(s, p, i)
  {
    IndexOf(s, p, 0).Some?
  }

  /** `s.replace(pat, rep)` with a string pattern: only the first occurrence is replaced. */
  function ReplaceFirst(s: string, pat: string, rep: string): (r: string)
    ensures !Includes(s, pat) ==> r == s
  {
    match IndexOf(s, pat, 0)
    case None => s
    case Some(i) => s[..i] + rep + s[i + |pat|..]
  }

  /**
   * Replacing the first occurrence, at index `i`, keeps everything before `i`
   * and everything after the occurrence, and puts `rep` in between.
   */
  lemma ReplaceFirstAt(s: string, pat: string, rep: string, i: nat)
    requires OccursAt(s, pat, i)
    requires forall j: nat :: j < i ==> !OccursAt(s, pat, j)
    ensures ReplaceFirst(s, pat, rep) == s[..i] + rep + s[i + |pat|..]
    ensures |ReplaceFirst(s, pat, rep)| == |s| - |pat| + |rep|
  {
  }

  /** `s.split([sep])[0]`: the text before the first `sep`, or all of `s` when there is none. */
  function BeforeFirst(s: string, sep: char): (r: string)
    ensures r <= s
    ensures sep !in r
    ensures |r| < |s| ==> s[|r|] == sep
  {
    if s == [] || s[0] == sep then []
    else [s[0]] + BeforeFirst(s[1..], sep)
  }

  /** A `host:port` string splits at its first separator into the host. */
  lemma {:induction false} BeforeFirstOfJoin(host: string, sep: char, rest: string)
    requires sep !in host
    ensures BeforeFirst(host + [sep] + rest, sep) == host
  {
    if host != [] {
      assert (host + [sep] + rest)[1..] == host[1..] + [sep] + rest;
      BeforeFirstOfJoin(host[1..], sep, rest);
    }
  }

  /** A string without the separator is its own first piece. */
  lemma {:induction false} BeforeFirstWhole(s: string, sep: char)
    requires sep !in s
    ensures BeforeFirst(s, sep) == s
  {
    if s != [] {
      BeforeFirstWhole(s[1..], sep);
    }
  }
}

/**
 * The small part of JavaScript value semantics the dashboard's logic relies on:
 * optional (`undefined`/`null`) values, truthiness of strings, `||` and `??`
 * defaults, `String.prototype.trim`, `toLowerCase` and `split(sep)[0]`.
 */
module Js {

  /** A value that may be `undefined` or `null` (both behave the same everywhere here). */
  datatype Option<+T> = None | Some(value: T) {

    /** `x ?? default` */
    function GetOr(default: T): T {
      match this
      case Some(v) => v
      case None => default
    }
  }

  /** A string value is truthy when it is present and non-empty. */
  predicate Truthy(o: Option<string>) {
    o.Some? && o.value != ""
  }

  /** `o || fallback` on an optional string. */
  function Or(o: Option<string>, fallback: string): string {
    if Truthy(o) then o.value else fallback
  }

  /** `o || ""`: absent values read as the empty string. */
  function OrEmpty(o: Option<string>): string {
    Or(o, "")
  }

  /** A template-literal interpolation `${o ?? ""}`. */
  function Show(o: Option<string>): string {
    o.GetOr("")
  }

  lemma OrEmptyIsShow(o: Option<string>)
    ensures OrEmpty(o) == Show(o)
  {
  }

  /** `o || "x"` either keeps a truthy value or yields the fallback. */
  lemma OrCases(o: Option<string>, fallback: string)
    ensures Or(o, fallback) == fallback || (Truthy(o) && Or(o, fallback) == o.value)
    ensures fallback != "" ==> Or(o, fallback) != ""
  {
  }

  /** Characters removed by `trim`: ECMAScript WhiteSpace and LineTerminator code points. */
  predicate IsSpace(c: char) {
    || c == '\t' || c == '\n' || c == '\U{000B}' || c == '\U{000C}' || c == '\r' || c == ' '
    || c == '\U{00A0}' || c == '\U{1680}' || ('\U{2000}' <= c <= '\U{200A}')
    || c == '\U{2028}' || c == '\U{2029}' || c == '\U{202F}' || c == '\U{205F}'
    || c == '\U{3000}' || c == '\U{FEFF}'
  }

  /** Every character is white space. */
  predicate AllSpace(s: string) {
    s == [] || (IsSpace(s[0]) && AllSpace(s[1..]))
  }

  /** A character that is not white space rules a string out. */
  lemma {:induction false} NotAllSpace(s: string, k: int)
    requires 0 <= k < |s| && !IsSpace(s[k])
    ensures !AllSpace(s)
  {
    if k > 0 {
      assert s[1..][k - 1] == s[k];
      NotAllSpace(s[1..], k - 1);
    }
  }

  lemma {:induction false} AllSpaceAppend(a: string, b: string)
    requires AllSpace(a) && AllSpace(b)
    ensures AllSpace(a + b)
  {
    if a == [] {
      assert a + b == b;
    } else {
      AllSpaceAppend(a[1..], b);
      assert (a + b)[0] == a[0];
      assert (a + b)[1..] == a[1..] + b;
    }
  }

  lemma {:induction false} AllSpaceSplit(a: string, b: string)
    requires AllSpace(a + b)
    ensures AllSpace(a) && AllSpace(b)
  {
    if a == [] {
      assert a + b == b;
    } else {
      assert (a + b)[0] == a[0];
      assert (a + b)[1..] == a[1..] + b;
      AllSpaceSplit(a[1..], b);
    }
  }

  /** The number of white-space characters `s` starts with. */
  function LeadingSpaces(s: string): (n: nat)
    ensures n <= |s|
  {
    if s == [] || !IsSpace(s[0]) then 0 else 1 + LeadingSpaces(s[1..])
  }

  /** The number of white-space characters `s` ends with. */
  function TrailingSpaces(s: string): (n: nat)
    ensures n <= |s|
  {
    if s == [] || !IsSpace(s[|s| - 1]) then 0 else 1 + TrailingSpaces(s[..|s| - 1])
  }

  function TrimStart(s: string): string {
    s[LeadingSpaces(s)..]
  }

  function TrimEnd(s: string): string {
    s[..|s| - TrailingSpaces(s)]
  }

  /** `s.trim()` */
  function Trim(s: string): string {
    TrimEnd(TrimStart(s))
  }

  /** The leading run is white space, and it stops at a character that is not. */
  lemma {:induction false} LeadingSpacesSpec(s: string)
    ensures AllSpace(s[..LeadingSpaces(s)])
    ensures LeadingSpaces(s) < |s| ==> !IsSpace(s[LeadingSpaces(s)])
  {
    if s == [] || !IsSpace(s[0]) {
      assert s[..0] == [];
    } else {
      var n, m := LeadingSpaces(s), LeadingSpaces(s[1..]);
      LeadingSpacesSpec(s[1..]);
      assert s[..n][0] == s[0];
      assert s[..n][1..] == s[1..][..m];
      if n < |s| {
        assert s[n] == s[1..][m];
      }
    }
  }

  /** The trailing run is white space, and it stops at a character that is not. */
  lemma {:induction false} TrailingSpacesSpec(s: string)
    ensures AllSpace(s[|s| - TrailingSpaces(s)..])
    ensures TrailingSpaces(s) < |s| ==> !IsSpace(s[|s| - TrailingSpaces(s) - 1])
  {
    if s == [] || !IsSpace(s[|s| - 1]) {
      assert s[|s|..] == [];
    } else {
      var k := |s| - 1;
      var n, m := TrailingSpaces(s), TrailingSpaces(s[..k]);
      TrailingSpacesSpec(s[..k]);
      assert s[..k][k - m..] == s[k - m..k];
      assert AllSpace([s[k]]) by {
        assert [s[k]][1..] == [];
      }
      AllSpaceAppend(s[k - m..k], [s[k]]);
      assert s[|s| - n..] == s[k - m..k] + [s[k]];
      if n < |s| {
        assert s[|s| - n - 1] == s[..k][k - m - 1];
      }
    }
  }

  /** `trim` removes only surrounding white space: the result is a slice of the input,
      everything cut off is white space, and the result neither starts nor ends with it. */
  lemma TrimIsSlice(s: string)
    ensures exists i, j :: 0 <= i <= j <= |s| && Trim(s) == s[i..j]
                           && AllSpace(s[..i]) && AllSpace(s[j..])
    ensures Trim(s) == [] || (!IsSpace(Trim(s)[0]) && !IsSpace(Trim(s)[|Trim(s)| - 1]))
  {
    var i, j := TrimBounds(s);
    TrimEdges(s, i, j);
  }

  /** Where the trimmed text starts and ends in the input. */
  lemma TrimBounds(s: string) returns (i: nat, j: nat)
    ensures 0 <= i <= j <= |s| && Trim(s) == s[i..j]
    ensures AllSpace(s[..i]) && AllSpace(s[j..])
  {
    i := LeadingSpaces(s);
    var t := s[i..];
    j := i + |t| - TrailingSpaces(t);
    LeadingSpacesSpec(s);
    TrailingSpacesSpec(t);
    assert t[j - i..] == s[j..];
    assert t[..j - i] == s[i..j];
  }

  /** The trimmed text starts and ends with a character that is not white space. */
  lemma TrimEdges(s: string, i: nat, j: nat)
    requires 0 <= i <= j <= |s| && Trim(s) == s[i..j]
    ensures Trim(s) == [] || (!IsSpace(Trim(s)[0]) && !IsSpace(Trim(s)[|Trim(s)| - 1]))
  {
    var t := s[LeadingSpaces(s)..];
    LeadingSpacesSpec(s);
    TrailingSpacesSpec(t);
    if i < j {
      assert Trim(s)[0] == t[0];
      assert Trim(s)[j - i - 1] == t[|t| - TrailingSpaces(t) - 1];
    }
  }

  /** A string that neither starts nor ends with white space trims to itself. */
  lemma TrimUntrimmed(s: string)
    requires s != [] && !IsSpace(s[0]) && !IsSpace(s[|s| - 1])
    ensures Trim(s) == s
  {
  }

  /** A string trims to "" exactly when it is all white space. */
  lemma TrimEmptyIff(s: string)
    ensures Trim(s) == "" <==> AllSpace(s)
  {
    var i, j := TrimBounds(s);
    if Trim(s) == "" {
      assert s == s[..i] + s[j..];
      AllSpaceAppend(s[..i], s[j..]);
    } else {
      TrimEdges(s, i, j);
      assert s[i] == Trim(s)[0];
      NotAllSpace(s, i);
    }
  }

  /** ASCII upper-case letters lowered; every other character kept. */
  function LowerChar(c: char): char {
    if 'A' <= c <= 'Z' then (c as int + 32) as char else c
  }

  /** `s.toLowerCase()` (ASCII letters only). */
  function ToLower(s: string): (r: string)
    ensures |r| == |s|
    ensures forall i :: 0 <= i < |s| ==> r[i] == LowerChar(s[i])
  {
    seq(|s|, i requires 0 <= i < |s| => LowerChar(s[i]))
  }

  /** `s.split(sep)[0]`: the part of `s` before the first `sep`, or all of `s`. */
  function BeforeFirst(s: string, sep: char): (r: string)
    ensures |r| <= |s| && r == s[..|r|]
    ensures sep !in r
    ensures |r| < |s| ==> s[|r|] == sep
  {
    if s == [] || s[0] == sep then []
    else [s[0]] + BeforeFirst(s[1..], sep)
  }

  /** `pat` occurs in `s` starting at position `k`. */
  predicate OccursAt(s: string, pat: string, k: int) {
    0 <= k && k + |pat| <= |s| && s[k..k + |pat|] == pat
  }

  /** `s.indexOf(pat)`, with None for -1: the first position where `pat` occurs. */
  function IndexOf(s: string, pat: string): (r: Option<nat>)
    ensures r.Some? ==> OccursAt(s, pat, r.value) && forall k :: 0 <= k < r.value ==> !OccursAt(s, pat, k)
    ensures r.None? ==> forall k :: !OccursAt(s, pat, k)
    decreases |s|
  {
    if |s| < |pat| then None
    else if s[..|pat|] == pat then Some(0)
    else
      var r := IndexOf(s[1..], pat);
      IndexOfShift(s, pat);
      assert !OccursAt(s, pat, 0) by {
        assert s[0..|pat|] == s[..|pat|];
      }
      if r.Some? then Some(r.value + 1) else None
  }

  /** An occurrence in `s[1..]` is an occurrence in `s` one place later. */
  lemma IndexOfShift(s: string, pat: string)
    requires s != []
    ensures forall k :: 1 <= k ==> (OccursAt(s, pat, k) <==> OccursAt(s[1..], pat, k - 1))
  {
    forall k | 1 <= k
      ensures OccursAt(s, pat, k) <==> OccursAt(s[1..], pat, k - 1)
    {
      if k + |pat| <= |s| {
        assert s[1..][k - 1..k - 1 + |pat|] == s[k..k + |pat|];
      }
    }
  }

  /** `s.includes(pat)` */
  predicate Includes(s: string, pat: string) {
    IndexOf(s, pat).Some?
  }

  /** `s.replace(pat, rep)` with a string pattern: only the first occurrence is replaced. */
  function ReplaceFirst(s: string, pat: string, rep: string): (r: string)
    ensures !Includes(s, pat) ==> r == s
    ensures Includes(s, pat) ==> var i := IndexOf(s, pat).value;
      r == s[..i] + rep + s[i + |pat|..]
  {
    match IndexOf(s, pat)
    case None => s
    case Some(i) => s[..i] + rep + s[i + |pat|..]
  }

  /** The template literal `${a} ${b} ${c}`. */
  function Join3(a: string, b: string, c: string): string {
    a + " " + b + " " + c
  }
}

// String helpers with JavaScript semantics: Array.prototype.toString on a list
// of identifiers, String.prototype.replace with a string pattern, and
// String.prototype.toLowerCase restricted to ASCII letters.

module Text {

  import opened Common

  /** Array.prototype.toString / join(","): the elements separated by commas. */
  function JoinComma(xs: seq<string>): string
  {
    if |xs| == 0 then ""
    else if |xs| == 1 then xs[0]
    else xs[0] + "," + JoinComma(xs[1..])
  }

  /** String.prototype.split(","): the inverse of JoinComma used to state what it keeps. */
  function SplitComma(s: string): (r: seq<string>)
    ensures |r| >= 1
  {
    if s == [] then [""]
    else
      var rest := SplitComma(s[1..]);
      if s[0] == ',' then [""] + rest
      else [[s[0]] + rest[0]] + rest[1..]
  }

  predicate CommaFree(x: string)
  {
    forall k :: 0 <= k < |x| ==> x[k] != ','
  }

  lemma {:induction false} SplitCommaFree(x: string)
    requires CommaFree(x)
    ensures SplitComma(x) == [x]
  {
    if x != [] {
      SplitCommaFree(x[1..]);
      assert [x[0]] + x[1..] == x;
    }
  }

  lemma {:induction false} SplitOverComma(x: string, t: string)
    requires CommaFree(x)
    ensures SplitComma(x + "," + t) == [x] + SplitComma(t)
  {
    if x == [] {
      assert x + "," + t == [','] + t;
      assert ([','] + t)[1..] == t;
    } else {
      var w := x + "," + t;
      assert w[1..] == x[1..] + "," + t;
      SplitOverComma(x[1..], t);
      assert [x[0]] + x[1..] == x;
    }
  }

  /** Comma-free, non-empty lists of identifiers survive the join: the order and
      every element can be read back from the joined string. */
  lemma {:induction false} SplitJoin(xs: seq<string>)
    requires |xs| >= 1
    requires forall i :: 0 <= i < |xs| ==> CommaFree(xs[i])
    ensures SplitComma(JoinComma(xs)) == xs
  {
    if |xs| == 1 {
      SplitCommaFree(xs[0]);
    } else {
      SplitJoin(xs[1..]);
      SplitOverComma(xs[0], JoinComma(xs[1..]));
      assert [xs[0]] + xs[1..] == xs;
    }
  }

  /** pat occurs in s starting at position k. */
  predicate OccursAt(s: string, pat: string, k: nat)
  {
    k + |pat| <= |s| && s[k..k + |pat|] == pat
  }

  lemma ShiftOccurrence(s: string, pat: string)
    requires |s| >= 1
    ensures forall k: nat :: 1 <= k ==> (OccursAt(s, pat, k) <==> OccursAt(s[1..], pat, k - 1))
  {
    forall k: nat | 1 <= k ensures OccursAt(s, pat, k) <==> OccursAt(s[1..], pat, k - 1) {
      if k + |pat| <= |s| {
        assert s[1..][k - 1..k - 1 + |pat|] == s[k..k + |pat|];
      }
    }
  }

  /** Position of the first occurrence of pat in s. */
  function IndexOf(s: string, pat: string): (r: Option<nat>)
    ensures r.Some? ==> OccursAt(s, pat, r.value)
    ensures r.Some? ==> forall k: nat :: k < r.value ==> !OccursAt(s, pat, k)
    ensures r.None? ==> forall k: nat :: !OccursAt(s, pat, k)
    decreases |s|
  {
    if |s| < |pat| then None
    else if s[..|pat|] == pat then Some(0)
    else
      assert !OccursAt(s, pat, 0) by { assert s[0..|pat|] == s[..|pat|]; }
      ShiftOccurrence(s, pat);
      match IndexOf(s[1..], pat)
      case None => None
      case Some(i) => Some(i + 1)
  }

  /** String.prototype.replace(pat, rep) with a string pattern and a
      replacement without `$` patterns (JavaScript expands `$&`, `$$` and the
      like inside rep, which this does not): only the first occurrence is
      replaced; without one the string is unchanged. */
  function ReplaceFirst(s: string, pat: string, rep: string): (r: string)
    ensures IndexOf(s, pat).None? ==> r == s
    ensures IndexOf(s, pat).Some? ==>
      var i := IndexOf(s, pat).value;
      |r| == |s| - |pat| + |rep| &&
      r[..i] == s[..i] && r[i..i + |rep|] == rep && r[i + |rep|..] == s[i + |pat|..]
  {
    match IndexOf(s, pat)
    case None => s
    case Some(i) => s[..i] + rep + s[i + |pat|..]
  }

  function LowerChar(c: char): char
  {
    if 'A' <= c <= 'Z' then (c as int + 32) as char else c
  }

  /** String.prototype.toLowerCase on ASCII letters. */
  function Lower(s: string): (r: string)
    ensures |r| == |s|
    ensures forall k :: 0 <= k < |s| ==> r[k] == LowerChar(s[k])
  {
    if s == [] then [] else [LowerChar(s[0])] + Lower(s[1..])
  }
}

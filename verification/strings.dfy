/** The two `std::string` operations the verbosity parser relies on:
    substring search (`find(pat, 0) != npos`) and splitting at a separator
    by repeated `find` / `substr`.  Joining is the partner of splitting. */
module Strings {

  /** `pat` occurs in `s` at position `i`. */
  predicate OccursAt(s: string, pat: string, i: nat)
  {
    i + |pat| <= |s| && s[i..i + |pat|] == pat
  }

  /** `s.find(pat, 0) != string::npos`, scanning positions left to right. */
  function Contains(s: string, pat: string): bool
    decreases |s|
  {
    if |s| < |pat| then false
    else if s[..|pat|] == pat then true
    else Contains(s[1..], pat)
  }

  /** The scan agrees with the positional definition of an occurrence. */
  lemma {:induction false} ContainsIffOccurs(s: string, pat: string)
    ensures Contains(s, pat) <==> exists i: nat :: OccursAt(s, pat, i)
    decreases |s|
  {
    if |s| < |pat| {
      forall i: nat
        ensures !OccursAt(s, pat, i)
      {
      }
    } else if s[..|pat|] == pat {
      assert OccursAt(s, pat, 0);
    } else {
      ContainsIffOccurs(s[1..], pat);
      if Contains(s[1..], pat) {
        var i: nat :| OccursAt(s[1..], pat, i);
        assert s[i + 1..i + 1 + |pat|] == s[1..][i..i + |pat|];
        assert OccursAt(s, pat, i + 1);
      } else {
        forall i: nat | OccursAt(s, pat, i)
          ensures false
        {
          assert i != 0;
          assert s[1..][i - 1..i - 1 + |pat|] == s[i..i + |pat|];
          assert OccursAt(s[1..], pat, i - 1);
        }
      }
    }
  }

  /** Position of the first `c` in `s` (`s.find(c, 0)` when it succeeds). */
  function IndexOf(s: string, c: char): (p: nat)
    requires c in s
    ensures p < |s| && s[p] == c && c !in s[..p]
  {
    if s[0] == c then 0
    else
      assert s == [s[0]] + s[1..];
      1 + IndexOf(s[1..], c)
  }

  /** Cuts `s` at every `sep`: the token before the first separator, then the
      tokens of the rest.  A string without a separator is one token, so the
      empty string yields one empty token. */
  function Split(s: string, sep: char): (parts: seq<string>)
    ensures |parts| >= 1
    ensures forall k :: 0 <= k < |parts| ==> sep !in parts[k]
    decreases |s|
  {
    if sep !in s then [s]
    else
      var p := IndexOf(s, sep);
      [s[..p]] + Split(s[p + 1..], sep)
  }

  /** Glues tokens back together with `sep` between neighbours. */
  function Join(parts: seq<string>, sep: char): string
    requires |parts| >= 1
    decreases |parts|
  {
    if |parts| == 1 then parts[0]
    else parts[0] + [sep] + Join(parts[1..], sep)
  }

  /** Splitting loses nothing: joining the tokens restores the input. */
  lemma {:induction false} JoinSplit(s: string, sep: char)
    ensures Join(Split(s, sep), sep) == s
    decreases |s|
  {
    if sep in s {
      var p := IndexOf(s, sep);
      var rest := s[p + 1..];
      JoinSplit(rest, sep);
      var parts := Split(s, sep);
      assert parts == [s[..p]] + Split(rest, sep);
      assert parts[1..] == Split(rest, sep);
      assert s == s[..p] + [sep] + rest;
    }
  }

  /** A separator-free token followed by `sep` is cut off as the first token. */
  lemma SplitAtFirst(a: string, rest: string, sep: char)
    requires sep !in a
    ensures Split(a + [sep] + rest, sep) == [a] + Split(rest, sep)
  {
    var s := a + [sep] + rest;
    assert s[|a|] == sep;
    var p := IndexOf(s, sep);
    assert s[..|a|] == a;
    assert p == |a|;
    assert s[p + 1..] == rest;
  }

  /** Joining separator-free tokens and splitting again gives the tokens back. */
  lemma {:induction false} SplitJoin(parts: seq<string>, sep: char)
    requires |parts| >= 1
    requires forall k :: 0 <= k < |parts| ==> sep !in parts[k]
    ensures Split(Join(parts, sep), sep) == parts
    decreases |parts|
  {
    if |parts| > 1 {
      var rest := Join(parts[1..], sep);
      assert Join(parts, sep) == parts[0] + [sep] + rest;
      assert sep !in parts[0];
      SplitAtFirst(parts[0], rest, sep);
      SplitJoin(parts[1..], sep);
      assert parts == [parts[0]] + parts[1..];
    }
  }
}

/** Wildcard origins of the CORS middleware (apis/middlewares_cors.go). Strings are sequences of
    bytes, written as characters. */
module Cors {
  import opened Sequences

  // ---- strings.Index and strings.Split ----------------------------------------------------------------

  predicate OccursAt(s: string, sub: string, i: nat) {
    i + |sub| <= |s| && s[i..i + |sub|] == sub
  }

  /** The first place where `sub` occurs in `s`, or the length of `s` if it does not. */
  function Index(s: string, sub: string): (i: nat)
    requires sub != ""
    ensures i <= |s|
    ensures i < |s| ==> OccursAt(s, sub, i)
    ensures forall k :: 0 <= k < i ==> !OccursAt(s, sub, k)
    ensures i == |s| <==> forall k :: 0 <= k < |s| ==> !OccursAt(s, sub, k)
  {
    IndexFrom(s, sub, 0)
  }

  function IndexFrom(s: string, sub: string, from: nat): (i: nat)
    requires sub != "" && from <= |s|
    ensures from <= i <= |s|
    ensures i < |s| ==> OccursAt(s, sub, i)
    ensures forall k :: from <= k < i ==> !OccursAt(s, sub, k)
    decreases |s| - from
  {
    if from == |s| || OccursAt(s, sub, from) then from else IndexFrom(s, sub, from + 1)
  }

  predicate Contains(s: string, sub: string)
    requires sub != ""
  {
    Index(s, sub) < |s|
  }

  /** The labels of a host name: the text between the dots, always at least one. */
  function Labels(s: string): (r: seq<string>)
    ensures r != []
    ensures forall i :: 0 <= i < |r| ==> '.' !in r[i]
  {
    if s == "" then [""]
    else
      var rest := Labels(s[1..]);
      if s[0] == '.' then [""] + rest else [[s[0]] + rest[0]] + rest[1..]
  }

  function Joined(labels: seq<string>): string
    requires labels != []
  {
    if |labels| == 1 then labels[0] else labels[0] + "." + Joined(labels[1..])
  }

  /** Splitting at the dots loses nothing. */
  lemma {:induction false} LabelsJoin(s: string)
    ensures Joined(Labels(s)) == s
  {
    if s != "" {
      var rest := Labels(s[1..]);
      LabelsJoin(s[1..]);
      assert s == [s[0]] + s[1..];
      if s[0] == '.' {
        assert ([""] + rest)[1..] == rest;
        assert "" + "." + Joined(rest) == "." + Joined(rest);
      } else {
        assert ([[s[0]] + rest[0]] + rest[1..])[1..] == rest[1..];
        if |rest| > 1 {
          assert [s[0]] + rest[0] + "." + Joined(rest[1..]) == [s[0]] + (rest[0] + "." + Joined(rest[1..]));
        }
      }
    }
  }

  // ---- which origins a pattern allows -----------------------------------------------------------------

  predicate SameScheme(domain: string, pattern: string) {
    && Contains(domain, ":") && Contains(pattern, ":")
    && domain[..Index(domain, ":")] == pattern[..Index(pattern, ":")]
  }

  function Authority(s: string): string
    requires Contains(s, "://")
  {
    s[Index(s, "://") + 3..]
  }

  predicate RightmostStar(labels: seq<string>, k: nat) {
    k < |labels| && labels[k] == "*" && forall i :: k < i < |labels| ==> labels[i] != "*"
  }

  /** The labels right of the pattern's rightmost star are the rightmost labels of the domain,
      which has at least one more. */
  ghost predicate LabelsMatch(domain: seq<string>, pattern: seq<string>) {
    exists k: nat :: RightmostStar(pattern, k)
      && |pattern| - k - 1 < |domain|
      && domain[|domain| - (|pattern| - k - 1)..] == pattern[k + 1..]
  }

  ghost predicate Matches(domain: string, pattern: string) {
    && SameScheme(domain, pattern)
    && Contains(domain, "://") && Contains(pattern, "://")
    && |Authority(domain)| <= 253
    && LabelsMatch(Labels(Authority(domain)), Labels(Authority(pattern)))
  }

  // ---- the reversed labels ----------------------------------------------------------------------------

  /** The scan from the right meets the star of the pattern at position i, and matched before. */
  predicate StarAt(domain: seq<string>, pattern: seq<string>, i: nat) {
    && i < |domain| && i < |pattern| && pattern[i] == "*"
    && forall k :: 0 <= k < i ==> pattern[k] != "*" && pattern[k] == domain[k]
  }

  ghost predicate StarFound(domain: seq<string>, pattern: seq<string>) {
    exists i: nat :: StarAt(domain, pattern, i)
  }

  lemma MatchIsScanned(domain: seq<string>, pattern: seq<string>, k: nat)
    requires RightmostStar(pattern, k) && |pattern| - k - 1 < |domain|
    requires domain[|domain| - (|pattern| - k - 1)..] == pattern[k + 1..]
    ensures StarAt(Reversed(domain), Reversed(pattern), |pattern| - k - 1)
  {
    var d, p := Reversed(domain), Reversed(pattern);
    var i := |pattern| - k - 1;
    var x, y := domain[|domain| - i..], pattern[k + 1..];
    forall j | 0 <= j < i ensures p[j] != "*" && p[j] == d[j] {
      assert p[j] == pattern[|pattern| - 1 - j] == y[i - 1 - j];
      assert d[j] == domain[|domain| - 1 - j] == x[i - 1 - j];
    }
  }

  lemma ScannedIsMatch(domain: seq<string>, pattern: seq<string>, i: nat)
    requires StarAt(Reversed(domain), Reversed(pattern), i)
    ensures LabelsMatch(domain, pattern)
  {
    var d, p := Reversed(domain), Reversed(pattern);
    var k := |pattern| - 1 - i;
    assert pattern[k] == p[i];
    forall j | k < j < |pattern| ensures pattern[j] != "*" {
      assert pattern[j] == p[|pattern| - 1 - j];
    }
    assert RightmostStar(pattern, k);
    var x, y := domain[|domain| - i..], pattern[k + 1..];
    forall j | 0 <= j < i ensures x[j] == y[j] {
      assert x[j] == domain[|domain| - i + j] == d[i - 1 - j];
      assert y[j] == pattern[k + 1 + j] == p[i - 1 - j];
    }
    assert x == y;
  }

  /** Scanning both label lists from their right ends decides whether they match. */
  lemma ScanDecides(domain: seq<string>, pattern: seq<string>)
    ensures LabelsMatch(domain, pattern) <==> StarFound(Reversed(domain), Reversed(pattern))
  {
    hide StarAt;
    if LabelsMatch(domain, pattern) {
      var k: nat :| RightmostStar(pattern, k) && |pattern| - k - 1 < |domain|
        && domain[|domain| - (|pattern| - k - 1)..] == pattern[k + 1..];
      MatchIsScanned(domain, pattern, k);
    }
    if StarFound(Reversed(domain), Reversed(pattern)) {
      var i: nat :| StarAt(Reversed(domain), Reversed(pattern), i);
      ScannedIsMatch(domain, pattern, i);
    }
  }

  // ---- the code ---------------------------------------------------------------------------------------

  /** The labels of a host name in an array. */
  method Split(s: string) returns (labels: array<string>)
    ensures fresh(labels) && labels[..] == Labels(s)
  {
    var found := Labels(s);
    labels := new string[|found|];
    for i := 0 to |found|
      invariant labels[..i] == found[..i]
    {
      labels[i] := found[i];
      assert found[..i + 1] == found[..i] + [found[i]];
    }
    assert labels[..] == labels[..|found|] && found[..|found|] == found;
  }

  /** Swaps elements from the middle outwards. */
  method ReverseInPlace(a: array<string>)
    modifies a
    ensures a[..] == Reversed(old(a[..]))
  {
    var n := a.Length;
    var i := n / 2 - 1;
    while i >= 0
      invariant -1 <= i <= n / 2 - 1
      invariant forall k :: 0 <= k <= i || n - 1 - i <= k < n ==> a[k] == old(a[k])
      invariant forall k :: i < k < n - 1 - i ==> a[k] == old(a[n - 1 - k])
    {
      var opp := n - 1 - i;
      a[i], a[opp] := a[opp], a[i];
      i := i - 1;
    }
  }

  method MatchScheme(domain: string, pattern: string) returns (matches: bool)
    ensures matches <==> SameScheme(domain, pattern)
  {
    var didx, pidx := Index(domain, ":"), Index(pattern, ":");
    return didx < |domain| && pidx < |pattern| && domain[..didx] == pattern[..pidx];
  }

  /** The loop over the reversed labels, with its early exits. */
  method ScanReversed(domComp: array<string>, patComp: array<string>) returns (matches: bool)
    ensures matches <==> StarFound(domComp[..], patComp[..])
  {
    ghost var d, p := domComp[..], patComp[..];
    for i := 0 to domComp.Length
      invariant i <= patComp.Length
      invariant forall k :: 0 <= k < i ==> p[k] != "*" && p[k] == d[k]
    {
      if patComp.Length <= i {
        return false;
      }
      if patComp[i] == "*" {
        assert StarAt(d, p, i);
        return true;
      }
      if patComp[i] != domComp[i] {
        return false;
      }
    }
    return false;
  }

  method MatchLabels(domAuth: string, patAuth: string) returns (matches: bool)
    ensures matches <==> LabelsMatch(Labels(domAuth), Labels(patAuth))
  {
    hide Labels, LabelsMatch, StarFound;
    var domComp := Split(domAuth);
    var patComp := Split(patAuth);
    ReverseInPlace(domComp);
    ReverseInPlace(patComp);
    ScanDecides(Labels(domAuth), Labels(patAuth));
    matches := ScanReversed(domComp, patComp);
  }

  method MatchSubdomain(domain: string, pattern: string) returns (matches: bool)
    ensures matches <==> Matches(domain, pattern)
  {
    hide Labels, LabelsMatch;
    var sameScheme := MatchScheme(domain, pattern);
    if !sameScheme {
      return false;
    }
    var didx, pidx := Index(domain, "://"), Index(pattern, "://");
    if didx == |domain| || pidx == |pattern| {
      return false;
    }
    var domAuth := domain[didx + 3..];
    if |domAuth| > 253 {
      return false;
    }
    var patAuth := pattern[pidx + 3..];
    matches := MatchLabels(domAuth, patAuth);
  }
}

/** Vocabulary shared by the other modules: optional values, Python's `str.strip`, and maxima. */
module Basics {

  datatype Option<+T> = None | Some(value: T)

  function Max(a: int, b: int): int { if a < b then b else a }

  function Min(a: int, b: int): int { if a < b then a else b }

  function MaxReal(a: real, b: real): real { if a < b then b else a }

  /** `s[:n]` for a non-negative bound. */
  function Take<T>(s: seq<T>, n: nat): seq<T> { if |s| <= n then s else s[..n] }

  /** The characters Python's `str.strip()` removes. */
  predicate IsSpace(c: char) {
    || '\t' <= c <= '\r'
    || '\U{001c}' <= c <= ' '
    || c == '\U{0085}' || c == '\U{00a0}' || c == '\U{1680}' || c == '\U{2028}' || c == '\U{2029}'
    || c == '\U{202f}' || c == '\U{205f}' || c == '\U{3000}'
    || '\U{2000}' <= c <= '\U{200a}'
  }

  function StripLeft(s: string): string {
    if s != "" && IsSpace(s[0]) then StripLeft(s[1..]) else s
  }

  function StripRight(s: string): string {
    if s != "" && IsSpace(s[|s| - 1]) then StripRight(s[..|s| - 1]) else s
  }

  function Strip(s: string): string { StripRight(StripLeft(s)) }

  /** Stripping on the right cuts off the white space at the end, and nothing else. */
  lemma {:induction false} StripRightMeans(s: string)
    ensures var r := StripRight(s);
            && r <= s && (forall i :: |r| <= i < |s| ==> IsSpace(s[i])) && (r != "" ==> !IsSpace(r[|r| - 1]))
    decreases |s|
  {
    hide IsSpace;
    if s != "" && IsSpace(s[|s| - 1]) {
      StripRightMeans(s[..|s| - 1]);
    }
  }

  lemma {:induction false} StripLeftMeans(s: string)
    ensures var r := StripLeft(s); var cut := |s| - |r|;
            && 0 <= cut <= |s| && r == s[cut..] && (forall i :: 0 <= i < cut ==> IsSpace(s[i])) && (r != "" ==> !IsSpace(r[0]))
    decreases |s|
  {
    hide IsSpace;
    if s != "" && IsSpace(s[0]) {
      StripLeftMeans(s[1..]);
      var r := StripLeft(s[1..]);
      var cut := |s| - |r|;
      forall i | 0 <= i < cut ensures IsSpace(s[i]) {
        if i > 0 { assert s[i] == s[1..][i - 1]; }
      }
    }
  }

  /** Stripping cuts off the white space at both ends, and nothing else. */
  lemma StripMeans(s: string) returns (cut: nat)
    ensures var r := Strip(s);
            && cut + |r| <= |s| && r == s[cut..cut + |r|]
            && (forall i :: 0 <= i < cut || cut + |r| <= i < |s| ==> IsSpace(s[i]))
            && (r != "" ==> !IsSpace(r[0]) && !IsSpace(r[|r| - 1]))
  {
    hide IsSpace;
    StripLeftMeans(s);
    var l := StripLeft(s);
    StripRightMeans(l);
    cut := |s| - |l|;
    forall i | cut + |Strip(s)| <= i < |s| ensures IsSpace(s[i]) {
      assert s[i] == l[i - cut];
    }
  }

  lemma {:induction false} StripRightNoLonger(s: string)
    ensures |StripRight(s)| <= |s|
    decreases |s|
  {
    if s != "" && IsSpace(s[|s| - 1]) {
      StripRightNoLonger(s[..|s| - 1]);
    }
  }

  lemma {:induction false} StripNoLonger(s: string)
    ensures |StripLeft(s)| <= |s| && |Strip(s)| <= |s|
    decreases |s|
  {
    if s != "" && IsSpace(s[0]) {
      StripNoLonger(s[1..]);
    }
    StripRightNoLonger(StripLeft(s));
  }

  lemma SubsetSize<T>(s: set<T>, t: set<T>)
    requires s <= t
    ensures |s| <= |t|
    ensures |s| == |t| ==> s == t
  {
    assert t == s + (t - s);
  }

  /** Two strings cut at a separator that the first parts do not contain agree in both parts. */
  lemma CutAtFirst(x1: string, y1: string, x2: string, y2: string, c: char)
    requires x1 + [c] + y1 == x2 + [c] + y2 && c !in x1 && c !in x2
    ensures x1 == x2 && y1 == y2
  {
    var s := x1 + [c] + y1;
    assert s[|x1|] == c && s[|x2|] == c;
    assert forall i :: 0 <= i < |x1| ==> s[i] == x1[i] && s[i] in x1;
    assert forall i :: 0 <= i < |x2| ==> s[i] == x2[i] && s[i] in x2;
    assert x1 == s[..|x1|] && x2 == s[..|x2|];
    assert y1 == s[|x1| + 1..] && y2 == s[|x2| + 1..];
  }

  /** The same for the last separator, where the last parts do not contain it. */
  lemma CutAtLast(x1: string, y1: string, x2: string, y2: string, c: char)
    requires x1 + [c] + y1 == x2 + [c] + y2 && c !in y1 && c !in y2
    ensures x1 == x2 && y1 == y2
  {
    var s := x1 + [c] + y1;
    assert s[|x1|] == c && s[|x2|] == c;
    assert y1 == s[|x1| + 1..] && y2 == s[|x2| + 1..];
    NotInRest(s, |x1| + 1, |x2|, c);
    NotInRest(s, |x2| + 1, |x1|, c);
    assert x1 == s[..|x1|] && x2 == s[..|x2|];
  }

  lemma NotInRest(s: string, from: nat, i: nat, c: char)
    requires from <= |s| && i < |s| && s[i] == c && c !in s[from..]
    ensures i < from
  {
    forall j | from <= j < |s| ensures s[j] in s[from..] {
      assert s[from..][j - from] == s[j];
    }
  }

  lemma {:induction false} StripRightKeeps(s: string, k: nat)
    requires k < |s| && !IsSpace(s[k])
    ensures StripRight(s) != ""
    decreases |s|
  {
    if IsSpace(s[|s| - 1]) { StripRightKeeps(s[..|s| - 1], k); }
  }

  lemma {:induction false} StripKeeps(s: string, k: nat)
    requires k < |s| && !IsSpace(s[k])
    ensures Strip(s) != ""
    decreases |s|
  {
    if IsSpace(s[0]) { StripKeeps(s[1..], k - 1); } else { StripRightKeeps(s, 0); }
  }

  lemma {:induction false} StripLeftBlank(s: string)
    requires forall k :: 0 <= k < |s| ==> IsSpace(s[k])
    ensures StripLeft(s) == ""
    decreases |s|
  {
    hide IsSpace;
    if s != "" {
      StripLeftBlank(s[1..]);
    }
  }

  /** Stripping leaves nothing exactly of white space. */
  lemma BlankIff(s: string)
    ensures Strip(s) == "" <==> forall k :: 0 <= k < |s| ==> IsSpace(s[k])
  {
    if forall k :: 0 <= k < |s| ==> IsSpace(s[k]) {
      StripLeftBlank(s);
    } else {
      var k :| 0 <= k < |s| && !IsSpace(s[k]);
      StripKeeps(s, k);
    }
  }
}

/** Suggesting which existing memory a proposal belongs to: heads are scored, the best of each key is
  * kept, and one key is recommended only if it stands out; otherwise the resolver abstains. */
module Identity {
  import opened Basics

  datatype Scope = Scope(buildRef: string, branchRef: string, commitRef: string, environmentRef: string)

  datatype Proposal = Proposal(kind: string, content: string, scope: Scope)

  datatype Head = Head(id: string, memoryKey: string, kind: string, content: string, state: string, revision: int, scope: Scope)

  /** What regular expressions and sequence matching contribute. A similarity lies between 0 and 1. */
  datatype Lexicon = Lexicon(
    lower: string -> string,
    normalize: string -> string,
    tokens: string -> set<string>,
    stableIds: string -> set<string>,
    structuredIds: string -> set<string>,
    similarity: (string, string) -> real)

  /* ---- Overlap of two sets ---- */

  function Overlap(left: set<string>, right: set<string>): real {
    if left == {} || right == {} then 0.0
    else
      var common := |left * right|;
      0.68 * (common as real / Max(1, Min(|left|, |right|)) as real) + 0.32 * (common as real / Max(1, |left + right|) as real)
  }

  lemma Ratio(a: nat, b: nat)
    requires a <= b && b >= 1
    ensures 0.0 <= a as real / b as real <= 1.0
    ensures a as real / b as real == 1.0 <==> a == b
    ensures a as real / b as real == 0.0 <==> a == 0
  {
    var x, y := a as real, b as real;
    assert x / y * y == x;
    assert a < b ==> x / y < 1.0;
  }

  lemma Sizes(left: set<string>, right: set<string>)
    ensures |left * right| <= |left| && |left * right| <= |right| && |left * right| <= |left + right|
    ensures |left + right| == |left| + |right| - |left * right|
    ensures |left * right| == |left| == |right| ==> left == right
    ensures |left| >= 1 <==> left != {}
  {
    assert left == (left * right) + (left - right);
    assert right == (left * right) + (right - left);
    assert left + right == left + (right - left);
  }

  /** Overlap is symmetric, lies between 0 and 1, is 0 for sets with nothing in common and 1 only for
    * equal sets. */
  lemma OverlapMeasures(left: set<string>, right: set<string>)
    ensures Overlap(left, right) == Overlap(right, left)
    ensures 0.0 <= Overlap(left, right) <= 1.0
    ensures Overlap(left, right) == 0.0 <==> left !! right
    ensures Overlap(left, right) == 1.0 <==> left == right && left != {}
  {
    Sizes(left, right);
    Sizes(right, left);
    assert left * right == right * left && left + right == right + left;
    if left != {} && right != {} {
      var common, smaller, all := |left * right|, Min(|left|, |right|), |left + right|;
      Ratio(common, smaller);
      Ratio(common, all);
      if left == right {
        assert left * right == left && left + right == left;
      }
      if left !! right {
        assert left * right == {};
      }
    }
  }

  /** How much of a larger set a part of it overlaps. */
  lemma OverlapOfPart(left: set<string>, right: set<string>)
    requires left <= right && left != {}
    ensures Overlap(left, right) == 0.68 + 0.32 * (|left| as real / |right| as real)
  {
    Sizes(left, right);
    assert left * right == left && left + right == right;
    Ratio(|left|, |left|);
  }

  /* ---- Scope ---- */

  function Fields(s: Scope): (f: seq<string>)
    ensures |f| == 4
  {
    [Strip(s.buildRef), Strip(s.branchRef), Strip(s.commitRef), Strip(s.environmentRef)]
  }

  datatype Relation = CrossScope | General | Exact | ProposalScoped | HeadScoped | Compatible

  predicate Blank(f: seq<string>) { forall i :: 0 <= i < |f| ==> f[i] == "" }

  predicate Conflict(l: seq<string>, r: seq<string>)
    requires |l| == |r|
  {
    exists i :: 0 <= i < |l| && l[i] != "" && r[i] != "" && l[i] != r[i]
  }

  /** What the relation of two scopes means. */
  function RelationOf(l: seq<string>, r: seq<string>): Relation
    requires |l| == |r|
  {
    if Conflict(l, r) then CrossScope
    else if Blank(l) && Blank(r) then General
    else if l == r then Exact
    else if Blank(r) then ProposalScoped
    else if Blank(l) then HeadScoped
    else Compatible
  }

  function Weight(rel: Relation): real {
    match rel
    case CrossScope => 0.28
    case General => 1.0
    case Exact => 1.0
    case ProposalScoped => 0.72
    case HeadScoped => 0.42
    case Compatible => 0.82
  }

  /** `_scope_relation`, by counting over the fields. */
  method ScopeRelation(proposal: Scope, head: Scope) returns (rel: Relation, weight: real)
    ensures rel == RelationOf(Fields(proposal), Fields(head)) && weight == Weight(rel)
  {
    hide Fields;
    var l, r := Fields(proposal), Fields(head);
    var supplied, exact, conflicts, proposalSpecific, headSpecific := 0, 0, 0, 0, 0;
    for i := 0 to |l|
      invariant 0 <= exact <= supplied <= i && conflicts >= 0 && proposalSpecific >= 0 && headSpecific >= 0
      invariant conflicts == 0 <==> !Conflict(l[..i], r[..i])
      invariant proposalSpecific == 0 <==> Blank(l[..i])
      invariant headSpecific == 0 <==> Blank(r[..i])
      invariant supplied == 0 <==> Blank(l[..i]) && Blank(r[..i])
      invariant exact == supplied <==> l[..i] == r[..i]
    {
      OneMoreField(l, r, i);
      if l[i] != "" {
        proposalSpecific := proposalSpecific + 1;
      }
      if r[i] != "" {
        headSpecific := headSpecific + 1;
      }
      if l[i] != "" || r[i] != "" {
        supplied := supplied + 1;
      }
      if l[i] != "" && r[i] != "" {
        if l[i] == r[i] {
          exact := exact + 1;
        } else {
          conflicts := conflicts + 1;
        }
      }
    }
    assert l[..|l|] == l && r[..|l|] == r;
    rel :=
      if conflicts != 0 then CrossScope
      else if supplied == 0 then General
      else if exact == supplied then Exact
      else if proposalSpecific != 0 && headSpecific == 0 then ProposalScoped
      else if headSpecific != 0 && proposalSpecific == 0 then HeadScoped
      else Compatible;
    weight := Weight(rel);
  }

  /** Both are given, and differ. */
  predicate Clash(a: string, b: string) { Strip(a) != "" && Strip(b) != "" && Strip(a) != Strip(b) }

  predicate Anywhere(s: Scope) { Strip(s.buildRef) == "" && Strip(s.branchRef) == "" && Strip(s.commitRef) == "" && Strip(s.environmentRef) == "" }

  predicate Alike(s: Scope, t: Scope) {
    && Strip(s.buildRef) == Strip(t.buildRef) && Strip(s.branchRef) == Strip(t.branchRef)
    && Strip(s.commitRef) == Strip(t.commitRef) && Strip(s.environmentRef) == Strip(t.environmentRef)
  }

  predicate Differs(l: seq<string>, r: seq<string>, i: nat)
    requires i < |l| == |r|
  {
    l[i] != "" && r[i] != "" && l[i] != r[i]
  }

  /** What a pair of scopes is worth. */
  lemma ScopeWeighs(p: Scope, h: Scope)
    ensures Weight(RelationOf(Fields(p), Fields(h))) ==
              if Clash(p.buildRef, h.buildRef) || Clash(p.branchRef, h.branchRef) || Clash(p.commitRef, h.commitRef)
                 || Clash(p.environmentRef, h.environmentRef) then 0.28
              else if Alike(p, h) then 1.0
              else if Anywhere(h) then 0.72
              else if Anywhere(p) then 0.42
              else 0.82
  {
    hide Strip;
    var l, r := Fields(p), Fields(h);
    assert l == [Strip(p.buildRef), Strip(p.branchRef), Strip(p.commitRef), Strip(p.environmentRef)];
    assert r == [Strip(h.buildRef), Strip(h.branchRef), Strip(h.commitRef), Strip(h.environmentRef)];
    assert Blank(l) <==> l[0] == "" && l[1] == "" && l[2] == "" && l[3] == "";
    assert Blank(r) <==> r[0] == "" && r[1] == "" && r[2] == "" && r[3] == "";
    assert Conflict(l, r) <==> Differs(l, r, 0) || Differs(l, r, 1) || Differs(l, r, 2) || Differs(l, r, 3);
    assert l == r <==> l[0] == r[0] && l[1] == r[1] && l[2] == r[2] && l[3] == r[3];
  }

  lemma OneMoreField(l: seq<string>, r: seq<string>, i: nat)
    requires |l| == |r| && i < |l|
    ensures Conflict(l[..i + 1], r[..i + 1]) <==> Conflict(l[..i], r[..i]) || (l[i] != "" && r[i] != "" && l[i] != r[i])
    ensures Blank(l[..i + 1]) <==> Blank(l[..i]) && l[i] == ""
    ensures Blank(r[..i + 1]) <==> Blank(r[..i]) && r[i] == ""
    ensures l[..i + 1] == r[..i + 1] <==> l[..i] == r[..i] && l[i] == r[i]
  {
    var l', r' := l[..i + 1], r[..i + 1];
    assert l' == l[..i] + [l[i]] && r' == r[..i] + [r[i]];
    assert forall j :: 0 <= j < i ==> l'[j] == l[..i][j] && r'[j] == r[..i][j];
    assert l'[i] == l[i] && r'[i] == r[i];
    if l' == r' {
      assert l[..i] == l'[..i] && r[..i] == r'[..i];
    }
  }

  /* ---- The score of one head ---- */

  function SkeletonSimilarity(x: Lexicon, left: string, right: string): real {
    var a, b := x.normalize(left), x.normalize(right);
    if a == "" || b == "" then 0.0 else x.similarity(a, b)
  }

  function HeadScore(x: Lexicon, p: Proposal, h: Head): (score: real)
    ensures 0.0 <= score <= 1.0
    ensures x.lower(p.kind) != x.lower(h.kind) ==> score == 0.0
  {
    if x.lower(p.kind) != x.lower(h.kind) then 0.0
    else
      var lexical := Overlap(x.tokens(p.content), x.tokens(h.content));
      var skeleton := SkeletonSimilarity(x, p.content, h.content);
      var exactSkeleton := x.normalize(p.content) != "" && x.normalize(p.content) == x.normalize(h.content);
      var identifier := Overlap(x.stableIds(p.content), x.stableIds(h.content));
      var mine, theirs := x.structuredIds(p.content), x.structuredIds(h.content);
      var entityConflict := mine != {} && theirs != {} && mine * theirs == {};
      var keyAffinity := Overlap(x.tokens(p.content), x.tokens(h.memoryKey));
      var scope := Weight(RelationOf(Fields(p.scope), Fields(h.scope)));
      var score := 0.44 * lexical + 0.26 * skeleton + 0.10 * identifier + 0.12 * keyAffinity + 0.08 * scope
                   + (if exactSkeleton then 0.08 else 0.0) - (if entityConflict then 0.22 else 0.0);
      if score < 0.0 then 0.0 else if score > 1.0 then 1.0 else score
  }

  /* ---- Resolution ---- */

  /** A head as the resolver sees it; the key is empty if the head does not take part. */
  datatype Scored = Scored(key: string, score: real, revision: int, id: string)

  function View(x: Lexicon, p: Proposal, h: Head): Scored {
    var key := x.lower(Strip(h.memoryKey));
    Scored(if h.state == "retracted" then "" else key, HeadScore(x, p, h), h.revision, h.id)
  }

  /** A head takes part unless it was withdrawn or its key is blank, and its key is compared in lower case. */
  lemma TakesPartIff(x: Lexicon, p: Proposal, h: Head)
    requires forall s :: x.lower(s) == "" <==> s == ""
    ensures View(x, p, h).key != "" <==> h.state != "retracted" && exists k :: 0 <= k < |h.memoryKey| && !IsSpace(h.memoryKey[k])
    ensures View(x, p, h).key != "" ==> View(x, p, h).key == x.lower(Strip(h.memoryKey))
  {
    hide Strip;
    BlankIff(h.memoryKey);
  }

  /** The heads share none of their structured identifiers with the proposal, though both have some. */
  predicate Contradicts(x: Lexicon, p: Proposal, h: Head) {
    var mine, theirs := x.structuredIds(p.content), x.structuredIds(h.content);
    mine != {} && theirs != {} && mine !! theirs
  }

  lemma ContradictsIff(x: Lexicon, p: Proposal, h: Head)
    ensures var mine, theirs := x.structuredIds(p.content), x.structuredIds(h.content);
            Contradicts(x, p, h) <==> mine != {} && theirs != {} && mine * theirs == {}
  {
    var mine, theirs := x.structuredIds(p.content), x.structuredIds(h.content);
    forall id | id in mine && id in theirs ensures mine * theirs != {} {
      assert id in mine * theirs;
    }
  }

  predicate SameSkeleton(x: Lexicon, p: Proposal, h: Head) {
    x.normalize(p.content) != "" && x.normalize(p.content) == x.normalize(h.content)
  }

  /** `k` matches the proposal at least as well as `h` in each respect. */
  predicate MatchesAsWell(x: Lexicon, p: Proposal, h: Head, k: Head) {
    && Overlap(x.tokens(p.content), x.tokens(h.content)) <= Overlap(x.tokens(p.content), x.tokens(k.content))
    && SkeletonSimilarity(x, p.content, h.content) <= SkeletonSimilarity(x, p.content, k.content)
    && Overlap(x.stableIds(p.content), x.stableIds(h.content)) <= Overlap(x.stableIds(p.content), x.stableIds(k.content))
    && Overlap(x.tokens(p.content), x.tokens(h.memoryKey)) <= Overlap(x.tokens(p.content), x.tokens(k.memoryKey))
    && Weight(RelationOf(Fields(p.scope), Fields(h.scope))) <= Weight(RelationOf(Fields(p.scope), Fields(k.scope)))
    && (SameSkeleton(x, p, h) ==> SameSkeleton(x, p, k)) && (Contradicts(x, p, k) ==> Contradicts(x, p, h))
  }

  /** Matching as well in each respect never scores less. */
  lemma BetterMatchScoresMore(x: Lexicon, p: Proposal, h: Head, k: Head)
    requires x.lower(h.kind) == x.lower(p.kind) == x.lower(k.kind) && MatchesAsWell(x, p, h, k)
    ensures HeadScore(x, p, h) <= HeadScore(x, p, k)
  {
    hide Overlap, SkeletonSimilarity, Weight, RelationOf, Fields;
    ContradictsIff(x, p, h);
    ContradictsIff(x, p, k);
  }

  /** Two heads of one kind whose scores are not cut off differ by what each respect is worth: 0.44 for the contents'
    * tokens, 0.26 for their skeletons, 0.10 for identifiers, 0.12 for the key, 0.08 for the scope, 0.08 for an equal
    * skeleton, and minus 0.22 for contradicting identifiers. */
  lemma ScoresDiffer(x: Lexicon, p: Proposal, h: Head, k: Head)
    requires x.lower(h.kind) == x.lower(p.kind) == x.lower(k.kind) && 0.0 < HeadScore(x, p, h) < 1.0 && 0.0 < HeadScore(x, p, k) < 1.0
    ensures 100.0 * (HeadScore(x, p, k) - HeadScore(x, p, h)) ==
              44.0 * (Overlap(x.tokens(p.content), x.tokens(k.content)) - Overlap(x.tokens(p.content), x.tokens(h.content)))
              + 26.0 * (SkeletonSimilarity(x, p.content, k.content) - SkeletonSimilarity(x, p.content, h.content))
              + 10.0 * (Overlap(x.stableIds(p.content), x.stableIds(k.content)) - Overlap(x.stableIds(p.content), x.stableIds(h.content)))
              + 12.0 * (Overlap(x.tokens(p.content), x.tokens(k.memoryKey)) - Overlap(x.tokens(p.content), x.tokens(h.memoryKey)))
              + 8.0 * (Weight(RelationOf(Fields(p.scope), Fields(k.scope))) - Weight(RelationOf(Fields(p.scope), Fields(h.scope))))
              + 8.0 * ((if SameSkeleton(x, p, k) then 1.0 else 0.0) - (if SameSkeleton(x, p, h) then 1.0 else 0.0))
              - 22.0 * ((if Contradicts(x, p, k) then 1.0 else 0.0) - (if Contradicts(x, p, h) then 1.0 else 0.0))
  {
    hide Overlap, SkeletonSimilarity, Weight, RelationOf, Fields;
    ContradictsIff(x, p, h);
    ContradictsIff(x, p, k);
  }

  /** Without a common word in the contents no head scores above 0.64, so none is recommended at a threshold beyond
    * that, such as the resolver's own of 0.72. */
  lemma NoWordInCommon(x: Lexicon, p: Proposal, h: Head)
    requires x.tokens(p.content) !! x.tokens(h.content) && forall a, b :: 0.0 <= x.similarity(a, b) <= 1.0
    ensures HeadScore(x, p, h) <= 0.64
  {
    hide Overlap, RelationOf, Fields;
    OverlapMeasures(x.tokens(p.content), x.tokens(h.content));
    OverlapMeasures(x.stableIds(p.content), x.stableIds(h.content));
    OverlapMeasures(x.tokens(p.content), x.tokens(h.memoryKey));
  }

  /** A head that says the same is recognised: it scores at least 0.8, above the default threshold, whatever their keys
    * and scopes. */
  lemma SameWordsScore(x: Lexicon, p: Proposal, h: Head)
    requires x.lower(h.kind) == x.lower(p.kind) && h.content == p.content
    requires x.tokens(p.content) != {} && x.normalize(p.content) != "" && forall s :: x.similarity(s, s) == 1.0
    ensures HeadScore(x, p, h) >= 0.8
  {
    hide Overlap, RelationOf, Fields;
    OverlapMeasures(x.tokens(p.content), x.tokens(h.content));
    OverlapMeasures(x.stableIds(p.content), x.stableIds(h.content));
    OverlapMeasures(x.tokens(p.content), x.tokens(h.memoryKey));
    var ids := x.structuredIds(p.content);
    assert ids * ids == ids;
  }

  function Views(x: Lexicon, p: Proposal, heads: seq<Head>): (vs: seq<Scored>)
    ensures |vs| == |heads| && forall i :: 0 <= i < |vs| ==> vs[i] == View(x, p, heads[i])
  {
    seq(|heads|, i requires 0 <= i < |heads| => View(x, p, heads[i]))
  }

  datatype Config = Config(threshold: real, margin: real, floor: real)

  function Clamp(lo: real, v: real, hi: real): real { if v < lo then lo else if v > hi then hi else v }

  function MakeConfig(threshold: real, margin: real, floor: real): (c: Config)
    ensures 0.5 <= c.threshold <= 0.98 && 0.03 <= c.margin <= 0.40 && 0.2 <= c.floor <= c.threshold
    ensures (0.5 <= threshold <= 0.98 ==> c.threshold == threshold) && (0.03 <= margin <= 0.40 ==> c.margin == margin)
    ensures 0.2 <= floor <= c.threshold ==> c.floor == floor
  {
    var t := Clamp(0.50, threshold, 0.98);
    Config(t, Clamp(0.03, margin, 0.40), if MaxReal(0.20, floor) < t then MaxReal(0.20, floor) else t)
  }

  predicate Eligible(c: Config, s: Scored) { s.key != "" && s.score >= c.floor }

  /** No eligible head of the same key scores higher. */
  predicate TopOf(c: Config, vs: seq<Scored>, s: Scored) {
    s in vs && Eligible(c, s) && forall v :: v in vs && Eligible(c, v) && v.key == s.key ==> v.score <= s.score
  }

  /** Of the heads of its key with its score it is the first. */
  predicate FirstOf(vs: seq<Scored>, s: Scored) {
    exists i :: 0 <= i < |vs| && vs[i] == s && forall j :: 0 <= j < i && vs[j].key == s.key ==> vs[j].score < s.score
  }

  predicate Beats(c: Config, s: Scored, v: Scored) { v.key != s.key ==> s.score - v.score >= c.margin }

  /** The key stands out: its best head clears the threshold and beats every eligible head of every other
    * key by the margin. */
  ghost predicate Wins(c: Config, vs: seq<Scored>, key: string) {
    exists s :: TopOf(c, vs, s) && s.key == key && s.score >= c.threshold && forall v :: v in vs && Eligible(c, v) ==> Beats(c, s, v)
  }

  datatype Candidate = Candidate(key: string, score: real, recommended: bool, headId: string, revision: int)

  datatype Resolution = Resolution(candidates: seq<Candidate>, recommended: Option<string>, abstained: bool)

  predicate AtLeast(a: Scored, b: Scored) { a.score > b.score || (a.score == b.score && a.revision >= b.revision) }

  /** The best head of each key seen, keys in the order they were first seen. */
  ghost predicate BestByKey(c: Config, vs: seq<Scored>, order: seq<string>, best: map<string, Scored>) {
    && (forall i, j :: 0 <= i < j < |order| ==> order[i] != order[j])
    && (forall k :: k in order <==> k in best)
    && (forall k :: k in best ==> best[k].key == k && TopOf(c, vs, best[k]) && FirstOf(vs, best[k]))
    && (forall v :: v in vs && Eligible(c, v) ==> v.key in best)
  }

  function Insert(k: string, s: seq<string>, best: map<string, Scored>): (r: seq<string>)
    requires k in best && forall j :: j in s ==> j in best
    ensures |r| == |s| + 1 && forall j :: j in r <==> j == k || j in s
  {
    if s == [] then [k]
    else if AtLeast(best[s[0]], best[k]) then
      var r := Insert(k, s[1..], best);
      assert s == [s[0]] + s[1..];
      [s[0]] + r
    else [k] + s
  }

  /** From the best to the worst, no key twice. */
  predicate Ranked(s: seq<string>, best: map<string, Scored>) {
    && (forall k :: k in s ==> k in best)
    && forall i, j :: 0 <= i < j < |s| ==> AtLeast(best[s[i]], best[s[j]]) && s[i] != s[j]
  }

  lemma {:induction false} InsertRanks(k: string, s: seq<string>, best: map<string, Scored>)
    requires k in best && k !in s && Ranked(s, best)
    ensures Ranked(Insert(k, s, best), best)
    decreases |s|
  {
    var r := Insert(k, s, best);
    if s != [] {
      assert Ranked(s[1..], best);
      if AtLeast(best[s[0]], best[k]) {
        InsertRanks(k, s[1..], best);
        FirstRanks(s[0], Insert(k, s[1..], best), best);
      } else {
        FirstRanks(k, s, best);
      }
    }
  }

  lemma FirstRanks(k: string, s: seq<string>, best: map<string, Scored>)
    requires k in best && k !in s && Ranked(s, best) && forall j :: j in s ==> AtLeast(best[k], best[j])
    ensures Ranked([k] + s, best)
  {
    var r := [k] + s;
    forall i, j | 0 <= i < j < |r| ensures AtLeast(best[r[i]], best[r[j]]) && r[i] != r[j] {
      assert r[j] == s[j - 1] && r[j] in s && (i > 0 ==> r[i] == s[i - 1]);
    }
  }

  lemma FirstStays(vs: seq<Scored>, v: Scored, s: Scored)
    requires FirstOf(vs, s)
    ensures FirstOf(vs + [v], s)
  {
    var i :| 0 <= i < |vs| && vs[i] == s && forall j :: 0 <= j < i && vs[j].key == s.key ==> vs[j].score < s.score;
    assert (vs + [v])[i] == s && forall j :: 0 <= j < i ==> (vs + [v])[j] == vs[j];
  }

  lemma FirstNew(c: Config, vs: seq<Scored>, v: Scored, order: seq<string>, best: map<string, Scored>)
    requires BestByKey(c, vs, order, best) && Eligible(c, v) && (v.key !in best || v.score > best[v.key].score)
    ensures FirstOf(vs + [v], v)
  {
    var vs' := vs + [v];
    assert vs'[|vs|] == v;
    forall j | 0 <= j < |vs| && vs'[j].key == v.key ensures vs'[j].score < v.score {
      assert vs'[j] == vs[j] && vs[j] in vs;
    }
  }

  /** One more head: it opens a key, replaces a worse head of its key, or changes nothing. */
  lemma OneMoreHead(c: Config, vs: seq<Scored>, v: Scored, order: seq<string>, best: map<string, Scored>)
    requires BestByKey(c, vs, order, best)
    ensures !Eligible(c, v) ==> BestByKey(c, vs + [v], order, best)
    ensures Eligible(c, v) && v.key !in best ==> BestByKey(c, vs + [v], order + [v.key], best[v.key := v])
    ensures Eligible(c, v) && v.key in best && v.score > best[v.key].score ==> BestByKey(c, vs + [v], order, best[v.key := v])
    ensures Eligible(c, v) && v.key in best && v.score <= best[v.key].score ==> BestByKey(c, vs + [v], order, best)
  {
    hide FirstOf, Eligible;
    var vs' := vs + [v];
    assert forall u :: u in vs' <==> u in vs || u == v;
    forall s | FirstOf(vs, s) ensures FirstOf(vs', s) {
      FirstStays(vs, v, s);
    }
    if Eligible(c, v) && (v.key !in best || v.score > best[v.key].score) {
      FirstNew(c, vs, v, order, best);
    }
    if Eligible(c, v) && v.key !in best {
      assert forall k :: k in order + [v.key] <==> k in order || k == v.key;
    }
  }

  method Sorted(order: seq<string>, best: map<string, Scored>) returns (ranked: seq<string>)
    requires forall i, j :: 0 <= i < j < |order| ==> order[i] != order[j]
    requires forall k :: k in order ==> k in best
    ensures Ranked(ranked, best) && |ranked| == |order| && forall k :: k in ranked <==> k in order
  {
    hide Insert, AtLeast;
    ranked := [];
    for n := 0 to |order|
      invariant Ranked(ranked, best) && |ranked| == n
      invariant forall k :: k in ranked <==> k in order[..n]
    {
      assert order[..n + 1] == order[..n] + [order[n]];
      assert order[n] !in order[..n];
      InsertRanks(order[n], ranked, best);
      ranked := Insert(order[n], ranked, best);
    }
    assert order[..|order|] == order;
  }

  /** The first key is recommended exactly when it wins, and no other key wins. */
  lemma FirstWinsIff(c: Config, vs: seq<Scored>, order: seq<string>, best: map<string, Scored>, ranked: seq<string>)
    requires BestByKey(c, vs, order, best) && Ranked(ranked, best) && c.margin > 0.0
    requires forall k :: k in ranked <==> k in order
    ensures ranked != [] ==>
              (Wins(c, vs, ranked[0]) <==>
                (best[ranked[0]].score >= c.threshold
                && (|ranked| == 1 || best[ranked[0]].score - best[ranked[1]].score >= c.margin)))
    ensures forall k :: Wins(c, vs, k) ==> ranked != [] && k == ranked[0]
  {
    hide FirstOf;
    forall k | Wins(c, vs, k) ensures ranked != [] && k == ranked[0] {
      var s :| TopOf(c, vs, s) && s.key == k && s.score >= c.threshold && forall v :: v in vs && Eligible(c, v) ==> Beats(c, s, v);
      assert k in ranked;
      var first := best[ranked[0]];
      assert first in vs && Eligible(c, first) && Beats(c, s, first);
      assert AtLeast(first, best[k]);
    }
    if ranked != [] {
      FirstWins(c, vs, order, best, ranked);
    }
  }

  lemma FirstWins(c: Config, vs: seq<Scored>, order: seq<string>, best: map<string, Scored>, ranked: seq<string>)
    requires BestByKey(c, vs, order, best) && Ranked(ranked, best) && ranked != []
    requires forall k :: k in ranked <==> k in order
    ensures Wins(c, vs, ranked[0]) <==>
              (best[ranked[0]].score >= c.threshold && (|ranked| == 1 || best[ranked[0]].score - best[ranked[1]].score >= c.margin))
  {
    hide FirstOf;
    var first := best[ranked[0]];
    assert first.key == ranked[0] && TopOf(c, vs, first);
    if Wins(c, vs, ranked[0]) {
      var s :| TopOf(c, vs, s) && s.key == ranked[0] && s.score >= c.threshold && forall v :: v in vs && Eligible(c, v) ==> Beats(c, s, v);
      assert s.score == first.score;
      if |ranked| > 1 {
        var second := best[ranked[1]];
        assert second.key == ranked[1] && TopOf(c, vs, second) && Beats(c, s, second);
      }
    }
    if first.score >= c.threshold && (|ranked| == 1 || first.score - best[ranked[1]].score >= c.margin) {
      forall v | v in vs && Eligible(c, v) ensures Beats(c, first, v) {
        assert v.key in ranked;
        var i :| 0 <= i < |ranked| && ranked[i] == v.key;
        assert v.score <= best[v.key].score;
        if i > 1 {
          assert AtLeast(best[ranked[1]], best[ranked[i]]);
        }
      }
    }
  }

  /** The recommended key is the one that wins; without one the resolver abstains. */
  ghost predicate Recommends(c: Config, vs: seq<Scored>, r: Resolution) {
    && (forall k :: r.recommended == Some(k) <==> Wins(c, vs, k))
    && (r.abstained <==> forall k :: !Wins(c, vs, k))
  }

  /** Exactly one candidate is flagged, the first one, unless the resolver abstains. */
  predicate FlagsOne(r: Resolution) {
    if r.abstained then forall i :: 0 <= i < |r.candidates| ==> !r.candidates[i].recommended
    else
      && r.candidates != [] && Some(r.candidates[0].key) == r.recommended
      && forall i :: 0 <= i < |r.candidates| ==> (r.candidates[i].recommended <==> i == 0)
  }

  ghost predicate IsTopScore(c: Config, vs: seq<Scored>, candidate: Candidate) {
    exists s :: TopOf(c, vs, s) && FirstOf(vs, s) && candidate == Candidate(s.key, s.score, candidate.recommended, s.id, s.revision)
  }

  /** The candidates are different keys with their best scores, from the best on, and of equal ones from the latest
    * revision on. */
  ghost predicate Shows(c: Config, vs: seq<Scored>, r: Resolution, most: int) {
    && |r.candidates| <= most
    && (forall i :: 0 <= i < |r.candidates| ==> IsTopScore(c, vs, r.candidates[i]))
    && (forall i, j :: 0 <= i < j < |r.candidates| ==>
          && r.candidates[i].key != r.candidates[j].key && r.candidates[i].score >= r.candidates[j].score
          && (r.candidates[i].score == r.candidates[j].score ==> r.candidates[i].revision >= r.candidates[j].revision))
    && (forall v :: v in vs && Eligible(c, v) ==> ShownOrCut(r, most, v))
  }

  /** A key is missing only if there were enough candidates with at least its score. */
  predicate ShownOrCut(r: Resolution, most: int, v: Scored) {
    || (exists i :: 0 <= i < |r.candidates| && r.candidates[i].key == v.key)
    || (|r.candidates| == most && forall i :: 0 <= i < |r.candidates| ==> r.candidates[i].score >= v.score)
  }

  /** What a resolution promises about the heads it was made from. */
  ghost predicate Resolves(c: Config, vs: seq<Scored>, r: Resolution, most: int) {
    Recommends(c, vs, r) && FlagsOne(r) && Shows(c, vs, r, most)
  }

  /** `MemoryIdentityResolver.resolve`. */
  method Resolve(c: Config, x: Lexicon, p: Proposal, heads: seq<Head>, topK: int) returns (r: Resolution)
    requires c.margin > 0.0
    ensures var vs := if Strip(p.kind) == "" || Strip(p.content) == "" then [] else Views(x, p, heads);
            Resolves(c, vs, r, Max(1, Min(8, topK)))
  {
    hide Wins, BestByKey, HeadScore, Resolves, Ranked, View;
    if Strip(p.kind) == "" || Strip(p.content) == "" {
      NothingResolves(c, Max(1, Min(8, topK)));
      return Resolution([], None, true);
    }
    ghost var vs := Views(x, p, heads);
    var order: seq<string>, best: map<string, Scored> := [], map[];
    NoBest(c);
    for n := 0 to |heads|
      invariant BestByKey(c, vs[..n], order, best)
    {
      var v := View(x, p, heads[n]);
      assert vs[..n + 1] == vs[..n] + [v];
      OneMoreHead(c, vs[..n], v, order, best);
      if v.key == "" || v.score < c.floor {
        continue;
      }
      if v.key !in best {
        order := order + [v.key];
        best := best[v.key := v];
      } else if v.score > best[v.key].score {
        best := best[v.key := v];
      }
    }
    assert vs[..|heads|] == vs;
    KeysKnown(c, vs, order, best);
    var ranked := Sorted(order, best);
    r := Conclude(c, vs, order, best, ranked, Max(1, Min(8, topK)));
  }

  /** The recommendation and the candidates from the ranking. */
  method Conclude(c: Config, ghost vs: seq<Scored>, ghost order: seq<string>, best: map<string, Scored>, ranked: seq<string>, most: nat)
    returns (r: Resolution)
    requires c.margin > 0.0 && most >= 1
    requires BestByKey(c, vs, order, best) && Ranked(ranked, best) && forall k :: k in ranked <==> k in order
    ensures Resolves(c, vs, r, most)
  {
    hide Wins, BestByKey, CandidateOf, FlagsOne, Shows, AtLeast;
    FirstWinsIff(c, vs, order, best, ranked);
    RankedKnown(ranked, best);
    var recommended: Option<string> := None;
    if ranked != [] {
      var margin := best[ranked[0]].score - (if |ranked| > 1 then best[ranked[1]].score else 0.0);
      if best[ranked[0]].score >= c.threshold && (|ranked| == 1 || margin >= c.margin) {
        recommended := Some(ranked[0]);
      }
    }
    var shown := Take(ranked, most);
    var candidates := seq(|shown|, i requires 0 <= i < |shown| && shown[i] in best => CandidateOf(best, shown[i], recommended));
    r := Resolution(candidates, recommended, recommended.None?);
    ShownRight(c, vs, order, best, ranked, r, most);
  }

  function CandidateOf(best: map<string, Scored>, k: string, recommended: Option<string>): Candidate
    requires k in best
  {
    Candidate(k, best[k].score, Some(k) == recommended, best[k].id, best[k].revision)
  }

  lemma ShownRight(c: Config, vs: seq<Scored>, order: seq<string>, best: map<string, Scored>, ranked: seq<string>, r: Resolution, most: nat)
    requires most >= 1 && BestByKey(c, vs, order, best) && Ranked(ranked, best) && forall k :: k in ranked <==> k in order
    requires |r.candidates| == |Take(ranked, most)|
    requires forall i :: 0 <= i < |r.candidates| ==> ranked[i] in best && r.candidates[i] == CandidateOf(best, ranked[i], r.recommended)
    requires r.recommended.Some? ==> ranked != [] && r.recommended == Some(ranked[0])
    requires r.abstained == r.recommended.None?
    ensures FlagsOne(r) && Shows(c, vs, r, most)
  {
    hide TopOf, ShownOrCut, IsTopScore, Wins, Eligible, BestByKey;
    forall i | 0 <= i < |r.candidates| ensures IsTopScore(c, vs, r.candidates[i]) {
      TopShown(c, vs, order, best, ranked, r.candidates[i], i);
    }
    forall v | v in vs && Eligible(c, v) ensures ShownOrCut(r, most, v) {
      EligibleShown(c, vs, order, best, ranked, r, most, v);
    }
  }

  lemma TopShown(c: Config, vs: seq<Scored>, order: seq<string>, best: map<string, Scored>, ranked: seq<string>, candidate: Candidate, i: nat)
    requires BestByKey(c, vs, order, best) && i < |ranked| && ranked[i] in best
    requires candidate == CandidateOf(best, ranked[i], if candidate.recommended then Some(ranked[i]) else None)
    ensures IsTopScore(c, vs, candidate)
  {
    hide TopOf;
    assert TopOf(c, vs, best[ranked[i]]);
  }

  lemma EligibleShown(c: Config, vs: seq<Scored>, order: seq<string>, best: map<string, Scored>, ranked: seq<string>, r: Resolution,
                      most: nat, v: Scored)
    requires BestByKey(c, vs, order, best) && Ranked(ranked, best) && forall k :: k in ranked <==> k in order
    requires |r.candidates| == |Take(ranked, most)|
    requires forall i :: 0 <= i < |r.candidates| ==> ranked[i] in best && r.candidates[i] == CandidateOf(best, ranked[i], r.recommended)
    requires v in vs && Eligible(c, v)
    ensures ShownOrCut(r, most, v)
  {
    assert v.key in ranked && TopOf(c, vs, best[v.key]) && best[v.key].key == v.key;
    var n :| 0 <= n < |ranked| && ranked[n] == v.key;
    if n < |r.candidates| {
      assert r.candidates[n].key == v.key;
    } else {
      forall i | 0 <= i < |r.candidates| ensures r.candidates[i].score >= v.score {
        assert AtLeast(best[ranked[i]], best[ranked[n]]);
      }
    }
  }

  lemma RankedKnown(ranked: seq<string>, best: map<string, Scored>)
    requires Ranked(ranked, best)
    ensures forall k :: k in ranked ==> k in best
  {
  }

  lemma NoBest(c: Config)
    ensures BestByKey(c, [], [], map[])
  {
  }

  lemma KeysKnown(c: Config, vs: seq<Scored>, order: seq<string>, best: map<string, Scored>)
    requires BestByKey(c, vs, order, best)
    ensures (forall i, j :: 0 <= i < j < |order| ==> order[i] != order[j]) && forall k :: k in order ==> k in best
  {
  }

  lemma NothingResolves(c: Config, most: nat)
    ensures Resolves(c, [], Resolution([], None, true), most)
  {
  }

  /* ---- What a recommendation is worth ---- */

  /** The recommended key and the abstention do not depend on the order of the heads, nor on repeats. */
  lemma OrderDoesNotMatter(c: Config, vs1: seq<Scored>, vs2: seq<Scored>, r1: Resolution, r2: Resolution, m1: int, m2: int)
    requires Resolves(c, vs1, r1, m1) && Resolves(c, vs2, r2, m2) && forall v :: v in vs1 <==> v in vs2
    ensures r1.recommended == r2.recommended && r1.abstained == r2.abstained
  {
    forall k ensures Wins(c, vs1, k) <==> Wins(c, vs2, k) {
      if Wins(c, vs1, k) {
        SameWins(c, vs1, vs2, k);
      }
      if Wins(c, vs2, k) {
        SameWins(c, vs2, vs1, k);
      }
    }
    if r1.recommended.Some? {
      assert Wins(c, vs1, r1.recommended.value);
    }
    if r2.recommended.Some? {
      assert Wins(c, vs2, r2.recommended.value);
    }
  }

  lemma SameWins(c: Config, vs1: seq<Scored>, vs2: seq<Scored>, k: string)
    requires Wins(c, vs1, k) && forall v :: v in vs1 <==> v in vs2
    ensures Wins(c, vs2, k)
  {
    var s :| TopOf(c, vs1, s) && s.key == k && s.score >= c.threshold && forall v :: v in vs1 && Eligible(c, v) ==> Beats(c, s, v);
    assert TopOf(c, vs2, s);
  }

  /** The best head of the recommended key beats every head of every other key, also those below the
    * candidate floor. */
  ghost predicate BeatsAll(c: Config, vs: seq<Scored>, key: string) {
    exists s :: TopOf(c, vs, s) && s.key == key && forall v :: v in vs && v.key != "" ==> Beats(c, s, v)
  }

  /** That every recommendation beats all heads, and not only the eligible ones, holds exactly when the
    * floor and the margin together do not exceed the threshold. */
  lemma WinnersBeatAllIff(c: Config)
    requires 0.5 <= c.threshold <= 0.98 && 0.03 <= c.margin <= 0.40 && 0.2 <= c.floor <= c.threshold
    ensures (forall vs: seq<Scored>, k: string :: (forall v :: v in vs ==> 0.0 <= v.score <= 1.0) && Wins(c, vs, k) ==> BeatsAll(c, vs, k))
            <==> c.floor + c.margin <= c.threshold
  {
    if c.floor + c.margin <= c.threshold {
      forall vs: seq<Scored>, k: string | (forall v :: v in vs ==> 0.0 <= v.score <= 1.0) && Wins(c, vs, k) ensures BeatsAll(c, vs, k) {
        WinnerBeatsAll(c, vs, k);
      }
    } else {
      var vs := CloseSecond(c);
      assert Wins(c, vs, "a") && !BeatsAll(c, vs, "a");
    }
  }

  lemma WinnerBeatsAll(c: Config, vs: seq<Scored>, k: string)
    requires c.floor + c.margin <= c.threshold && Wins(c, vs, k)
    ensures BeatsAll(c, vs, k)
  {
    var s :| TopOf(c, vs, s) && s.key == k && s.score >= c.threshold && forall v :: v in vs && Eligible(c, v) ==> Beats(c, s, v);
    forall v | v in vs && v.key != "" ensures Beats(c, s, v) {}
  }

  /** A head just below the floor, too close to the recommended one. */
  lemma CloseSecond(c: Config) returns (vs: seq<Scored>)
    requires 0.5 <= c.threshold <= 0.98 && 0.03 <= c.margin <= 0.40 && 0.2 <= c.floor <= c.threshold && c.floor + c.margin > c.threshold
    ensures (forall v :: v in vs ==> 0.0 <= v.score <= 1.0) && Wins(c, vs, "a") && !BeatsAll(c, vs, "a")
  {
    var below := (c.threshold - c.margin + c.floor) / 2.0;
    var s, v := Scored("a", c.threshold, 1, "1"), Scored("b", below, 1, "2");
    vs := [s, v];
    assert TopOf(c, vs, s);
    forall t | TopOf(c, vs, t) && t.key == "a" ensures !Beats(c, t, v) {
      assert t == s;
    }
    assert v in vs && v.key != "";
  }
}

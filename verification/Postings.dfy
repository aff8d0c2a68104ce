/** The inverted token index over a conversation: cached per conversation, extended in place by the
  * messages that were appended, and rebuilt when the cached prefix is not recognised. */
module Postings {
  import opened Basics
  import opened PrefixCache

  type Token = string

  predicate Searchable(m: Message) { m.role == "user" || m.role == "assistant" }

  predicate Hit(tokens: string -> set<Token>, m: Message, t: Token) {
    Searchable(m) && t in tokens(m.content)
  }

  /** The full scan: the messages that share a token with the query. */
  function Scan(tokens: string -> set<Token>, h: seq<Message>, query: set<Token>): set<nat> {
    set i: nat | i < |h| && Searchable(h[i]) && tokens(h[i].content) * query != {}
  }

  /** The answer in so many words: messages of the user or the assistant whose content has a token of the query. */
  ghost predicate Answers(tokens: string -> set<Token>, h: seq<Message>, query: set<Token>, candidates: set<nat>) {
    forall i: nat :: i in candidates <==>
      i < |h| && (h[i].role == "user" || h[i].role == "assistant") && exists t :: t in query && t in tokens(h[i].content)
  }

  lemma ScanAnswers(tokens: string -> set<Token>, h: seq<Message>, query: set<Token>)
    ensures Answers(tokens, h, query, Scan(tokens, h, query))
  {
    forall i: nat | i < |h|
      ensures tokens(h[i].content) * query != {} <==> exists t :: t in query && t in tokens(h[i].content)
    {
      if tokens(h[i].content) * query != {} {
        var t :| t in tokens(h[i].content) * query;
      }
      if t :| t in query && t in tokens(h[i].content) {
        assert t in tokens(h[i].content) * query;
      }
    }
  }

  function Posting(ps: map<Token, seq<nat>>, t: Token): seq<nat> { if t in ps then ps[t] else [] }

  predicate Increasing(l: seq<nat>) { forall i, j :: 0 <= i < j < |l| ==> l[i] < l[j] }

  /** `l` lists, in order, all and only the messages that contain `t`. */
  ghost predicate IsPosting(tokens: string -> set<Token>, h: seq<Message>, t: Token, l: seq<nat>) {
    && Increasing(l)
    && forall i: nat :: i in l <==> i < |h| && Hit(tokens, h[i], t)
  }

  ghost predicate IsIndex(tokens: string -> set<Token>, h: seq<Message>, ps: map<Token, seq<nat>>) {
    && (forall t :: t in ps ==> ps[t] != [])
    && (forall t {:trigger IsPosting(tokens, h, t, Posting(ps, t))} :: IsPosting(tokens, h, t, Posting(ps, t)))
  }

  /* ---- There is only one index ---- */

  lemma {:induction false} IncreasingIsUnique(a: seq<nat>, b: seq<nat>)
    requires Increasing(a) && Increasing(b) && forall i: nat :: i in a <==> i in b
    ensures a == b
    decreases |a|
  {
    assert a != [] ==> a[|a| - 1] in b;
    assert b != [] ==> b[|b| - 1] in a;
    if a != [] {
      var m, n := |a| - 1, |b| - 1;
      var i :| 0 <= i < |a| && a[i] == b[n];
      var j :| 0 <= j < |b| && b[j] == a[m];
      assert a[m] == b[n];
      var a0, b0 := a[..m], b[..n];
      forall x: nat ensures x in a0 <==> x in b0 {
        assert x in a0 <==> x in a && x != a[m];
        assert x in b0 <==> x in b && x != b[n];
      }
      IncreasingIsUnique(a0, b0);
      assert a == a0 + [a[m]] && b == b0 + [b[n]];
    }
  }

  /** Any two indexes of one history are equal, so a cached index that is an index is the one a rebuild
    * from nothing would give. */
  lemma IndexIsUnique(tokens: string -> set<Token>, h: seq<Message>, p: map<Token, seq<nat>>, q: map<Token, seq<nat>>)
    requires IsIndex(tokens, h, p) && IsIndex(tokens, h, q)
    ensures p == q
  {
    forall t ensures Posting(p, t) == Posting(q, t) {
      assert IsPosting(tokens, h, t, Posting(p, t)) && IsPosting(tokens, h, t, Posting(q, t));
      IncreasingIsUnique(Posting(p, t), Posting(q, t));
    }
    assert forall t :: t in p <==> Posting(p, t) != [];
    assert forall t :: t in q <==> Posting(q, t) != [];
    forall t | t in p ensures t in q && p[t] == q[t] {
      assert Posting(p, t) == Posting(q, t);
    }
    forall t | t in q ensures t in p {
      assert Posting(p, t) == Posting(q, t);
    }
  }

  lemma PostingOfUnion(tokens: string -> set<Token>, h: seq<Message>, ps: map<Token, seq<nat>>, query: set<Token>, i: nat)
    requires IsIndex(tokens, h, ps)
    ensures i in Scan(tokens, h, query) <==> exists t :: t in query && i in Posting(ps, t)
  {
    if i in Scan(tokens, h, query) {
      var t :| t in tokens(h[i].content) * query;
      assert IsPosting(tokens, h, t, Posting(ps, t)) && Hit(tokens, h[i], t);
    }
    if t :| t in query && i in Posting(ps, t) {
      assert IsPosting(tokens, h, t, Posting(ps, t)) && Hit(tokens, h[i], t);
      assert t in tokens(h[i].content) * query;
    }
  }

  /** `q` is `p` with the place `n` added to the posting of each token of `m` that is not in `rest`. */
  ghost predicate AddsPlace(tokens: string -> set<Token>, p: map<Token, seq<nat>>, q: map<Token, seq<nat>>, m: Message, n: nat, rest: set<Token>) {
    && (forall t :: t in q ==> q[t] != [])
    && (forall t {:trigger Posting(q, t)} {:trigger Posting(p, t)} ::
          Posting(q, t) == Posting(p, t) + (if Hit(tokens, m, t) && t !in rest then [n] else []))
  }

  lemma PostingOfOneMore(tokens: string -> set<Token>, h: seq<Message>, n: nat, t: Token, l: seq<nat>)
    requires n < |h| && IsPosting(tokens, h[..n], t, l)
    ensures IsPosting(tokens, h[..n + 1], t, l + (if Hit(tokens, h[n], t) then [n] else []))
  {
    var m := l + (if Hit(tokens, h[n], t) then [n] else []);
    forall i: nat ensures i in m <==> i < n + 1 && Hit(tokens, h[..n + 1][i], t) {
      assert i in m <==> i in l || (i == n && Hit(tokens, h[n], t));
    }
    forall i | 0 <= i < |l| ensures l[i] < n { assert l[i] in l; }
  }

  /** The index after one more message. */
  lemma IndexOfOneMore(tokens: string -> set<Token>, h: seq<Message>, n: nat, p: map<Token, seq<nat>>, q: map<Token, seq<nat>>)
    requires n < |h| && IsIndex(tokens, h[..n], p) && AddsPlace(tokens, p, q, h[n], n, {})
    ensures IsIndex(tokens, h[..n + 1], q)
  {
    forall t ensures IsPosting(tokens, h[..n + 1], t, Posting(q, t)) {
      assert IsPosting(tokens, h[..n], t, Posting(p, t));
      PostingOfOneMore(tokens, h, n, t, Posting(p, t));
    }
  }

  /* ---- The cached index ---- */

  class FastIndex {
    const tokens: string -> set<Token>
    const cache: Cache<map<Token, seq<nat>>>

    constructor (tokens: string -> set<Token>, cacheLimit: int)
      ensures Valid() && fresh(cache) && this.tokens == tokens && cache.built == map[]
    {
      this.tokens := tokens;
      cache := new Cache(cacheLimit);
    }

    /** Every cached index is the index of the history it was stored for. */
    ghost predicate Valid()
      reads this, cache
    {
      && cache.Valid()
      && forall k {:trigger cache.entries[k]} :: k in cache.entries ==> IsIndex(tokens, cache.built[k], cache.entries[k].value)
    }

    /** What is cached for this conversation comes from a history this one agrees with. */
    ghost predicate Continues(h: seq<Message>)
      requires cache.Valid()
      reads this, cache
    {
      CacheKey(h) in cache.built ==> Coherent(cache.built[CacheKey(h)], h)
    }

    /** Append the place `n` to the posting of each token of one message. */
    method AddMessage(ps: map<Token, seq<nat>>, m: Message, n: nat) returns (out: map<Token, seq<nat>>)
      requires forall t :: t in ps ==> ps[t] != []
      ensures AddsPlace(tokens, ps, out, m, n, {})
    {
      out := ps;
      if !Searchable(m) {
        return;
      }
      var rest := tokens(m.content);
      while rest != {}
        invariant rest <= tokens(m.content) && AddsPlace(tokens, ps, out, m, n, rest)
        decreases rest
      {
        var t :| t in rest;
        assert Posting(out, t) == Posting(ps, t);
        out := out[t := Posting(out, t) + [n]];
        rest := rest - {t};
      }
    }

    /** Bring the cached index of this conversation up to date, or build it. */
    method Refresh(h: seq<Message>) returns (ps: map<Token, seq<nat>>, hit: bool)
      requires Valid() && CacheKey(h) != ""
      modifies cache
      ensures Valid() && IsIndex(tokens, old(cache.Effective(h)), ps)
      ensures CacheKey(h) in cache.entries && cache.built[CacheKey(h)] == old(cache.Effective(h)) && cache.entries[CacheKey(h)].value == ps
      ensures forall k :: k in cache.built && k != CacheKey(h) ==> k in old(cache.built) && cache.built[k] == old(cache.built)[k]
      ensures hit <==> CacheKey(h) in old(cache.entries)
                       && PrefixValid(old(cache.entries)[CacheKey(h)].processed, old(cache.entries)[CacheKey(h)].last, h)
    {
      hide IsIndex, SourceId, Without, Newest;
      ghost var effective := cache.Effective(h);
      cache.EffectiveFits(h);
      assert CacheKey(h) in cache.entries ==> cache.EntryFits(CacheKey(h));
      var entry := cache.Lookup(h);
      var processed := 0;
      ps := map[];
      hit := false;
      EmptyIndex(tokens);
      if entry.Some? {
        processed, ps, hit := entry.value.processed, entry.value.value, true;
        SplicedParts(old(cache.built)[CacheKey(h)], h);
      }
      ps := Extend(h, processed, ps, effective);
      cache.Store(h, ps, effective);
    }

    /** Add the messages from place `processed` on to an index of the others. */
    method Extend(h: seq<Message>, processed: nat, known: map<Token, seq<nat>>, ghost effective: seq<Message>)
      returns (ps: map<Token, seq<nat>>)
      requires processed <= |h| == |effective| && effective[processed..] == h[processed..]
      requires IsIndex(tokens, effective[..processed], known)
      ensures IsIndex(tokens, effective, ps)
    {
      hide IsPosting, AddsPlace;
      ps := known;
      for n := processed to |h|
        invariant IsIndex(tokens, effective[..n], ps)
      {
        var before := ps;
        ps := AddMessage(ps, h[n], n);
        assert effective[n] == effective[processed..][n - processed] == h[n];
        IndexOfOneMore(tokens, effective, n, before, ps);
      }
      assert effective[..|effective|] == effective;
    }

    /** `_candidate_indices` of the in-place index. For a history that continues what was cached, the
      * answer is the full scan's, whatever was cached, extended, replaced or evicted before; for any other
      * it is the full scan's over the history the cache takes it for. */
    method CandidateIndices(h: seq<Message>, query: set<Token>) returns (candidates: set<nat>, hit: bool)
      requires Valid()
      modifies cache
      ensures Valid() && candidates == Scan(tokens, old(cache.Effective(h)), query)
      ensures old(Continues(h)) ==> candidates == Scan(tokens, h, query) && Answers(tokens, h, query, candidates)
      ensures forall k :: k in cache.built ==>
                (k in old(cache.built) && cache.built[k] == old(cache.built)[k]) || cache.built[k] == old(cache.Effective(h))
    {
      hide Scan, Answers;
      ScanAnswers(tokens, h, query);
      if Continues(h) {
        cache.CoherentEffective(h);
      }
      if query == {} {
        NoTokens(tokens, cache.Effective(h));
        return {}, false;
      }
      if CacheKey(h) == "" {
        assert CacheKey(h) in cache.entries ==> cache.EntryFits(CacheKey(h));
        return Scan(tokens, h, query), false;
      }
      var ps;
      ps, hit := Refresh(h);
      candidates := Unite(ps, query);
      forall i: nat ensures i in candidates <==> i in Scan(tokens, old(cache.Effective(h)), query) {
        PostingOfUnion(tokens, old(cache.Effective(h)), ps, query, i);
      }
    }

    method Unite(ps: map<Token, seq<nat>>, query: set<Token>) returns (candidates: set<nat>)
      ensures forall i: nat :: i in candidates <==> exists t :: t in query && i in Posting(ps, t)
    {
      candidates := {};
      var rest := query;
      while rest != {}
        invariant rest <= query
        invariant forall i: nat :: i in candidates <==> exists t :: t in query && t !in rest && i in Posting(ps, t)
        decreases rest
      {
        var t :| t in rest;
        candidates := candidates + (set i | i in Posting(ps, t));
        rest := rest - {t};
      }
    }
  }

  lemma NoTokens(tokens: string -> set<Token>, h: seq<Message>)
    ensures Scan(tokens, h, {}) == {}
  {
  }

  lemma SplicedParts(was: seq<Message>, h: seq<Message>)
    requires |was| <= |h|
    ensures var s := Spliced(was, h); |s| == |h| && s[..|was|] == was && s[|was|..] == h[|was|..]
  {
  }

  lemma EmptyIndex(tokens: string -> set<Token>)
    ensures IsIndex(tokens, [], map[])
  {
    forall t ensures IsPosting(tokens, [], t, Posting(map[], t)) {}
  }

  datatype Turn = Turn(history: seq<Message>, query: set<Token>)

  /** Any sequence of turns over any conversations, growing, replaced by another branch or evicted in
    * between: every answer is the answer of the full scan. */
  method AnswerAll(index: FastIndex, turns: seq<Turn>) returns (answers: seq<set<nat>>)
    requires index.Valid() && index.cache.built == map[]
    requires forall i, j :: 0 <= i < j < |turns| ==> Coherent(turns[i].history, turns[j].history)
    modifies index.cache
    ensures |answers| == |turns|
    ensures forall i :: 0 <= i < |turns| ==>
              answers[i] == Scan(index.tokens, turns[i].history, turns[i].query)
              && Answers(index.tokens, turns[i].history, turns[i].query, answers[i])
  {
    hide Scan, Answers;
    answers := [];
    for n := 0 to |turns|
      invariant index.Valid() && |answers| == n
      invariant forall i :: 0 <= i < n ==>
                  answers[i] == Scan(index.tokens, turns[i].history, turns[i].query)
                  && Answers(index.tokens, turns[i].history, turns[i].query, answers[i])
      invariant forall k :: k in index.cache.built ==> exists i :: 0 <= i < n && index.cache.built[k] == turns[i].history
    {
      ghost var before := index.cache.built;
      index.cache.CoherentEffective(turns[n].history);
      var answer, _ := index.CandidateIndices(turns[n].history, turns[n].query);
      answers := answers + [answer];
      forall k | k in index.cache.built ensures exists i :: 0 <= i < n + 1 && index.cache.built[k] == turns[i].history {
        if index.cache.built[k] == turns[n].history {
        } else {
          var i :| 0 <= i < n && before[k] == turns[i].history;
        }
      }
    }
  }

  /** What a cached entry made from `was` is worth for a history that is not its continuation: every answer
    * is right if and only if the messages below the boundary have the same tokens, message by message. */
  lemma AnswersAreRightIff(tokens: string -> set<Token>, was: seq<Message>, h: seq<Message>)
    requires |was| <= |h|
    ensures (forall query :: Scan(tokens, Spliced(was, h), query) == Scan(tokens, h, query))
            <==> (forall i: nat, t :: i < |was| ==> (Hit(tokens, was[i], t) <==> Hit(tokens, h[i], t)))
  {
    hide Hit, Scan;
    var s := Spliced(was, h);
    SplicedParts(was, h);
    if forall query :: Scan(tokens, s, query) == Scan(tokens, h, query) {
      forall i: nat, t | i < |was| ensures Hit(tokens, was[i], t) <==> Hit(tokens, h[i], t) {
        ScanOfOne(tokens, s, i, t);
        ScanOfOne(tokens, h, i, t);
        assert Scan(tokens, s, {t}) == Scan(tokens, h, {t}) && s[i] == was[i];
      }
    }
    if forall i: nat, t :: i < |was| ==> (Hit(tokens, was[i], t) <==> Hit(tokens, h[i], t)) {
      forall i: nat, t | i < |h| ensures Hit(tokens, s[i], t) <==> Hit(tokens, h[i], t) {
        assert s[i] == if i < |was| then was[i] else h[i];
      }
      forall query ensures Scan(tokens, s, query) == Scan(tokens, h, query) { SameHitsSameScan(tokens, s, h, query); }
    }
  }

  lemma ScanOfOne(tokens: string -> set<Token>, h: seq<Message>, i: nat, t: Token)
    requires i < |h|
    ensures i in Scan(tokens, h, {t}) <==> Hit(tokens, h[i], t)
  {
    ScanIffHit(tokens, h, {t}, i);
    assert t in {t};
  }

  lemma SameHitsSameScan(tokens: string -> set<Token>, a: seq<Message>, b: seq<Message>, query: set<Token>)
    requires |a| == |b| && forall i: nat, t :: i < |a| ==> (Hit(tokens, a[i], t) <==> Hit(tokens, b[i], t))
    ensures Scan(tokens, a, query) == Scan(tokens, b, query)
  {
    hide Hit;
    forall i: nat ensures i in Scan(tokens, a, query) <==> i in Scan(tokens, b, query) {
      if i < |a| {
        assert forall t :: Hit(tokens, a[i], t) <==> Hit(tokens, b[i], t);
        ScanIffHit(tokens, a, query, i);
        ScanIffHit(tokens, b, query, i);
      }
    }
  }

  lemma ScanIffHit(tokens: string -> set<Token>, h: seq<Message>, query: set<Token>, i: nat)
    requires i < |h|
    ensures i in Scan(tokens, h, query) <==> exists t :: t in query && Hit(tokens, h[i], t)
  {
    if t :| t in query && Hit(tokens, h[i], t) {
      assert t in tokens(h[i].content) * query;
    }
    if i in Scan(tokens, h, query) {
      var t :| t in tokens(h[i].content) * query;
      assert Hit(tokens, h[i], t);
    }
  }

  /** Without coherence the cache is wrong: after an edit below the boundary the test still passes, no
    * message is added, and what was cached for the old history is not an index of the new one. */
  lemma EditedPrefixGoesUnnoticed(tokens: string -> set<Token>, ps: map<Token, seq<nat>>)
    requires tokens("shield") == {"shield"} && tokens("dash") == {"dash"}
    requires IsIndex(tokens, [Message("a", "user", "shield"), Message("b", "user", "dash")], ps)
    ensures var old', new' := [Message("a", "user", "shield"), Message("b", "user", "dash")],
                              [Message("a", "user", "dash"), Message("b", "user", "dash")];
            && CacheKey(new') == CacheKey(old') && PrefixValid(2, SourceId(old'[1], 1), new')
            && !IsIndex(tokens, new', ps)
            && Posting(ps, "shield") == [0] && Scan(tokens, new', {"shield"}) == {}
  {
    var old', new' := [Message("a", "user", "shield"), Message("b", "user", "dash")],
                      [Message("a", "user", "dash"), Message("b", "user", "dash")];
    var l := Posting(ps, "shield");
    assert IsPosting(tokens, old', "shield", l);
    assert Hit(tokens, old'[0], "shield") && !Hit(tokens, old'[1], "shield");
    assert 0 in l;
    IncreasingIsUnique(l, [0]);
    assert !Hit(tokens, new'[0], "shield");
    assert !IsPosting(tokens, new', "shield", Posting(ps, "shield"));
  }
}

/** Choosing which messages of a long conversation go into the context: the first user message, the most
  * recent messages and the best retrieved ones, by priority, within a character budget. */
module ContextSelection {
  import opened Basics
  import opened PrefixCache
  import opened Postings
  import Planner

  datatype Limits = Limits(recent: nat, retrieved: nat, budget: nat, perMessage: nat)

  function MakeLimits(recent: int, retrieved: int, budget: int, perMessage: int): (l: Limits)
    ensures l.recent >= 2 && l.budget >= 3000 && l.perMessage >= 600
    ensures (recent >= 2 ==> l.recent == recent) && (retrieved >= 0 ==> l.retrieved == retrieved)
    ensures (budget >= 3000 ==> l.budget == budget) && (perMessage >= 600 ==> l.perMessage == perMessage)
    ensures (recent < 2 ==> l.recent == 2) && (retrieved < 0 ==> l.retrieved == 0)
    ensures (budget < 3000 ==> l.budget == 3000) && (perMessage < 600 ==> l.perMessage == 600)
  {
    Limits(Max(2, recent), Max(0, retrieved), Max(3000, budget), Max(600, perMessage))
  }

  datatype Selected = Selected(id: string, role: string, content: string, index: nat)

  datatype Packet = Packet(messages: seq<Selected>, chars: nat, candidates: nat, longRange: nat)

  /** The first user message at place `from` or later. */
  function FirstUser(h: seq<Message>, from: nat): (first: Option<nat>)
    requires from <= |h|
    ensures first.Some? ==> from <= first.value < |h| && h[first.value].role == "user"
    ensures forall i :: from <= i < (if first.Some? then first.value else |h|) ==> h[i].role != "user"
    decreases |h| - from
  {
    if from == |h| then None else if h[from].role == "user" then Some(from) else FirstUser(h, from + 1)
  }

  function RecentStart(l: Limits, h: seq<Message>): nat { Max(0, |h| - l.recent) }

  predicate Mandatory(l: Limits, h: seq<Message>, i: nat) { RecentStart(l, h) <= i < |h| || FirstUser(h, 0) == Some(i) }

  /** The candidates that are scored. */
  function Pool(l: Limits, h: seq<Message>, candidates: set<nat>): set<nat> {
    set i | i in candidates && i < |h| && !Mandatory(l, h, i) && Searchable(h[i]) && h[i].content != ""
  }

  /* ---- Message places in a strict order ---- */

  /** By decreasing key; among equals the newer message first, or the older one. */
  predicate Before(key: nat -> real, newer: bool, i: nat, j: nat) {
    key(i) > key(j) || (key(i) == key(j) && if newer then i > j else i < j)
  }

  lemma BeforeIsTotal(key: nat -> real, newer: bool, i: nat, j: nat)
    requires i != j
    ensures Before(key, newer, i, j) <==> !Before(key, newer, j, i)
  {
  }

  lemma BeforeIsTransitive(key: nat -> real, newer: bool, i: nat, j: nat, k: nat)
    requires Before(key, newer, i, j) && Before(key, newer, j, k)
    ensures Before(key, newer, i, k)
  {
  }

  predicate InOrder(key: nat -> real, newer: bool, s: seq<nat>) {
    forall i, j :: 0 <= i < j < |s| ==> Before(key, newer, s[i], s[j])
  }

  /** `s` lists the places of `pool`, each once, in order. */
  ghost predicate Lists(key: nat -> real, newer: bool, pool: set<nat>, s: seq<nat>) {
    InOrder(key, newer, s) && forall i :: i in s <==> i in pool
  }

  predicate Leads(key: nat -> real, newer: bool, pool: set<nat>, i: nat) {
    i in pool && forall j :: j in pool && j != i ==> Before(key, newer, i, j)
  }

  lemma {:induction false} LeaderExists(key: nat -> real, newer: bool, pool: set<nat>) returns (i: nat)
    requires pool != {}
    ensures Leads(key, newer, pool, i)
    decreases |pool|
  {
    hide Before;
    var k :| k in pool;
    var rest := pool - {k};
    i := k;
    if rest == {} {
      assert pool == {k};
    } else {
      var m := LeaderExists(key, newer, rest);
      BeforeIsTotal(key, newer, k, m);
      i := if Before(key, newer, k, m) then k else m;
      forall j | j in pool && j != i ensures Before(key, newer, i, j) {
        if i == k && j != m {
          BeforeIsTransitive(key, newer, k, m, j);
        }
      }
    }
  }

  lemma AppendInOrder(key: nat -> real, newer: bool, s: seq<nat>, k: nat)
    requires InOrder(key, newer, s) && forall i :: i in s ==> Before(key, newer, i, k)
    ensures InOrder(key, newer, s + [k])
  {
    hide Before;
    assert forall i :: 0 <= i < |s| ==> s[i] in s;
  }

  /** Take the leader of the remaining ones until none remains. */
  method SortBy(key: nat -> real, newer: bool, pool: set<nat>) returns (s: seq<nat>)
    ensures Lists(key, newer, pool, s)
  {
    s := [];
    var rest := pool;
    while rest != {}
      invariant rest <= pool && InOrder(key, newer, s)
      invariant forall i :: i in s <==> i in pool - rest
      invariant forall i, j :: i in s && j in rest ==> Before(key, newer, i, j)
      decreases rest
    {
      ghost var leader := LeaderExists(key, newer, rest);
      var k :| k in rest && Leads(key, newer, rest, k);
      assert Leads(key, newer, rest, k);
      assert forall j :: j in rest && j != k ==> Before(key, newer, k, j);
      AppendInOrder(key, newer, s, k);
      assert forall i :: i in s + [k] ==> i in s || i == k;
      s := s + [k];
      rest := rest - {k};
    }
  }

  lemma FirstLeads(key: nat -> real, newer: bool, pool: set<nat>, s: seq<nat>)
    requires Lists(key, newer, pool, s) && s != []
    ensures Leads(key, newer, pool, s[0]) && Lists(key, newer, pool - {s[0]}, s[1..])
  {
    forall k | 0 <= k < |s[1..]| ensures s[1..][k] != s[0] {
      assert s[1..][k] == s[k + 1] && Before(key, newer, s[0], s[k + 1]);
    }
    assert s == [s[0]] + s[1..];
  }

  /** There is one such list, so what is made from it depends on the pool alone. */
  lemma {:induction false} ListIsUnique(key: nat -> real, newer: bool, pool: set<nat>, a: seq<nat>, b: seq<nat>)
    requires Lists(key, newer, pool, a) && Lists(key, newer, pool, b)
    ensures a == b
    decreases |a|
  {
    hide Before, InOrder;
    assert a != [] ==> a[0] in b;
    assert b != [] ==> b[0] in a;
    if a != [] {
      FirstLeads(key, newer, pool, a);
      FirstLeads(key, newer, pool, b);
      if a[0] != b[0] {
        BeforeIsTotal(key, newer, a[0], b[0]);
      }
      ListIsUnique(key, newer, pool - {a[0]}, a[1..], b[1..]);
    }
  }

  /* ---- Priorities ---- */

  function Above(score: nat -> real, s: seq<nat>): seq<nat> {
    if s == [] then [] else (if score(s[0]) > 0.18 then [s[0]] else []) + Above(score, s[1..])
  }

  /** The retrieved messages: the best of the pool that score above the threshold. */
  function Retrieved(l: Limits, score: nat -> real, ranking: seq<nat>): seq<nat> { Above(score, Take(ranking, l.retrieved)) }

  function Known(p: map<nat, real>, i: nat): real { if i in p then p[i] else 0.0 }

  function RetrievedPriority(rank: nat): real { MaxReal(0.0, 60.0 - rank as real) }

  function RecentPriority(h: seq<Message>, i: nat): real { 80.0 + i as real / Max(1, |h|) as real }

  /** What each message's priority is: the first user message before all, then the recent ones, the newest
    * first, then the retrieved ones by rank. */
  ghost predicate ArePriorities(l: Limits, h: seq<Message>, retrieved: seq<nat>, p: map<nat, real>) {
    && (forall i: nat :: i in p <==> (i < |h| && Mandatory(l, h, i)) || i in retrieved)
    && (forall i :: i in p && FirstUser(h, 0) == Some(i) ==> p[i] == 100.0)
    && (forall i: nat :: i in p && FirstUser(h, 0) != Some(i) && RecentStart(l, h) <= i < |h| ==> p[i] == RecentPriority(h, i))
    && (forall k :: 0 <= k < |retrieved| ==> retrieved[k] in p && p[retrieved[k]] == RetrievedPriority(k))
  }

  lemma RecentRange(h: seq<Message>, i: nat)
    requires i < |h|
    ensures 80.0 <= RecentPriority(h, i) < 81.0
  {
    var x, y := i as real, |h| as real;
    assert x / y * y == x;
    assert x / y < 1.0;
    assert x / y >= 0.0;
  }

  lemma RecentGrows(h: seq<Message>, i: nat, j: nat)
    requires i < j < |h|
    ensures RecentPriority(h, i) < RecentPriority(h, j)
  {
    var x, y, n := i as real, j as real, |h| as real;
    assert x / n * n == x && y / n * n == y;
    assert x / n < y / n;
  }

  method Priorities(l: Limits, h: seq<Message>, retrieved: seq<nat>) returns (p: map<nat, real>)
    requires forall i :: i in retrieved ==> i < |h| && !Mandatory(l, h, i)
    requires Distinct(retrieved)
    ensures ArePriorities(l, h, retrieved, p)
  {
    hide RecentPriority, RetrievedPriority, FirstUser;
    p := map[];
    var first := FirstUser(h, 0);
    if first.Some? {
      p := p[first.value := 100.0];
    }
    for i := RecentStart(l, h) to |h|
      invariant forall j :: j in p <==> (RecentStart(l, h) <= j < i) || first == Some(j)
      invariant forall j :: j in p && first == Some(j) ==> p[j] == 100.0
      invariant forall j :: j in p && first != Some(j) ==> p[j] == RecentPriority(h, j)
    {
      RecentRange(h, i);
      p := p[i := MaxReal(Known(p, i), RecentPriority(h, i))];
    }
    ghost var mandatory := p;
    for rank := 0 to |retrieved|
      invariant forall j :: j in p <==> j in mandatory || j in retrieved[..rank]
      invariant forall j :: j in mandatory ==> p[j] == mandatory[j]
      invariant forall k :: 0 <= k < rank ==> retrieved[k] in p && p[retrieved[k]] == RetrievedPriority(k)
    {
      assert retrieved[rank] in retrieved && retrieved[rank] !in retrieved[..rank];
      assert retrieved[..rank + 1] == retrieved[..rank] + [retrieved[rank]];
      RankPriority(rank);
      p := p[retrieved[rank] := MaxReal(Known(p, retrieved[rank]), 60.0 - rank as real)];
    }
    assert retrieved[..|retrieved|] == retrieved;
  }

  lemma RankPriority(rank: nat)
    ensures MaxReal(0.0, 60.0 - rank as real) == RetrievedPriority(rank)
  {
  }

  /** Who goes before whom: the first user message before all others, a recent message before every
    * retrieved one and before the older recent ones, and of the first sixty retrieved the better one. */
  lemma PrioritiesMean(l: Limits, h: seq<Message>, retrieved: seq<nat>, p: map<nat, real>, i: nat, j: nat)
    requires ArePriorities(l, h, retrieved, p) && i in p && j in p && i != j
    ensures FirstUser(h, 0) == Some(i) ==> Before(PriorityKey(p), false, i, j)
    ensures i < |h| && Mandatory(l, h, i) && FirstUser(h, 0) != Some(j) && j in retrieved ==> Before(PriorityKey(p), false, i, j)
    ensures RecentStart(l, h) <= j < i < |h| && FirstUser(h, 0) != Some(j) ==> Before(PriorityKey(p), false, i, j)
    ensures forall a, b :: 0 <= a < b < |retrieved| && a < 60 && i == retrieved[a] && j == retrieved[b] ==> Before(PriorityKey(p), false, i, j)
  {
    hide FirstUser, RecentPriority;
    if i < |h| {
      RecentRange(h, i);
    }
    if j < |h| {
      RecentRange(h, j);
    }
    if j < i < |h| {
      RecentGrows(h, j, i);
    }
    if j in retrieved {
      var b :| 0 <= b < |retrieved| && retrieved[b] == j;
      assert p[j] == RetrievedPriority(b) <= 60.0;
    }
  }

  function PriorityKey(p: map<nat, real>): nat -> real { (i: nat) => Known(p, i) }

  function NoKey(): nat -> real { (i: nat) => 0.0 }

  /* ---- The choice ---- */

  predicate Speaks(m: Message) { Searchable(m) && Strip(m.content) != "" }

  function Cost(l: Limits, m: Message): nat { |Take(Strip(m.content), l.perMessage)| }

  predicate Places(h: seq<Message>, s: seq<nat>) { forall k :: 0 <= k < |s| ==> s[k] < |h| }

  datatype Choice = Choice(places: seq<nat>, used: nat)

  predicate Fits(l: Limits, c: Choice, m: Message) { Speaks(m) && (c.places == [] || c.used + Cost(l, m) <= l.budget) }

  /** From the first in the order on, each message that still fits is taken; the first one always is. */
  function Choose(l: Limits, h: seq<Message>, order: seq<nat>, n: nat): Choice
    requires n <= |order| && Places(h, order)
  {
    if n == 0 then Choice([], 0)
    else
      var c, i := Choose(l, h, order, n - 1), order[n - 1];
      if Fits(l, c, h[i]) then Choice(c.places + [i], c.used + Cost(l, h[i])) else c
  }

  function SelectedOf(l: Limits, h: seq<Message>, i: nat): Selected
    requires i < |h|
  {
    Selected(SourceId(h[i], i), h[i].role, Take(h[i].content, l.perMessage), i)
  }

  predicate LongRange(l: Limits, h: seq<Message>, i: nat) { i < RecentStart(l, h) && FirstUser(h, 0) != Some(i) }

  function CountLongRange(l: Limits, h: seq<Message>, s: seq<nat>): nat {
    if s == [] then 0 else CountLongRange(l, h, s[..|s| - 1]) + (if LongRange(l, h, s[|s| - 1]) then 1 else 0)
  }

  function Set(s: seq<nat>): set<nat> { set i | i in s }

  /** What one compilation is made of. */
  datatype Making = Making(ranking: seq<nat>, priorities: map<nat, real>, order: seq<nat>, chosen: seq<nat>)

  ghost predicate Makes(l: Limits, h: seq<Message>, score: nat -> real, candidates: set<nat>, m: Making, packet: Packet) {
    && Lists(score, true, Pool(l, h, candidates), m.ranking)
    && ArePriorities(l, h, Retrieved(l, score, m.ranking), m.priorities)
    && Lists(PriorityKey(m.priorities), false, m.priorities.Keys, m.order) && Places(h, m.order)
    && Lists(NoKey(), false, Set(Choose(l, h, m.order, |m.order|).places), m.chosen) && Places(h, m.chosen)
    && |packet.messages| == |m.chosen|
    && (forall k :: 0 <= k < |m.chosen| ==> packet.messages[k] == SelectedOf(l, h, m.chosen[k]))
    && packet.chars == Choose(l, h, m.order, |m.order|).used
    && packet.candidates == |candidates| && packet.longRange == CountLongRange(l, h, m.chosen)
  }

  ghost predicate IsPacket(l: Limits, h: seq<Message>, score: nat -> real, candidates: set<nat>, packet: Packet) {
    exists m :: Makes(l, h, score, candidates, m, packet)
  }

  lemma {:induction false} AboveIsPart(score: nat -> real, s: seq<nat>)
    ensures |Above(score, s)| <= |s| && forall i :: i in Above(score, s) <==> i in s && score(i) > 0.18
    decreases |s|
  {
    if s != [] {
      AboveIsPart(score, s[1..]);
      assert s == [s[0]] + s[1..];
    }
  }

  predicate Distinct(s: seq<nat>) { forall i, j :: 0 <= i < j < |s| ==> s[i] != s[j] }

  lemma {:induction false} AboveIsDistinct(score: nat -> real, s: seq<nat>)
    requires Distinct(s)
    ensures Distinct(Above(score, s))
    decreases |s|
  {
    if s != [] {
      AboveIsDistinct(score, s[1..]);
      AboveIsPart(score, s[1..]);
      if score(s[0]) > 0.18 {
        assert forall k :: 0 <= k < |s[1..]| ==> s[1..][k] == s[k + 1] && s[k + 1] != s[0];
        ConsIsDistinct(s[0], Above(score, s[1..]));
      }
    }
  }

  lemma ConsIsDistinct(i: nat, s: seq<nat>)
    requires Distinct(s) && i !in s
    ensures Distinct([i] + s)
  {
    var r := [i] + s;
    forall a, b | 0 <= a < b < |r| ensures r[a] != r[b] {
      assert r[b] == s[b - 1] && r[b] in s && (a > 0 ==> r[a] == s[a - 1]);
    }
  }

  lemma InOrderIsDistinct(key: nat -> real, newer: bool, s: seq<nat>)
    requires InOrder(key, newer, s)
    ensures Distinct(s)
  {
    forall i, j | 0 <= i < j < |s| ensures s[i] != s[j] {
      assert Before(key, newer, s[i], s[j]);
    }
  }

  /** The retrieved messages are different ones of the pool. */
  lemma RetrievedArePool(l: Limits, h: seq<Message>, score: nat -> real, candidates: set<nat>, ranking: seq<nat>)
    requires Lists(score, true, Pool(l, h, candidates), ranking)
    ensures var r := Retrieved(l, score, ranking);
            && |r| <= l.retrieved
            && (forall i :: i in r ==> i in Pool(l, h, candidates))
            && Distinct(r)
  {
    hide Before, Pool;
    InOrderIsDistinct(score, true, ranking);
    var top := Take(ranking, l.retrieved);
    AboveIsPart(score, top);
    AboveIsDistinct(score, top);
    assert forall i :: i in top ==> i in ranking;
    assert forall i :: 0 <= i < |top| ==> top[i] == ranking[i];
  }

  lemma KeysArePlaces(l: Limits, h: seq<Message>, retrieved: seq<nat>, p: map<nat, real>, order: seq<nat>)
    requires ArePriorities(l, h, retrieved, p) && forall i :: i in retrieved ==> i < |h|
    requires forall i :: i in order <==> i in p
    ensures Places(h, order)
  {
    hide RecentPriority, RetrievedPriority;
    assert forall k :: 0 <= k < |order| ==> order[k] in order;
  }

  lemma {:induction false} ChosenAreOfOrder(l: Limits, h: seq<Message>, order: seq<nat>, n: nat)
    requires n <= |order| && Places(h, order)
    ensures var c := Choose(l, h, order, n);
            |c.places| <= n && forall i :: i in c.places ==> i in order[..n] && Speaks(h[i])
    decreases n
  {
    hide Speaks, Cost;
    if n > 0 {
      ChosenAreOfOrder(l, h, order, n - 1);
      assert order[..n] == order[..n - 1] + [order[n - 1]];
    }
  }

  /** `compile`, over the cached index. The score of a message is fixed by the query. */
  method Compile(index: FastIndex, l: Limits, h: seq<Message>, query: set<Token>, score: nat -> real) returns (packet: Packet, hit: bool)
    requires index.Valid() && index.Continues(h)
    modifies index.cache
    ensures index.Valid()
    ensures h == [] ==> packet == Packet([], 0, 0, 0)
    ensures h != [] ==> IsPacket(l, h, score, Scan(index.tokens, h, query), packet)
    ensures Conveys(index.tokens, l, h, query, score, packet) && SendsRelevant(index.tokens, l, h, query, score, packet)
    ensures forall k :: k in index.cache.built ==>
              (k in old(index.cache.built) && index.cache.built[k] == old(index.cache.built)[k]) || index.cache.built[k] == h
  {
    hide Before, FirstUser, RecentPriority, RetrievedPriority, Scan, IsPacket, Coherent, Answers, Conveys, SendsRelevant;
    if h == [] {
      NothingConveyed(index.tokens, l, query, score);
      NothingRelevant(index.tokens, l, query, score);
      return Packet([], 0, 0, 0), false;
    }
    index.cache.CoherentEffective(h);
    var candidates;
    candidates, hit := index.CandidateIndices(h, query);
    packet := Select(l, h, candidates, score);
    PacketSendsRelevant(index.tokens, l, h, query, score, candidates, packet);
    PacketConveys(index.tokens, l, h, query, score, candidates, candidates, packet);
  }

  /** `compile` with planned candidates: the packet of what the planner answers. */
  method CompileRanked(index: FastIndex, tune: Planner.Tuning, l: Limits, h: seq<Message>, query: set<Token>, score: nat -> real)
    returns (packet: Packet, hit: bool)
    requires index.Valid() && index.Continues(h) && tune.retrieved == l.retrieved
    modifies index.cache
    ensures index.Valid()
    ensures h == [] ==> packet == Packet([], 0, 0, 0)
    ensures h != [] ==> exists candidates ::
              Planner.IsPlanned(index.tokens, tune, h, query, candidates) && IsPacket(l, h, score, candidates, packet)
    ensures Conveys(index.tokens, l, h, query, score, packet)
    ensures forall k :: k in index.cache.built ==>
              (k in old(index.cache.built) && index.cache.built[k] == old(index.cache.built)[k]) || index.cache.built[k] == h
  {
    hide Before, FirstUser, RecentPriority, RetrievedPriority, Scan, IsPacket, Coherent, Answers, Conveys;
    if h == [] {
      NothingConveyed(index.tokens, l, query, score);
      return Packet([], 0, 0, 0), false;
    }
    var candidates;
    candidates, hit := Planner.RankedCandidates(index, tune, h, query);
    packet := Select(l, h, candidates, score);
    ghost var all :| Answers(index.tokens, h, query, all) && candidates <= all;
    PacketConveys(index.tokens, l, h, query, score, all, candidates, packet);
  }

  /** Planned or not, compiling is a function of the history, the query and the scores. */
  lemma RankedPacketIsUnique(tokens: string -> set<Token>, tune: Planner.Tuning, l: Limits, h: seq<Message>, query: set<Token>,
                             score: nat -> real, ca: set<nat>, cb: set<nat>, a: Packet, b: Packet)
    requires Planner.IsPlanned(tokens, tune, h, query, ca) && IsPacket(l, h, score, ca, a)
    requires Planner.IsPlanned(tokens, tune, h, query, cb) && IsPacket(l, h, score, cb, b)
    ensures a == b
  {
    hide IsPacket, Planner.IsPlanned;
    Planner.PlannedIsUnique(tokens, tune, h, query, ca, cb);
    PacketIsUnique(l, h, score, ca, a, b);
  }

  method Select(l: Limits, h: seq<Message>, candidates: set<nat>, score: nat -> real) returns (packet: Packet)
    ensures IsPacket(l, h, score, candidates, packet)
  {
    hide Before, FirstUser, RecentPriority, RetrievedPriority, ArePriorities, Pool, Above, Speaks, Cost, InOrder, CountLongRange;
    var ranking := SortBy(score, true, Pool(l, h, candidates));
    var retrieved := Retrieved(l, score, ranking);
    RetrievedArePool(l, h, score, candidates, ranking);
    PoolIsOptional(l, h, candidates);
    var priorities := Priorities(l, h, retrieved);
    var order := SortBy(PriorityKey(priorities), false, priorities.Keys);
    KeysArePlaces(l, h, retrieved, priorities, order);
    var chosen, used := TakeWhatFits(l, h, order);
    ChosenAreOfOrder(l, h, order, |order|);
    assert order[..|order|] == order;
    var sorted := SortBy(NoKey(), false, Set(chosen));
    ChosenArePlaces(h, order, chosen, sorted);
    var messages := seq(|sorted|, k requires 0 <= k < |sorted| && Places(h, sorted) => SelectedOf(l, h, sorted[k]));
    packet := Packet(messages, used, |candidates|, CountLongRange(l, h, sorted));
    assert Makes(l, h, score, candidates, Making(ranking, priorities, order, sorted), packet);
  }

  lemma PoolIsOptional(l: Limits, h: seq<Message>, candidates: set<nat>)
    ensures forall i :: i in Pool(l, h, candidates) ==> i < |h| && !Mandatory(l, h, i)
  {
  }

  lemma ChosenArePlaces(h: seq<Message>, order: seq<nat>, chosen: seq<nat>, sorted: seq<nat>)
    requires Places(h, order) && (forall i :: i in chosen ==> i in order) && forall i :: i in sorted <==> i in Set(chosen)
    ensures Places(h, sorted)
  {
    assert forall k :: 0 <= k < |sorted| ==> sorted[k] in sorted;
  }

  /** The loop over the priorities. */
  method TakeWhatFits(l: Limits, h: seq<Message>, order: seq<nat>) returns (chosen: seq<nat>, used: nat)
    requires Places(h, order)
    ensures Choice(chosen, used) == Choose(l, h, order, |order|)
  {
    hide Strip;
    chosen, used := [], 0;
    for n := 0 to |order|
      invariant Choice(chosen, used) == Choose(l, h, order, n)
    {
      var message := h[order[n]];
      if !Searchable(message) {
        continue;
      }
      var content := Strip(message.content);
      if content == "" {
        continue;
      }
      var cost := |Take(content, l.perMessage)|;
      if chosen != [] && used + cost > l.budget {
        continue;
      }
      chosen := chosen + [order[n]];
      used := used + cost;
    }
  }

  /* ---- What a packet is ---- */

  /** The packet is determined by the history, the candidates and the scores: with an index that answers
    * like the full scan, no cache can change it. */
  lemma PacketIsUnique(l: Limits, h: seq<Message>, score: nat -> real, candidates: set<nat>, a: Packet, b: Packet)
    requires IsPacket(l, h, score, candidates, a) && IsPacket(l, h, score, candidates, b)
    ensures a == b
  {
    hide Lists, ArePriorities, Pool, Retrieved, Choose, SelectedOf, CountLongRange;
    var m :| Makes(l, h, score, candidates, m, a);
    var n :| Makes(l, h, score, candidates, n, b);
    ListIsUnique(score, true, Pool(l, h, candidates), m.ranking, n.ranking);
    PrioritiesAreUnique(l, h, Retrieved(l, score, m.ranking), m.priorities, n.priorities);
    ListIsUnique(PriorityKey(m.priorities), false, m.priorities.Keys, m.order, n.order);
    ListIsUnique(NoKey(), false, Set(Choose(l, h, m.order, |m.order|).places), m.chosen, n.chosen);
    assert a.messages == b.messages;
  }

  lemma PrioritiesAreUnique(l: Limits, h: seq<Message>, retrieved: seq<nat>, p: map<nat, real>, q: map<nat, real>)
    requires ArePriorities(l, h, retrieved, p) && ArePriorities(l, h, retrieved, q)
    ensures p == q
  {
    hide RecentPriority, RetrievedPriority, FirstUser;
    forall i | i in p ensures i in q && p[i] == q[i] {
      if i in retrieved {
        var k :| 0 <= k < |retrieved| && retrieved[k] == i;
      }
    }
    assert forall i :: i in q ==> i in p;
  }

  lemma {:induction false} UsedIsBounded(l: Limits, h: seq<Message>, order: seq<nat>, n: nat)
    requires n <= |order| && Places(h, order)
    ensures Choose(l, h, order, n).used <= Max(l.budget, l.perMessage)
    ensures Choose(l, h, order, n).places == [] ==> Choose(l, h, order, n).used == 0
    decreases n
  {
    hide Strip, Speaks;
    if n > 0 {
      UsedIsBounded(l, h, order, n - 1);
    }
  }

  /** A message that has something to say is left out only if it does not fit beside those before it. */
  lemma {:induction false} TakenOrTooLong(l: Limits, h: seq<Message>, order: seq<nat>, n: nat, k: nat)
    requires k < n <= |order| && Places(h, order) && Speaks(h[order[k]])
    ensures order[k] in Choose(l, h, order, n).places || Choose(l, h, order, k).used + Cost(l, h[order[k]]) > l.budget
    decreases n
  {
    hide Speaks, Cost;
    if k < n - 1 {
      TakenOrTooLong(l, h, order, n - 1, k);
    }
  }

  lemma {:induction false} UsedGrowsByOne(l: Limits, h: seq<Message>, order: seq<nat>, n: nat)
    requires n <= |order| && Places(h, order)
    ensures Choose(l, h, order, n).used <= n * l.perMessage
    decreases n
  {
    hide Strip, Speaks;
    if n > 0 {
      UsedGrowsByOne(l, h, order, n - 1);
      assert n * l.perMessage == (n - 1) * l.perMessage + l.perMessage;
    }
  }

  /** Where the budget has room for the longest messages, the first of the order are all taken. */
  lemma FirstAreTaken(l: Limits, h: seq<Message>, order: seq<nat>, k: nat)
    requires k < |order| && Places(h, order) && Speaks(h[order[k]]) && (k + 1) * l.perMessage <= l.budget
    ensures order[k] in Choose(l, h, order, |order|).places
  {
    hide Choose, Speaks;
    TakenOrTooLong(l, h, order, |order|, k);
    UsedGrowsByOne(l, h, order, k);
    assert (k + 1) * l.perMessage == k * l.perMessage + l.perMessage;
  }

  /* ---- How large it is ---- */

  lemma {:induction false} SetSize(s: seq<nat>)
    ensures |Set(s)| <= |s|
    decreases |s|
  {
    if s == [] {
      assert Set(s) == {};
    } else {
      SetSize(s[..|s| - 1]);
      SetOfOneMore(s);
    }
  }

  lemma SetOfOneMore(s: seq<nat>)
    requires s != []
    ensures Set(s) == Set(s[..|s| - 1]) + {s[|s| - 1]}
  {
    assert s == s[..|s| - 1] + [s[|s| - 1]];
  }

  lemma {:induction false} DistinctSize(s: seq<nat>)
    requires Distinct(s)
    ensures |Set(s)| == |s|
    decreases |s|
  {
    if s == [] {
      assert Set(s) == {};
    } else {
      DistinctSize(s[..|s| - 1]);
      SetOfOneMore(s);
      assert s[|s| - 1] !in s[..|s| - 1];
    }
  }

  function Range(from: nat, upto: nat): (s: set<nat>)
    ensures forall i: nat :: i in s <==> from <= i < upto
    ensures |s| == if from <= upto then upto - from else 0
  {
    if upto <= from then {} else Range(from, upto - 1) + {upto - 1}
  }

  function MandatorySet(l: Limits, h: seq<Message>): set<nat> { Range(RecentStart(l, h), |h|) + FirstSet(h) }

  function FirstSet(h: seq<Message>): set<nat> { if FirstUser(h, 0).Some? then {FirstUser(h, 0).value} else {} }

  lemma MandatorySize(l: Limits, h: seq<Message>)
    ensures |MandatorySet(l, h)| <= l.recent + 1 && forall i: nat :: i in MandatorySet(l, h) <==> i < |h| && Mandatory(l, h, i)
  {
  }

  lemma OrderSize(l: Limits, h: seq<Message>, retrieved: seq<nat>, p: map<nat, real>, order: seq<nat>)
    requires ArePriorities(l, h, retrieved, p) && Lists(PriorityKey(p), false, p.Keys, order)
    ensures |order| <= 1 + l.recent + |retrieved|
  {
    hide Before, Mandatory, FirstUser, RecentPriority, RetrievedPriority, MandatorySet;
    MandatorySize(l, h);
    SetSize(retrieved);
    InOrderIsDistinct(PriorityKey(p), false, order);
    DistinctSize(order);
    SubsetSize(Set(order), MandatorySet(l, h) + Set(retrieved));
  }

  lemma ConstantOrderIncreases(s: seq<nat>)
    requires InOrder(NoKey(), false, s)
    ensures forall i, j :: 0 <= i < j < |s| ==> s[i] < s[j]
  {
    forall i, j | 0 <= i < j < |s| ensures s[i] < s[j] {
      assert Before(NoKey(), false, s[i], s[j]);
    }
  }

  predicate Kept(packet: Packet, i: nat) { exists k :: 0 <= k < |packet.messages| && packet.messages[k].index == i }

  /** Every packet is bounded, in the order of the conversation, and made of messages that are recent, the
    * first of the user, or retrieved, and that say something in the conversation. */
  lemma PacketIsBounded(l: Limits, h: seq<Message>, score: nat -> real, candidates: set<nat>, packet: Packet)
    requires IsPacket(l, h, score, candidates, packet)
    ensures |packet.messages| <= 1 + l.recent + l.retrieved && packet.chars <= Max(l.budget, l.perMessage)
    ensures forall i, j :: 0 <= i < j < |packet.messages| ==> packet.messages[i].index < packet.messages[j].index
    ensures forall k :: 0 <= k < |packet.messages| ==>
              var i := packet.messages[k].index;
              && i < |h| && packet.messages[k] == SelectedOf(l, h, i) && Speaks(h[i])
              && (Mandatory(l, h, i) || (i in candidates && score(i) > 0.18))
  {
    hide Before, FirstUser, RecentPriority, RetrievedPriority, Speaks, Choose, InOrder, Mandatory;
    var m :| Makes(l, h, score, candidates, m, packet);
    var c := Choose(l, h, m.order, |m.order|);
    UsedIsBounded(l, h, m.order, |m.order|);
    ChosenAreOfOrder(l, h, m.order, |m.order|);
    assert m.order[..|m.order|] == m.order;
    RetrievedArePool(l, h, score, candidates, m.ranking);
    OrderSize(l, h, Retrieved(l, score, m.ranking), m.priorities, m.order);
    ConstantOrderIncreases(m.chosen);
    InOrderIsDistinct(NoKey(), false, m.chosen);
    DistinctSize(m.chosen);
    SetSize(c.places);
    assert Set(m.chosen) == Set(c.places);
    forall k | 0 <= k < |m.chosen|
      ensures var i := m.chosen[k]; i < |h| && Speaks(h[i]) && (Mandatory(l, h, i) || (i in candidates && score(i) > 0.18))
    {
      var i := m.chosen[k];
      assert i in m.chosen && i in Set(c.places) && i in m.order;
      AboveIsPart(score, Take(m.ranking, l.retrieved));
    }
  }

  lemma KeptIffChosen(l: Limits, h: seq<Message>, score: nat -> real, candidates: set<nat>, m: Making, packet: Packet, i: nat)
    requires Makes(l, h, score, candidates, m, packet)
    ensures Kept(packet, i) <==> i in Choose(l, h, m.order, |m.order|).places
  {
    hide Before, InOrder, Choose, ArePriorities, Pool, CountLongRange;
    if i in Choose(l, h, m.order, |m.order|).places {
      assert i in Set(Choose(l, h, m.order, |m.order|).places) && i in m.chosen;
      var k :| 0 <= k < |m.chosen| && m.chosen[k] == i;
      assert packet.messages[k].index == i;
    }
    if Kept(packet, i) {
      var k :| 0 <= k < |packet.messages| && packet.messages[k].index == i;
      assert m.chosen[k] in m.chosen && i in Set(Choose(l, h, m.order, |m.order|).places);
    }
  }

  /** The places ahead of a mandatory message are mandatory, so it comes among the first. */
  lemma MandatoryComesEarly(l: Limits, h: seq<Message>, retrieved: seq<nat>, p: map<nat, real>, order: seq<nat>, k: nat)
    requires ArePriorities(l, h, retrieved, p) && Lists(PriorityKey(p), false, p.Keys, order)
    requires k < |order| && order[k] < |h| && Mandatory(l, h, order[k]) && forall i :: i in retrieved ==> i < |h| && !Mandatory(l, h, i)
    ensures k <= l.recent
  {
    hide FirstUser, RecentPriority, RetrievedPriority, MandatorySet, Before;
    var front := order[..k + 1];
    forall i | i in front ensures i in MandatorySet(l, h) {
      var a :| 0 <= a < |front| && front[a] == i;
      assert order[a] in order;
      AheadIsMandatory(l, h, retrieved, p, order, a, k);
      MandatorySize(l, h);
    }
    InOrderIsDistinct(PriorityKey(p), false, order);
    assert Distinct(front);
    DistinctSize(front);
    MandatorySize(l, h);
    SubsetSize(Set(front), MandatorySet(l, h));
  }

  lemma AheadIsMandatory(l: Limits, h: seq<Message>, retrieved: seq<nat>, p: map<nat, real>, order: seq<nat>, a: nat, k: nat)
    requires ArePriorities(l, h, retrieved, p) && Lists(PriorityKey(p), false, p.Keys, order)
    requires a <= k < |order| && order[k] < |h| && Mandatory(l, h, order[k])
    requires forall i :: i in retrieved ==> i < |h| && !Mandatory(l, h, i)
    ensures order[a] < |h| && Mandatory(l, h, order[a])
  {
    hide FirstUser, RecentPriority, RetrievedPriority;
    assert order[a] in order && order[k] in order;
    assert a < k ==> Before(PriorityKey(p), false, order[a], order[k]);
    if a < k && order[a] in retrieved {
      PrioritiesMean(l, h, retrieved, p, order[k], order[a]);
    }
  }

  /** The first user message is never lost to the budget. */
  lemma FirstUserIsKept(l: Limits, h: seq<Message>, score: nat -> real, candidates: set<nat>, packet: Packet, i: nat)
    requires IsPacket(l, h, score, candidates, packet) && FirstUser(h, 0) == Some(i) && Speaks(h[i])
    ensures Kept(packet, i)
  {
    hide FirstUser, RecentPriority, RetrievedPriority, Speaks, Cost, Pool;
    var m :| Makes(l, h, score, candidates, m, packet);
    FirstUserLeads(l, h, Retrieved(l, score, m.ranking), m.priorities, m.order, i);
    KeptIffChosen(l, h, score, candidates, m, packet, i);
    FirstIsTaken(l, h, m.order, |m.order|);
  }

  lemma FirstUserLeads(l: Limits, h: seq<Message>, retrieved: seq<nat>, p: map<nat, real>, order: seq<nat>, i: nat)
    requires ArePriorities(l, h, retrieved, p) && Lists(PriorityKey(p), false, p.Keys, order) && FirstUser(h, 0) == Some(i)
    ensures order != [] && order[0] == i
  {
    assert i in p && i in order;
    if order[0] != i {
      assert order[0] in order;
      PrioritiesMean(l, h, retrieved, p, i, order[0]);
      FirstLeads(PriorityKey(p), false, p.Keys, order);
      BeforeIsTotal(PriorityKey(p), false, i, order[0]);
    }
  }

  lemma {:induction false} FirstIsTaken(l: Limits, h: seq<Message>, order: seq<nat>, n: nat)
    requires 0 < n <= |order| && Places(h, order) && Speaks(h[order[0]])
    ensures order[0] in Choose(l, h, order, n).places
    decreases n
  {
    hide Speaks, Cost;
    if n > 1 {
      FirstIsTaken(l, h, order, n - 1);
    } else {
      assert Choose(l, h, order, 0).places == [];
    }
  }

  /** With room for one message more than the recent ones, all of these are kept, however well the others
    * score. */
  lemma RecentAreKept(l: Limits, h: seq<Message>, score: nat -> real, candidates: set<nat>, packet: Packet, i: nat)
    requires IsPacket(l, h, score, candidates, packet) && (l.recent + 1) * l.perMessage <= l.budget
    requires i < |h| && Mandatory(l, h, i) && Speaks(h[i])
    ensures Kept(packet, i)
  {
    hide FirstUser, RecentPriority, RetrievedPriority, Speaks, Cost, Choose, Mandatory, Pool, Before;
    var m :| Makes(l, h, score, candidates, m, packet);
    var retrieved := Retrieved(l, score, m.ranking);
    RetrievedArePool(l, h, score, candidates, m.ranking);
    PoolIsOptional(l, h, candidates);
    KeptIffChosen(l, h, score, candidates, m, packet, i);
    assert i in m.order;
    var k :| 0 <= k < |m.order| && m.order[k] == i;
    MandatoryComesEarly(l, h, retrieved, m.priorities, m.order, k);
    RoomGrows(k + 1, l.recent + 1, l.perMessage);
    FirstAreTaken(l, h, m.order, k);
  }

  /** The message at place `i` is of the user or the assistant and is not all white space. */
  predicate Spoken(h: seq<Message>, i: nat) {
    i < |h| && (h[i].role == "user" || h[i].role == "assistant") && exists k :: 0 <= k < |h[i].content| && !IsSpace(h[i].content[k])
  }

  /** The message at place `i` is in the packet, with its id or else one that names its place, its role and the first
    * part of its content. */
  predicate Carried(l: Limits, h: seq<Message>, packet: Packet, i: nat) {
    exists k :: 0 <= k < |packet.messages| && i < |h| && packet.messages[k].index == i && packet.messages[k].role == h[i].role
      && packet.messages[k].id == (if h[i].id != "" then h[i].id else "history:" + Digits(i))
      && packet.messages[k].content == if |h[i].content| <= l.perMessage then h[i].content else h[i].content[..l.perMessage]
  }

  lemma SpokenIff(h: seq<Message>, i: nat)
    requires i < |h|
    ensures Spoken(h, i) <==> Speaks(h[i])
  {
    hide IsSpace;
    BlankIff(h[i].content);
  }

  lemma KeptIsCarried(l: Limits, h: seq<Message>, score: nat -> real, candidates: set<nat>, packet: Packet, i: nat)
    requires IsPacket(l, h, score, candidates, packet) && Kept(packet, i)
    ensures Carried(l, h, packet, i)
  {
    hide IsPacket, Speaks, Mandatory, Digits;
    PacketIsBounded(l, h, score, candidates, packet);
    var k :| 0 <= k < |packet.messages| && packet.messages[k].index == i;
    assert packet.messages[k] == SelectedOf(l, h, i);
  }

  /** What a packet is in terms of the conversation: only messages of the user and the assistant that are not blank,
    * each recent, or the first of the user, or with a token of the query and a good score; and, with room for one
    * message more than the recent ones, all of the recent ones, of either role. */
  ghost predicate Conveys(tokens: string -> set<Token>, l: Limits, h: seq<Message>, query: set<Token>, score: nat -> real, packet: Packet) {
    && (forall k :: 0 <= k < |packet.messages| ==>
          var i := packet.messages[k].index;
          && Spoken(h, i) && Carried(l, h, packet, i)
          && (i + l.recent >= |h|
              || (h[i].role == "user" && forall j :: 0 <= j < i ==> h[j].role != "user")
              || (score(i) > 0.18 && exists t :: t in query && t in tokens(h[i].content))))
    && ((l.recent + 1) * l.perMessage <= l.budget ==>
          forall i: nat :: i < |h| <= i + l.recent && Spoken(h, i) ==> Carried(l, h, packet, i))
  }

  lemma PacketConveys(tokens: string -> set<Token>, l: Limits, h: seq<Message>, query: set<Token>, score: nat -> real,
                      all: set<nat>, candidates: set<nat>, packet: Packet)
    requires Answers(tokens, h, query, all) && candidates <= all && IsPacket(l, h, score, candidates, packet)
    ensures Conveys(tokens, l, h, query, score, packet)
  {
    hide IsPacket, Speaks, SourceId, Spoken, Carried;
    PacketIsBounded(l, h, score, candidates, packet);
    forall k | 0 <= k < |packet.messages|
      ensures Spoken(h, packet.messages[k].index) && Carried(l, h, packet, packet.messages[k].index)
    {
      assert Speaks(h[packet.messages[k].index]);
      SpokenIff(h, packet.messages[k].index);
      KeptIsCarried(l, h, score, candidates, packet, packet.messages[k].index);
    }
    if (l.recent + 1) * l.perMessage <= l.budget {
      forall i: nat | i < |h| <= i + l.recent && Spoken(h, i) ensures Carried(l, h, packet, i) {
        SpokenIff(h, i);
        RecentAreKept(l, h, score, candidates, packet, i);
        KeptIsCarried(l, h, score, candidates, packet, i);
      }
    }
  }

  predicate Relevant(tokens: string -> set<Token>, h: seq<Message>, query: set<Token>, i: nat) {
    i < |h| && h[i].role in {"user", "assistant"} && exists t :: t in query && t in tokens(h[i].content)
  }

  /** The older messages with a token of the query that score better than the one at `i`, or as well and are newer. */
  ghost function Rivals(tokens: string -> set<Token>, l: Limits, h: seq<Message>, query: set<Token>, score: nat -> real, i: nat): set<nat> {
    set j: nat | j < |h| && j + l.recent < |h| && Relevant(tokens, h, query, j) && (score(j) > score(i) || (score(j) == score(i) && j > i))
  }

  /** With room for all at full length, a message with a token of the query and a good score is sent unless as many
    * as may be retrieved come before it. */
  ghost predicate SendsRelevant(tokens: string -> set<Token>, l: Limits, h: seq<Message>, query: set<Token>, score: nat -> real, packet: Packet) {
    (1 + l.recent + l.retrieved) * l.perMessage <= l.budget ==>
      forall i: nat ::
        (i < |h| && Spoken(h, i) && Relevant(tokens, h, query, i) && score(i) > 0.18 && |Rivals(tokens, l, h, query, score, i)| < l.retrieved)
        ==> Carried(l, h, packet, i)
  }

  lemma PacketSendsRelevant(tokens: string -> set<Token>, l: Limits, h: seq<Message>, query: set<Token>, score: nat -> real,
                            candidates: set<nat>, packet: Packet)
    requires Answers(tokens, h, query, candidates) && IsPacket(l, h, score, candidates, packet)
    ensures SendsRelevant(tokens, l, h, query, score, packet)
  {
    hide IsPacket, Speaks, Spoken, Carried, Rivals;
    if (1 + l.recent + l.retrieved) * l.perMessage <= l.budget {
      forall i: nat | i < |h| && Spoken(h, i) && Relevant(tokens, h, query, i) && score(i) > 0.18
                      && |Rivals(tokens, l, h, query, score, i)| < l.retrieved
        ensures Carried(l, h, packet, i)
      {
        SpokenIff(h, i);
        RelevantIsKept(tokens, l, h, query, score, candidates, packet, i);
        KeptIsCarried(l, h, score, candidates, packet, i);
      }
    }
  }

  lemma RelevantIsKept(tokens: string -> set<Token>, l: Limits, h: seq<Message>, query: set<Token>, score: nat -> real,
                       candidates: set<nat>, packet: Packet, i: nat)
    requires Answers(tokens, h, query, candidates) && IsPacket(l, h, score, candidates, packet)
    requires (1 + l.recent + l.retrieved) * l.perMessage <= l.budget && i < |h| && Speaks(h[i])
    requires Relevant(tokens, h, query, i) && score(i) > 0.18 && |Rivals(tokens, l, h, query, score, i)| < l.retrieved
    ensures Kept(packet, i)
  {
    hide FirstUser, RecentPriority, RetrievedPriority, Cost, Choose, ArePriorities, Lists, IsPacket;
    if Mandatory(l, h, i) {
      RoomGrows(l.recent + 1, 1 + l.recent + l.retrieved, l.perMessage);
      RecentAreKept(l, h, score, candidates, packet, i);
    } else {
      var m := MakingOf(l, h, score, candidates, packet);
      StripsToNothing();
      assert i in Pool(l, h, candidates);
      hide Speaks, Mandatory, Pool;
      RankIsLow(tokens, l, h, query, score, candidates, m.ranking, i);
      InPriorities(l, h, Retrieved(l, score, m.ranking), m.priorities, m.order, i);
      RetrievedArePool(l, h, score, candidates, m.ranking);
      OrderSize(l, h, Retrieved(l, score, m.ranking), m.priorities, m.order);
      var k :| 0 <= k < |m.order| && m.order[k] == i;
      RoomGrows(k + 1, 1 + l.recent + l.retrieved, l.perMessage);
      FirstAreTaken(l, h, m.order, k);
      KeptIffChosen(l, h, score, candidates, m, packet, i);
    }
  }

  lemma StripsToNothing()
    ensures Strip("") == ""
  {
  }

  lemma MakingOf(l: Limits, h: seq<Message>, score: nat -> real, candidates: set<nat>, packet: Packet) returns (m: Making)
    requires IsPacket(l, h, score, candidates, packet)
    ensures Makes(l, h, score, candidates, m, packet)
  {
    hide Makes;
    m :| Makes(l, h, score, candidates, m, packet);
  }

  lemma InPriorities(l: Limits, h: seq<Message>, retrieved: seq<nat>, p: map<nat, real>, order: seq<nat>, i: nat)
    requires ArePriorities(l, h, retrieved, p) && Lists(PriorityKey(p), false, p.Keys, order) && i in retrieved
    ensures i in order
  {
    hide FirstUser, RecentPriority, RetrievedPriority, Mandatory;
  }

  lemma RankIsLow(tokens: string -> set<Token>, l: Limits, h: seq<Message>, query: set<Token>, score: nat -> real,
                  candidates: set<nat>, ranking: seq<nat>, i: nat)
    requires Answers(tokens, h, query, candidates) && Lists(score, true, Pool(l, h, candidates), ranking) && i in Pool(l, h, candidates)
    requires score(i) > 0.18 && |Rivals(tokens, l, h, query, score, i)| < l.retrieved
    ensures i in Retrieved(l, score, ranking)
  {
    hide FirstUser;
    var k :| 0 <= k < |ranking| && ranking[k] == i;
    var ahead := ranking[..k];
    InOrderIsDistinct(score, true, ranking);
    assert Distinct(ahead);
    DistinctSize(ahead);
    forall j | j in Set(ahead) ensures j in Rivals(tokens, l, h, query, score, i) {
      var a :| 0 <= a < k && ahead[a] == j;
      assert Before(score, true, ranking[a], ranking[k]) && ranking[a] in ranking;
    }
    SubsetSize(Set(ahead), Rivals(tokens, l, h, query, score, i));
    AboveIsPart(score, Take(ranking, l.retrieved));
    assert Take(ranking, l.retrieved)[k] == i;
  }

  lemma NothingRelevant(tokens: string -> set<Token>, l: Limits, query: set<Token>, score: nat -> real)
    ensures SendsRelevant(tokens, l, [], query, score, Packet([], 0, 0, 0))
  {
  }

  lemma NothingConveyed(tokens: string -> set<Token>, l: Limits, query: set<Token>, score: nat -> real)
    ensures Conveys(tokens, l, [], query, score, Packet([], 0, 0, 0))
  {
  }

  /** The message at place `i` is older than the recent ones, and not the user's first. */
  predicate Old(l: Limits, h: seq<Message>, i: nat) {
    i + l.recent < |h| && !(h[i].role == "user" && forall j :: 0 <= j < i ==> h[j].role != "user")
  }

  lemma OldIff(l: Limits, h: seq<Message>, i: nat)
    ensures LongRange(l, h, i) <==> Old(l, h, i)
  {
  }

  lemma {:induction false} OldPlaces(l: Limits, h: seq<Message>, s: seq<nat>)
    ensures CountLongRange(l, h, s) == |Olds(l, h, s)|
    decreases |s|
  {
    hide LongRange, Old, Olds;
    OneMoreOld(l, h, s);
    if s != [] {
      OldPlaces(l, h, s[..|s| - 1]);
      OldIff(l, h, s[|s| - 1]);
    }
  }

  function Olds(l: Limits, h: seq<Message>, s: seq<nat>): (places: set<nat>)
    ensures forall k: nat :: k in places <==> k < |s| && Old(l, h, s[k])
  {
    set k: nat | k < |s| && Old(l, h, s[k])
  }

  lemma OneMoreOld(l: Limits, h: seq<Message>, s: seq<nat>)
    ensures if s == [] then Olds(l, h, s) == {}
            else
              var n := |s| - 1;
              n !in Olds(l, h, s[..n]) && Olds(l, h, s) == if Old(l, h, s[n]) then Olds(l, h, s[..n]) + {n} else Olds(l, h, s[..n])
  {
    hide Old;
  }

  /** The messages reported as retrieved from far back are those that are older than the recent ones and not the user's
    * first. */
  lemma LongRangeCounts(l: Limits, h: seq<Message>, score: nat -> real, candidates: set<nat>, packet: Packet)
    requires IsPacket(l, h, score, candidates, packet)
    ensures packet.longRange == |set k: nat | k < |packet.messages| && Old(l, h, packet.messages[k].index)|
  {
    hide Lists, ArePriorities, Pool, Retrieved, Choose, Old, CountLongRange;
    var m :| Makes(l, h, score, candidates, m, packet);
    OldPlaces(l, h, m.chosen);
    assert (set k: nat | k < |packet.messages| && Old(l, h, packet.messages[k].index)) == Olds(l, h, m.chosen);
  }

  lemma RoomGrows(m: nat, n: nat, size: nat)
    requires m <= n
    ensures m * size <= n * size
  {
    assert n * size == m * size + (n - m) * size;
    assert (n - m) * size >= 0;
  }

  /* ---- What the character count counts ---- */

  function SeqSum(f: nat -> nat, s: seq<nat>): nat { if s == [] then 0 else SeqSum(f, s[..|s| - 1]) + f(s[|s| - 1]) }

  function SumIn(f: nat -> nat, n: nat, s: set<nat>): nat {
    if n == 0 then 0 else SumIn(f, n - 1, s) + (if n - 1 in s then f(n - 1) else 0)
  }

  lemma {:induction false} SumOfOneMore(f: nat -> nat, n: nat, s: set<nat>, i: nat)
    requires i !in s
    ensures SumIn(f, n, s + {i}) == SumIn(f, n, s) + (if i < n then f(i) else 0)
    decreases n
  {
    if n > 0 {
      SumOfOneMore(f, n - 1, s, i);
    }
  }

  lemma {:induction false} SumOfNone(f: nat -> nat, n: nat)
    ensures SumIn(f, n, {}) == 0
    decreases n
  {
    if n > 0 {
      SumOfNone(f, n - 1);
    }
  }

  /** A sum over different places does not depend on their order. */
  lemma {:induction false} SumIgnoresOrder(f: nat -> nat, n: nat, s: seq<nat>)
    requires Distinct(s) && forall k :: 0 <= k < |s| ==> s[k] < n
    ensures SeqSum(f, s) == SumIn(f, n, Set(s))
    decreases |s|
  {
    if s == [] {
      SumOfNone(f, n);
      assert Set(s) == {};
    } else {
      var front, last := s[..|s| - 1], s[|s| - 1];
      assert s == front + [last];
      SumIgnoresOrder(f, n, front);
      assert last !in front;
      assert Set(s) == Set(front) + {last};
      SumOfOneMore(f, n, Set(front), last);
    }
  }

  lemma {:induction false} SumsCompare(f: nat -> nat, g: nat -> nat, n: nat, s: set<nat>)
    requires forall i :: f(i) <= g(i)
    ensures SumIn(f, n, s) <= SumIn(g, n, s)
    ensures SumIn(f, n, s) == SumIn(g, n, s) <==> forall i :: i in s && i < n ==> f(i) == g(i)
    decreases n
  {
    if n > 0 {
      SumsCompare(f, g, n - 1, s);
    }
  }

  function CostAt(l: Limits, h: seq<Message>): nat -> nat { (i: nat) => if i < |h| then Cost(l, h[i]) else 0 }

  function LengthAt(l: Limits, h: seq<Message>): nat -> nat { (i: nat) => if i < |h| then |Take(h[i].content, l.perMessage)| else 0 }

  lemma {:induction false} UsedIsCost(l: Limits, h: seq<Message>, order: seq<nat>, n: nat)
    requires n <= |order| && Places(h, order) && Distinct(order)
    ensures Choose(l, h, order, n).used == SeqSum(CostAt(l, h), Choose(l, h, order, n).places) && Distinct(Choose(l, h, order, n).places)
    decreases n
  {
    hide Cost, Speaks;
    if n > 0 {
      UsedIsCost(l, h, order, n - 1);
      ChosenAreOfOrder(l, h, order, n - 1);
      var c, i := Choose(l, h, order, n - 1), order[n - 1];
      assert (c.places + [i])[..|c.places|] == c.places;
      assert i !in order[..n - 1];
    }
  }

  function OutputChars(ms: seq<Selected>): nat {
    if ms == [] then 0 else OutputChars(ms[..|ms| - 1]) + |ms[|ms| - 1].content|
  }

  lemma {:induction false} OutputIsLength(l: Limits, h: seq<Message>, ms: seq<Selected>, s: seq<nat>)
    requires |ms| == |s| && Places(h, s) && forall k :: 0 <= k < |s| ==> ms[k] == SelectedOf(l, h, s[k])
    ensures OutputChars(ms) == SeqSum(LengthAt(l, h), s)
    decreases |s|
  {
    hide SourceId;
    if s != [] {
      OutputIsLength(l, h, ms[..|ms| - 1], s[..|s| - 1]);
    }
  }

  /** The count that is held against the budget is taken of stripped contents, and what is sent is not
    * stripped: the characters sent are never fewer, and as many only if no message that was taken lost
    * white space in the counting. */
  lemma CountIsExactIff(l: Limits, h: seq<Message>, score: nat -> real, candidates: set<nat>, packet: Packet)
    requires IsPacket(l, h, score, candidates, packet)
    ensures packet.chars <= OutputChars(packet.messages)
    ensures packet.chars == OutputChars(packet.messages) <==>
              forall i: nat :: i < |h| && Kept(packet, i) ==> |Take(h[i].content, l.perMessage)| == Cost(l, h[i])
  {
    hide Cost, Speaks, Choose, Before, InOrder, Pool, ArePriorities, FirstUser, CostAt, LengthAt, OutputChars, SumIn, CountLongRange;
    var m :| Makes(l, h, score, candidates, m, packet);
    var places := Choose(l, h, m.order, |m.order|).places;
    InOrderIsDistinct(PriorityKey(m.priorities), false, m.order);
    InOrderIsDistinct(NoKey(), false, m.chosen);
    UsedIsSum(l, h, m.order);
    OutputIsSum(l, h, packet.messages, m.chosen);
    assert Set(m.chosen) == Set(places);
    forall i: nat ensures CostAt(l, h)(i) <= LengthAt(l, h)(i) {
      CostIsNoMore(l, h, i);
    }
    SumsCompare(CostAt(l, h), LengthAt(l, h), |h|, Set(places));
    forall i: nat ensures i < |h| && Kept(packet, i) <==> i in Set(places) && i < |h| {
      KeptIffChosen(l, h, score, candidates, m, packet, i);
    }
    forall i: nat | i < |h| ensures CostAt(l, h)(i) == Cost(l, h[i]) && LengthAt(l, h)(i) == |Take(h[i].content, l.perMessage)| {
      CostIsNoMore(l, h, i);
    }
  }

  lemma UsedIsSum(l: Limits, h: seq<Message>, order: seq<nat>)
    requires Places(h, order) && Distinct(order)
    ensures var c := Choose(l, h, order, |order|); c.used == SumIn(CostAt(l, h), |h|, Set(c.places))
  {
    hide Cost, Speaks, Choose;
    var places := Choose(l, h, order, |order|).places;
    UsedIsCost(l, h, order, |order|);
    ChosenAreOfOrder(l, h, order, |order|);
    PlacesOfChosen(h, order, places);
    SumIgnoresOrder(CostAt(l, h), |h|, places);
  }

  lemma OutputIsSum(l: Limits, h: seq<Message>, ms: seq<Selected>, s: seq<nat>)
    requires |ms| == |s| && Places(h, s) && Distinct(s) && forall k :: 0 <= k < |s| ==> ms[k] == SelectedOf(l, h, s[k])
    ensures OutputChars(ms) == SumIn(LengthAt(l, h), |h|, Set(s))
  {
    OutputIsLength(l, h, ms, s);
    SumIgnoresOrder(LengthAt(l, h), |h|, s);
  }

  lemma PlacesOfChosen(h: seq<Message>, order: seq<nat>, places: seq<nat>)
    requires Places(h, order) && forall i :: i in places ==> i in order[..|order|]
    ensures Places(h, places)
  {
    assert order[..|order|] == order;
    assert forall k :: 0 <= k < |places| ==> places[k] in places;
  }

  lemma CostIsNoMore(l: Limits, h: seq<Message>, i: nat)
    ensures CostAt(l, h)(i) <= LengthAt(l, h)(i)
    ensures i < |h| ==> CostAt(l, h)(i) == Cost(l, h[i]) && LengthAt(l, h)(i) == |Take(h[i].content, l.perMessage)|
  {
    if i < |h| {
      StripNoLonger(h[i].content);
    }
  }

  /* ---- What is sent ---- */

  predicate Lossless(l: Limits, m: Message) { |Take(m.content, l.perMessage)| == Cost(l, m) }

  /** Nothing is lost in the counting exactly if there is no white space around the text, or the text fills
    * the limit for one message. */
  lemma LosslessIff(l: Limits, m: Message)
    ensures Lossless(l, m) <==> |Strip(m.content)| == |m.content| || |Strip(m.content)| >= l.perMessage
  {
    StripNoLonger(m.content);
  }

  /** A message of a packet is sent blank exactly if all that is left of it by the cut is white space; it is
    * then longer than the cut. */
  lemma SentBlankIff(l: Limits, h: seq<Message>, score: nat -> real, candidates: set<nat>, packet: Packet, k: nat)
    requires IsPacket(l, h, score, candidates, packet) && k < |packet.messages|
    ensures packet.messages[k].index < |h|
    ensures var content := h[packet.messages[k].index].content;
            && (Strip(packet.messages[k].content) == "" <==> forall j :: 0 <= j < Min(|content|, l.perMessage) ==> IsSpace(content[j]))
            && (Strip(packet.messages[k].content) == "" ==> |content| > l.perMessage)
  {
    hide IsPacket, IsSpace, Strip;
    PacketIsBounded(l, h, score, candidates, packet);
    var content, sent := h[packet.messages[k].index].content, packet.messages[k].content;
    BlankIff(sent);
    assert sent == Take(content, l.perMessage);
    assert forall j :: 0 <= j < |sent| ==> sent[j] == content[j];
  }

  /** The first user message is in every packet, cut; its text survives the cut exactly if it starts within
    * the limit for one message. */
  lemma FirstUserIsSent(l: Limits, h: seq<Message>, score: nat -> real, candidates: set<nat>, packet: Packet, i: nat) returns (k: nat)
    requires IsPacket(l, h, score, candidates, packet) && FirstUser(h, 0) == Some(i) && Speaks(h[i])
    ensures k < |packet.messages| && packet.messages[k] == SelectedOf(l, h, i)
    ensures Strip(packet.messages[k].content) != "" <==>
              exists j :: 0 <= j < Min(|h[i].content|, l.perMessage) && !IsSpace(h[i].content[j])
  {
    hide IsPacket, IsSpace, Strip, Speaks, FirstUser;
    FirstUserIsKept(l, h, score, candidates, packet, i);
    k :| 0 <= k < |packet.messages| && packet.messages[k].index == i;
    PacketIsBounded(l, h, score, candidates, packet);
    SentBlankIff(l, h, score, candidates, packet, k);
  }

  function Blanks(n: nat): (s: string)
    ensures |s| == n && forall i :: 0 <= i < n ==> s[i] == ' '
  {
    seq(n, i => ' ')
  }

  lemma {:induction false} StripOfBlanks(n: nat)
    ensures Strip(Blanks(n) + "x") == "x"
    decreases n
  {
    if n > 0 {
      StripOfBlanks(n - 1);
      assert (Blanks(n) + "x")[1..] == Blanks(n - 1) + "x";
    }
  }

  /** A message of 600 blanks and a letter is chosen for its letter, counted as one character, and sent as
    * 600 blanks. */
  lemma BlankIsSent(score: nat -> real, candidates: set<nat>, packet: Packet)
    requires IsPacket(MakeLimits(2, 0, 3000, 600), [Message("1", "user", Blanks(600) + "x")], score, candidates, packet)
    ensures exists k :: 0 <= k < |packet.messages| && packet.messages[k].content == Blanks(600) && Strip(packet.messages[k].content) == ""
    ensures packet.chars < OutputChars(packet.messages)
  {
    hide Blanks, IsPacket, Strip;
    var l, h := MakeLimits(2, 0, 3000, 600), [Message("1", "user", Blanks(600) + "x")];
    StripOfBlanks(600);
    assert FirstUser(h, 0) == Some(0) && Speaks(h[0]);
    var k := FirstUserIsSent(l, h, score, candidates, packet, 0);
    assert Take(Blanks(600) + "x", 600) == Blanks(600);
    BlankIff(Blanks(600));
    CountIsExactIff(l, h, score, candidates, packet);
    assert Kept(packet, 0);
    assert !Lossless(l, h[0]);
  }

  /* ---- Which messages can be sent ---- */

  /** The recent places from the newest back, without the first user message. */
  function RecentDown(first: Option<nat>, from: nat, upto: nat): (s: seq<nat>)
    ensures forall k :: 0 <= k < |s| ==> s[k] < upto
    decreases upto
  {
    if upto <= from then [] else (if first == Some(upto - 1) then [] else [upto - 1]) + RecentDown(first, from, upto - 1)
  }

  /** The order in which the mandatory messages are considered. */
  function MandatoryOrder(l: Limits, h: seq<Message>): (s: seq<nat>)
    ensures Places(h, s)
  {
    (if FirstUser(h, 0).Some? then [FirstUser(h, 0).value] else []) + RecentDown(FirstUser(h, 0), RecentStart(l, h), |h|)
  }

  /** What is chosen of the mandatory messages. */
  function MandatoryChoice(l: Limits, h: seq<Message>): Choice {
    Choose(l, h, MandatoryOrder(l, h), |MandatoryOrder(l, h)|)
  }

  /** A mandatory message can be sent if it is chosen among these; any other if one can be retrieved and it
    * fits beside these. */
  predicate CanBeSent(l: Limits, h: seq<Message>, i: nat) {
    && i < |h| && Speaks(h[i])
    && if Mandatory(l, h, i) then i in MandatoryChoice(l, h).places else l.retrieved >= 1 && Fits(l, MandatoryChoice(l, h), h[i])
  }

  predicate Falling(s: seq<nat>) { forall a, b :: 0 <= a < b < |s| ==> s[b] < s[a] }

  lemma FallingCons(i: nat, s: seq<nat>)
    requires Falling(s) && forall k :: 0 <= k < |s| ==> s[k] < i
    ensures Falling([i] + s)
  {
    var r := [i] + s;
    forall a, b | 0 <= a < b < |r| ensures r[b] < r[a] {
      assert r[b] == s[b - 1] && (a > 0 ==> r[a] == s[a - 1]);
    }
  }

  lemma {:induction false} RecentDownFalls(first: Option<nat>, from: nat, upto: nat)
    ensures Falling(RecentDown(first, from, upto))
    decreases upto
  {
    if from < upto {
      RecentDownFalls(first, from, upto - 1);
      var rest := RecentDown(first, from, upto - 1);
      if first == Some(upto - 1) {
        assert RecentDown(first, from, upto) == rest;
      } else {
        hide Falling;
        FallingCons(upto - 1, rest);
      }
    }
  }

  lemma {:induction false} RecentDownIff(first: Option<nat>, from: nat, upto: nat, i: nat)
    ensures i in RecentDown(first, from, upto) <==> from <= i < upto && first != Some(i)
    decreases upto
  {
    if from < upto {
      RecentDownIff(first, from, upto - 1, i);
    }
  }

  lemma MandatoryOrderLists(l: Limits, h: seq<Message>, retrieved: seq<nat>, p: map<nat, real>)
    requires ArePriorities(l, h, retrieved, p)
    ensures Lists(PriorityKey(p), false, MandatorySet(l, h), MandatoryOrder(l, h))
  {
    hide FirstUser, RecentPriority, RetrievedPriority, Before, MandatorySet, MandatoryOrder, Mandatory;
    MandatorySize(l, h);
    MandatoryOrderIff(l, h);
    var order := MandatoryOrder(l, h);
    forall a, b | 0 <= a < b < |order| ensures Before(PriorityKey(p), false, order[a], order[b]) {
      assert order[a] in order && order[b] in order;
      MandatoryPairs(l, h, a, b);
      PrioritiesMean(l, h, retrieved, p, order[a], order[b]);
    }
  }

  /** In that order the first user message is first, and newer messages come before older ones. */
  lemma MandatoryPairs(l: Limits, h: seq<Message>, a: nat, b: nat)
    requires a < b < |MandatoryOrder(l, h)|
    ensures var i, j := MandatoryOrder(l, h)[a], MandatoryOrder(l, h)[b];
            && i != j && FirstUser(h, 0) != Some(j) && RecentStart(l, h) <= j
            && (FirstUser(h, 0) == Some(i) || j < i < |h|)
  {
    hide FirstUser;
    var first, order := FirstUser(h, 0), MandatoryOrder(l, h);
    var down := RecentDown(first, RecentStart(l, h), |h|);
    RecentDownFalls(first, RecentStart(l, h), |h|);
    RecentDownIff(first, RecentStart(l, h), |h|, order[b]);
    var d := if first.Some? then 1 else 0;
    assert order[b] == down[b - d] && down[b - d] in down;
    if a >= d {
      assert order[a] == down[a - d] && down[b - d] < down[a - d];
    } else {
      assert order[a] == first.value;
    }
  }

  lemma MandatoryOrderIff(l: Limits, h: seq<Message>)
    ensures forall i: nat :: i in MandatoryOrder(l, h) <==> i < |h| && Mandatory(l, h, i)
  {
    forall i: nat ensures i in MandatoryOrder(l, h) <==> i < |h| && Mandatory(l, h, i) {
      RecentDownIff(FirstUser(h, 0), RecentStart(l, h), |h|, i);
    }
  }

  lemma {:induction false} ListExists(key: nat -> real, newer: bool, pool: set<nat>) returns (s: seq<nat>)
    ensures Lists(key, newer, pool, s)
    decreases |pool|
  {
    hide Before;
    if pool == {} {
      s := [];
    } else {
      var i := LeaderExists(key, newer, pool);
      var rest := ListExists(key, newer, pool - {i});
      s := [i] + rest;
      assert forall k :: 0 <= k < |rest| ==> rest[k] in rest;
      LeaderInOrder(key, newer, i, rest);
    }
  }

  lemma LeaderInOrder(key: nat -> real, newer: bool, i: nat, rest: seq<nat>)
    requires InOrder(key, newer, rest) && forall k :: 0 <= k < |rest| ==> Before(key, newer, i, rest[k])
    ensures InOrder(key, newer, [i] + rest)
  {
    hide Before;
    var s := [i] + rest;
    forall a, b | 0 <= a < b < |s| ensures Before(key, newer, s[a], s[b]) {
      assert s[b] == rest[b - 1] && (a > 0 ==> s[a] == rest[a - 1]);
    }
  }

  lemma ListsInTwo(key: nat -> real, newer: bool, p: set<nat>, q: set<nat>, a: seq<nat>, b: seq<nat>)
    requires Lists(key, newer, p, a) && Lists(key, newer, q, b) && forall i, j :: i in p && j in q ==> Before(key, newer, i, j)
    ensures Lists(key, newer, p + q, a + b)
  {
    hide Before;
    var s := a + b;
    forall m, n | 0 <= m < n < |s| ensures Before(key, newer, s[m], s[n]) {
      if n < |a| {
        assert s[m] == a[m] && s[n] == a[n];
      } else {
        assert s[n] == b[n - |a|] && s[n] in b;
        if m < |a| {
          assert s[m] in a;
        } else {
          assert s[m] == b[m - |a|];
        }
      }
    }
  }

  /** The mandatory messages are considered first, in their own order, and then the retrieved ones. */
  lemma OrderStartsMandatory(l: Limits, h: seq<Message>, retrieved: seq<nat>, p: map<nat, real>, order: seq<nat>) returns (rest: seq<nat>)
    requires ArePriorities(l, h, retrieved, p) && Lists(PriorityKey(p), false, p.Keys, order)
    requires forall i :: i in retrieved ==> i < |h| && !Mandatory(l, h, i)
    ensures order == MandatoryOrder(l, h) + rest && forall i :: i in rest <==> i in retrieved
  {
    hide Before, InOrder, FirstUser, RecentPriority, RetrievedPriority, MandatorySet;
    rest := ListExists(PriorityKey(p), false, Set(retrieved));
    MandatoryOrderLists(l, h, retrieved, p);
    MandatorySize(l, h);
    forall i, j | i in MandatorySet(l, h) && j in Set(retrieved) ensures Before(PriorityKey(p), false, i, j) {
      PrioritiesMean(l, h, retrieved, p, i, j);
    }
    ListsInTwo(PriorityKey(p), false, MandatorySet(l, h), Set(retrieved), MandatoryOrder(l, h), rest);
    assert MandatorySet(l, h) + Set(retrieved) == p.Keys;
    ListIsUnique(PriorityKey(p), false, p.Keys, order, MandatoryOrder(l, h) + rest);
  }

  lemma {:induction false} ChooseOfPrefix(l: Limits, h: seq<Message>, a: seq<nat>, b: seq<nat>, n: nat)
    requires n <= |a| && n <= |b| && a[..n] == b[..n] && Places(h, a) && Places(h, b)
    ensures Choose(l, h, a, n) == Choose(l, h, b, n)
    decreases n
  {
    hide Speaks, Cost;
    if n > 0 {
      assert a[..n][..n - 1] == a[..n - 1] && b[..n][..n - 1] == b[..n - 1];
      assert a[n - 1] == a[..n][n - 1] == b[n - 1];
      ChooseOfPrefix(l, h, a, b, n - 1);
    }
  }

  /** A message is chosen exactly if it fits when its turn comes. */
  lemma {:induction false} ChosenAtTurn(l: Limits, h: seq<Message>, order: seq<nat>, n: nat, k: nat)
    requires k < n <= |order| && Places(h, order) && Distinct(order)
    ensures order[k] in Choose(l, h, order, n).places <==> Fits(l, Choose(l, h, order, k), h[order[k]])
    decreases n
  {
    hide Fits;
    if k < n - 1 {
      ChosenAtTurn(l, h, order, n - 1, k);
      assert order[n - 1] != order[k];
    } else {
      ChosenAreOfOrder(l, h, order, k);
      assert order[k] !in order[..k];
    }
  }

  lemma {:induction false} UsedGrows(l: Limits, h: seq<Message>, order: seq<nat>, m: nat, n: nat)
    requires m <= n <= |order| && Places(h, order)
    ensures Choose(l, h, order, m).used <= Choose(l, h, order, n).used
    ensures Choose(l, h, order, m).places != [] ==> Choose(l, h, order, n).places != []
    decreases n
  {
    hide Speaks, Cost;
    if m < n {
      UsedGrows(l, h, order, m, n - 1);
    }
  }

  lemma MandatoryPart(l: Limits, h: seq<Message>, order: seq<nat>, rest: seq<nat>, k: nat)
    requires order == MandatoryOrder(l, h) + rest && Places(h, order) && k <= |MandatoryOrder(l, h)|
    ensures Choose(l, h, order, k) == Choose(l, h, MandatoryOrder(l, h), k)
  {
    assert order[..k] == MandatoryOrder(l, h)[..k];
    ChooseOfPrefix(l, h, order, MandatoryOrder(l, h), k);
  }

  lemma KeptCanBeSent(l: Limits, h: seq<Message>, score: nat -> real, candidates: set<nat>, packet: Packet, i: nat)
    requires IsPacket(l, h, score, candidates, packet) && Kept(packet, i)
    ensures CanBeSent(l, h, i)
  {
    hide Before, InOrder, FirstUser, RecentPriority, RetrievedPriority, Speaks, Cost, Choose, Mandatory, MandatoryOrder, Pool, CountLongRange, ArePriorities;
    var m :| Makes(l, h, score, candidates, m, packet);
    RetrievedArePool(l, h, score, candidates, m.ranking);
    PoolIsOptional(l, h, candidates);
    var rest := OrderStartsMandatory(l, h, Retrieved(l, score, m.ranking), m.priorities, m.order);
    KeptIffChosen(l, h, score, candidates, m, packet, i);
    InOrderIsDistinct(PriorityKey(m.priorities), false, m.order);
    ChosenAreOfOrder(l, h, m.order, |m.order|);
    assert m.order[..|m.order|] == m.order;
    var k :| 0 <= k < |m.order| && m.order[k] == i;
    ChosenAtTurn(l, h, m.order, |m.order|, k);
    TurnDecides(l, h, m.order, rest, k);
    if k >= |MandatoryOrder(l, h)| {
      assert m.order[k] == rest[k - |MandatoryOrder(l, h)|] && i in rest;
    }
  }

  /** Fitting at its turn among all is fitting among the mandatory ones, for a mandatory message, and implies
    * fitting beside these, for any other. */
  lemma TurnDecides(l: Limits, h: seq<Message>, order: seq<nat>, rest: seq<nat>, k: nat)
    requires order == MandatoryOrder(l, h) + rest && Places(h, order) && Distinct(order) && k < |order|
    requires forall i :: i in rest ==> i < |h| && !Mandatory(l, h, i)
    ensures order[k] < |h|
    ensures k < |MandatoryOrder(l, h)| <==> Mandatory(l, h, order[k])
    ensures k < |MandatoryOrder(l, h)| ==>
              (Fits(l, Choose(l, h, order, k), h[order[k]]) <==> order[k] in MandatoryChoice(l, h).places)
    ensures k >= |MandatoryOrder(l, h)| && Fits(l, Choose(l, h, order, k), h[order[k]]) ==> Fits(l, MandatoryChoice(l, h), h[order[k]])
  {
    hide Speaks, Cost, Choose, Mandatory, MandatoryOrder;
    var front := MandatoryOrder(l, h);
    MandatoryOrderIff(l, h);
    assert order[k] == if k < |front| then front[k] else rest[k - |front|];
    if k < |front| {
      assert front[k] in front;
      assert Distinct(front) by { forall a, b | 0 <= a < b < |front| ensures front[a] != front[b] { assert order[a] == front[a] && order[b] == front[b]; } }
      MandatoryPart(l, h, order, rest, k);
      ChosenAtTurn(l, h, front, |front|, k);
    } else {
      assert rest[k - |front|] in rest;
      MandatoryPart(l, h, order, rest, |front|);
      UsedGrows(l, h, order, |front|, k);
    }
  }

  function PlaceIn(s: seq<nat>, i: nat): (k: nat)
    requires i in s
    ensures k < |s| && s[k] == i
  {
    if s[0] == i then 0 else 1 + PlaceIn(s[1..], i)
  }

  lemma PrioritiesExist(l: Limits, h: seq<Message>, retrieved: seq<nat>) returns (p: map<nat, real>)
    requires Distinct(retrieved) && forall i :: i in retrieved ==> i < |h| && !Mandatory(l, h, i)
    ensures ArePriorities(l, h, retrieved, p)
  {
    hide FirstUser, RecentPriority, RetrievedPriority, MandatorySet;
    MandatorySize(l, h);
    p := map i | i in MandatorySet(l, h) + Set(retrieved) ::
           if FirstUser(h, 0) == Some(i) then 100.0
           else if RecentStart(l, h) <= i < |h| then RecentPriority(h, i)
           else if i in retrieved then RetrievedPriority(PlaceIn(retrieved, i)) else 0.0;
    forall k | 0 <= k < |retrieved| ensures retrieved[k] in p && p[retrieved[k]] == RetrievedPriority(k) {
      assert retrieved[k] in retrieved;
      assert PlaceIn(retrieved, retrieved[k]) == k;
    }
  }

  /** There is a packet for any candidates and scores. */
  lemma PacketExists(l: Limits, h: seq<Message>, score: nat -> real, candidates: set<nat>) returns (m: Making, packet: Packet)
    ensures Makes(l, h, score, candidates, m, packet)
  {
    hide Before, InOrder, FirstUser, RecentPriority, RetrievedPriority, Speaks, Cost, Choose, Mandatory, Pool, CountLongRange, ArePriorities, Above;
    var ranking := ListExists(score, true, Pool(l, h, candidates));
    var retrieved := Retrieved(l, score, ranking);
    RetrievedArePool(l, h, score, candidates, ranking);
    PoolIsOptional(l, h, candidates);
    var p := PrioritiesExist(l, h, retrieved);
    var order := ListExists(PriorityKey(p), false, p.Keys);
    KeysArePlaces(l, h, retrieved, p, order);
    var c := Choose(l, h, order, |order|);
    ChosenAreOfOrder(l, h, order, |order|);
    assert order[..|order|] == order;
    var chosen := ListExists(NoKey(), false, Set(c.places));
    ChosenArePlaces(h, order, c.places, chosen);
    packet := Packet(seq(|chosen|, k requires 0 <= k < |chosen| && Places(h, chosen) => SelectedOf(l, h, chosen[k])), c.used,
                     |candidates|, CountLongRange(l, h, chosen));
    m := Making(ranking, p, order, chosen);
  }

  /** A message that can be sent is sent for some candidates and scores. */
  lemma CanBeSentIsKept(l: Limits, h: seq<Message>, i: nat) returns (score: nat -> real, candidates: set<nat>, packet: Packet)
    requires CanBeSent(l, h, i)
    ensures IsPacket(l, h, score, candidates, packet) && Kept(packet, i)
  {
    hide Before, InOrder, FirstUser, RecentPriority, RetrievedPriority, Speaks, Cost, Choose, Mandatory, MandatoryOrder, Pool, CountLongRange,
         ArePriorities, Above, Lists;
    score, candidates := j => 1.0, {i};
    var m;
    m, packet := PacketExists(l, h, score, candidates);
    var retrieved := Retrieved(l, score, m.ranking);
    RetrievedArePool(l, h, score, candidates, m.ranking);
    PoolIsOptional(l, h, candidates);
    var rest := OrderStartsMandatory(l, h, retrieved, m.priorities, m.order);
    ListsAreDistinct(PriorityKey(m.priorities), false, m.priorities.Keys, m.order);
    KeptIffChosen(l, h, score, candidates, m, packet, i);
    MandatoryOrderIff(l, h);
    if Mandatory(l, h, i) {
      var k :| 0 <= k < |MandatoryOrder(l, h)| && MandatoryOrder(l, h)[k] == i;
      assert m.order[k] == i;
      TurnDecides(l, h, m.order, rest, k);
      ChosenAtTurn(l, h, m.order, |m.order|, k);
    } else {
      SoleCandidate(l, h, score, i, m.ranking);
      var k := |MandatoryOrder(l, h)|;
      RestIsDistinct(MandatoryOrder(l, h), rest);
      OnlyOne(rest, i);
      assert m.order == MandatoryOrder(l, h) + [i] && m.order[k] == i;
      MandatoryPart(l, h, m.order, rest, k);
      ChosenAtTurn(l, h, m.order, |m.order|, k);
    }
  }

  lemma ListsAreDistinct(key: nat -> real, newer: bool, pool: set<nat>, s: seq<nat>)
    requires Lists(key, newer, pool, s)
    ensures Distinct(s)
  {
    InOrderIsDistinct(key, newer, s);
  }

  lemma SoleCandidate(l: Limits, h: seq<Message>, score: nat -> real, i: nat, ranking: seq<nat>)
    requires i < |h| && !Mandatory(l, h, i) && Speaks(h[i]) && l.retrieved >= 1 && score(i) == 1.0
    requires Lists(score, true, Pool(l, h, {i}), ranking)
    ensures forall j :: j in Retrieved(l, score, ranking) <==> j == i
  {
    hide Mandatory, Before;
    assert h[i].content != "";
    assert Pool(l, h, {i}) == {i};
    ListsAreDistinct(score, true, {i}, ranking);
    OnlyOne(ranking, i);
    assert Take(ranking, l.retrieved) == ranking;
    AboveIsPart(score, ranking);
  }

  lemma RestIsDistinct(front: seq<nat>, rest: seq<nat>)
    requires Distinct(front + rest)
    ensures Distinct(rest)
  {
    forall a, b | 0 <= a < b < |rest| ensures rest[a] != rest[b] {
      assert (front + rest)[|front| + a] == rest[a] && (front + rest)[|front| + b] == rest[b];
    }
  }

  lemma OnlyOne(s: seq<nat>, i: nat)
    requires Distinct(s) && forall j :: j in s <==> j == i
    ensures s == [i]
  {
    DistinctSize(s);
    assert Set(s) == {i};
    assert s[0] in s;
  }

  /** Exactly which messages are ever sent. */
  lemma SentIff(l: Limits, h: seq<Message>, i: nat)
    ensures (exists score, candidates, packet :: IsPacket(l, h, score, candidates, packet) && Kept(packet, i)) <==> CanBeSent(l, h, i)
  {
    hide IsPacket, CanBeSent, Kept;
    if CanBeSent(l, h, i) {
      var score, candidates, packet := CanBeSentIsKept(l, h, i);
    }
    if exists score, candidates, packet :: IsPacket(l, h, score, candidates, packet) && Kept(packet, i) {
      var score, candidates, packet :| IsPacket(l, h, score, candidates, packet) && Kept(packet, i);
      KeptCanBeSent(l, h, score, candidates, packet, i);
    }
  }

  predicate AllLossless(l: Limits, h: seq<Message>) { forall i {:trigger CanBeSent(l, h, i)} :: 0 <= i < |h| && CanBeSent(l, h, i) ==> Lossless(l, h[i]) }

  /** The reported characters are those sent, whatever the candidates and scores, exactly if no message that
    * can be sent loses white space in the counting; then the budget holds of what is sent, too. */
  lemma CountIsExactForAllIff(l: Limits, h: seq<Message>)
    ensures (forall score, candidates, packet :: IsPacket(l, h, score, candidates, packet) ==> packet.chars == OutputChars(packet.messages))
            <==> AllLossless(l, h)
    ensures AllLossless(l, h) ==>
              forall score, candidates, packet :: IsPacket(l, h, score, candidates, packet) ==>
                OutputChars(packet.messages) <= Max(l.budget, l.perMessage)
  {
    hide IsPacket, CanBeSent, Kept, OutputChars, Lossless;
    if AllLossless(l, h) {
      forall score, candidates, packet | IsPacket(l, h, score, candidates, packet)
        ensures packet.chars == OutputChars(packet.messages) <= Max(l.budget, l.perMessage)
      {
        LosslessCounts(l, h, score, candidates, packet);
      }
    } else {
      var i :| 0 <= i < |h| && CanBeSent(l, h, i) && !Lossless(l, h[i]);
      var score, candidates, packet := CanBeSentIsKept(l, h, i);
      LossyCounts(l, h, score, candidates, packet, i);
    }
  }

  lemma LosslessCounts(l: Limits, h: seq<Message>, score: nat -> real, candidates: set<nat>, packet: Packet)
    requires IsPacket(l, h, score, candidates, packet) && AllLossless(l, h)
    ensures packet.chars == OutputChars(packet.messages) <= Max(l.budget, l.perMessage)
  {
    hide IsPacket, CanBeSent, Kept, OutputChars;
    CountIsExactIff(l, h, score, candidates, packet);
    PacketIsBounded(l, h, score, candidates, packet);
    forall i: nat | i < |h| && Kept(packet, i) ensures Lossless(l, h[i]) {
      KeptCanBeSent(l, h, score, candidates, packet, i);
    }
  }

  lemma LossyCounts(l: Limits, h: seq<Message>, score: nat -> real, candidates: set<nat>, packet: Packet, i: nat)
    requires IsPacket(l, h, score, candidates, packet) && Kept(packet, i) && i < |h| && !Lossless(l, h[i])
    ensures packet.chars < OutputChars(packet.messages)
  {
    hide IsPacket, Kept, OutputChars;
    CountIsExactIff(l, h, score, candidates, packet);
  }

  /* ---- When the budget holds of what is sent ---- */

  lemma {:induction false} OutputIsBounded(l: Limits, ms: seq<Selected>)
    requires forall k :: 0 <= k < |ms| ==> |ms[k].content| <= l.perMessage
    ensures OutputChars(ms) <= |ms| * l.perMessage
    decreases |ms|
  {
    if ms != [] {
      OutputIsBounded(l, ms[..|ms| - 1]);
      assert |ms| * l.perMessage == (|ms| - 1) * l.perMessage + l.perMessage;
    }
  }

  /** What is sent is at most as many messages as are allowed, each at full length. */
  lemma SentIsBounded(l: Limits, h: seq<Message>, score: nat -> real, candidates: set<nat>, packet: Packet)
    requires IsPacket(l, h, score, candidates, packet)
    ensures OutputChars(packet.messages) <= (1 + l.recent + l.retrieved) * l.perMessage
  {
    hide IsPacket, Strip, Speaks, Mandatory;
    PacketIsBounded(l, h, score, candidates, packet);
    OutputIsBounded(l, packet.messages);
    RoomGrows(|packet.messages|, 1 + l.recent + l.retrieved, l.perMessage);
  }

  /** Messages of blanks with a letter behind the cut. */
  function Padded(l: Limits, n: nat): (h: seq<Message>)
    ensures |h| == n && forall i :: 0 <= i < n ==> h[i] == Message("", "user", Blanks(l.perMessage) + "x")
  {
    seq(n, i => Message("", "user", Blanks(l.perMessage) + "x"))
  }

  lemma PaddedCosts(l: Limits, n: nat, i: nat)
    requires i < n && l.perMessage >= 1
    ensures var h := Padded(l, n); Speaks(h[i]) && Cost(l, h[i]) == 1 && |Take(h[i].content, l.perMessage)| == l.perMessage
  {
    StripOfBlanks(l.perMessage);
  }

  lemma {:induction false} UnitChoose(l: Limits, h: seq<Message>, order: seq<nat>, n: nat)
    requires n <= |order| && Places(h, order) && l.budget >= 1 && forall i :: 0 <= i < |h| ==> Speaks(h[i]) && Cost(l, h[i]) == 1
    ensures Choose(l, h, order, n).used == |Choose(l, h, order, n).places| == Min(n, l.budget)
    decreases n
  {
    hide Speaks, Cost;
    if n > 0 {
      UnitChoose(l, h, order, n - 1);
    }
  }

  lemma PaddedParts(l: Limits)
    requires l.recent >= 1
    ensures var n := 1 + l.recent + l.retrieved;
            var h := Padded(l, n);
            FirstUser(h, 0) == Some(0) && RecentStart(l, h) == 1 + l.retrieved && forall i :: 0 <= i < n ==> Searchable(h[i]) && h[i].content != ""
  {
    hide Blanks;
  }

  lemma PaddedPool(l: Limits)
    requires l.recent >= 1
    ensures var n := 1 + l.recent + l.retrieved; Pool(l, Padded(l, n), Range(0, n)) == Range(1, 1 + l.retrieved)
  {
    hide Padded, FirstUser, RecentStart, Searchable;
    PaddedParts(l);
  }

  lemma PaddedRanking(l: Limits, pool: set<nat>, ranking: seq<nat>)
    requires pool == Range(1, 1 + l.retrieved) && Lists((j: nat) => 1.0, true, pool, ranking)
    ensures forall i :: i in Retrieved(l, (j: nat) => 1.0, ranking) <==> i in pool
  {
    hide Before, InOrder, Distinct;
    var score := (j: nat) => 1.0;
    ListsAreDistinct(score, true, pool, ranking);
    DistinctSize(ranking);
    SetOfList(score, true, pool, ranking);
    assert Take(ranking, l.retrieved) == ranking;
    AboveIsPart(score, ranking);
  }

  /** All of as many padded messages as are allowed are considered. */
  lemma PaddedOrder(l: Limits, h: seq<Message>, ranking: seq<nat>, priorities: map<nat, real>, order: seq<nat>)
    requires l.recent >= 1 && h == Padded(l, 1 + l.recent + l.retrieved)
    requires Lists((j: nat) => 1.0, true, Pool(l, h, Range(0, |h|)), ranking)
    requires ArePriorities(l, h, Retrieved(l, (j: nat) => 1.0, ranking), priorities)
    requires Lists(PriorityKey(priorities), false, priorities.Keys, order)
    ensures |order| == 1 + l.recent + l.retrieved
  {
    hide Lists, ArePriorities, FirstUser, Padded, Pool, Retrieved, Distinct, Searchable, PriorityKey;
    PaddedParts(l);
    PaddedPool(l);
    PaddedRanking(l, Range(1, 1 + l.retrieved), ranking);
    ListsAreDistinct(PriorityKey(priorities), false, priorities.Keys, order);
    DistinctSize(order);
    SetOfList(PriorityKey(priorities), false, priorities.Keys, order);
    KeysOfPadded(l, h, Retrieved(l, (j: nat) => 1.0, ranking), priorities);
  }

  lemma KeysOfPadded(l: Limits, h: seq<Message>, retrieved: seq<nat>, p: map<nat, real>)
    requires l.recent >= 1 && |h| == 1 + l.recent + l.retrieved && FirstUser(h, 0) == Some(0) && RecentStart(l, h) == 1 + l.retrieved
    requires ArePriorities(l, h, retrieved, p) && forall i :: i in retrieved <==> i in Range(1, 1 + l.retrieved)
    ensures p.Keys == Range(0, |h|)
  {
    hide FirstUser, RecentStart, RecentPriority, RetrievedPriority;
  }

  lemma {:induction false} OutputOfFull(size: nat, ms: seq<Selected>)
    requires forall k :: 0 <= k < |ms| ==> |ms[k].content| == size
    ensures OutputChars(ms) == |ms| * size
    decreases |ms|
  {
    if ms != [] {
      OutputOfFull(size, ms[..|ms| - 1]);
      assert |ms| * size == (|ms| - 1) * size + size;
    }
  }

  lemma PaddedOutput(l: Limits) returns (h: seq<Message>, score: nat -> real, candidates: set<nat>, packet: Packet)
    requires l.recent >= 1 && l.perMessage >= 1 && l.budget >= 1
    ensures IsPacket(l, h, score, candidates, packet)
    ensures OutputChars(packet.messages) == Min(1 + l.recent + l.retrieved, l.budget) * l.perMessage
  {
    hide Before, InOrder, FirstUser, RecentPriority, RetrievedPriority, Speaks, Cost, Choose, Mandatory, Pool, CountLongRange, ArePriorities, Padded,
         SourceId, Lists, Range;
    var n := 1 + l.recent + l.retrieved;
    h, score, candidates := Padded(l, n), (j: nat) => 1.0, Range(0, n);
    var m;
    m, packet := PacketExists(l, h, score, candidates);
    PaddedOrder(l, h, m.ranking, m.priorities, m.order);
    forall i | 0 <= i < |h| ensures Speaks(h[i]) && Cost(l, h[i]) == 1 && |Take(h[i].content, l.perMessage)| == l.perMessage {
      PaddedCosts(l, n, i);
    }
    UnitChoose(l, h, m.order, |m.order|);
    var places := Choose(l, h, m.order, |m.order|).places;
    ListsAreDistinct(PriorityKey(m.priorities), false, m.priorities.Keys, m.order);
    UsedIsCost(l, h, m.order, |m.order|);
    DistinctSize(places);
    ListsAreDistinct(NoKey(), false, Set(places), m.chosen);
    DistinctSize(m.chosen);
    SetOfList(NoKey(), false, Set(places), m.chosen);
    OutputOfFull(l.perMessage, packet.messages);
  }

  lemma SetOfList(key: nat -> real, newer: bool, pool: set<nat>, s: seq<nat>)
    requires Lists(key, newer, pool, s)
    ensures Set(s) == pool
  {
    hide Before;
  }

  /** The budget holds of what is sent, for all conversations, candidates and scores, exactly if it has room
    * for as many messages as are allowed at full length. */
  lemma BudgetHoldsIff(l: Limits)
    requires l.recent >= 2 && l.budget >= 3000 && l.perMessage >= 600
    ensures (forall h, score, candidates, packet :: IsPacket(l, h, score, candidates, packet) ==> OutputChars(packet.messages) <= l.budget)
            <==> (1 + l.recent + l.retrieved) * l.perMessage <= l.budget
  {
    hide IsPacket, OutputChars;
    var n := 1 + l.recent + l.retrieved;
    if n * l.perMessage <= l.budget {
      forall h, score, candidates, packet | IsPacket(l, h, score, candidates, packet) ensures OutputChars(packet.messages) <= l.budget {
        SentIsBounded(l, h, score, candidates, packet);
      }
    } else {
      var h, score, candidates, packet := PaddedOutput(l);
      RoomGrows(2, l.perMessage, l.budget);
      assert OutputChars(packet.messages) > l.budget;
    }
  }

  /* ---- Whole runs ---- */

  datatype Request = Request(history: seq<Message>, query: set<Token>, score: nat -> real)

  /** Any sequence of compilations over any conversations, growing, replaced or evicted in between: every
    * packet is the packet of the full scan. */
  method CompileAll(index: FastIndex, l: Limits, requests: seq<Request>) returns (packets: seq<Packet>)
    requires index.Valid() && index.cache.built == map[]
    requires forall i, j :: 0 <= i < j < |requests| ==> Coherent(requests[i].history, requests[j].history)
    modifies index.cache
    ensures |packets| == |requests|
    ensures forall i :: 0 <= i < |requests| ==>
              && Conveys(index.tokens, l, requests[i].history, requests[i].query, requests[i].score, packets[i])
              && SendsRelevant(index.tokens, l, requests[i].history, requests[i].query, requests[i].score, packets[i])
    ensures forall i :: 0 <= i < |requests| && requests[i].history != [] ==>
              IsPacket(l, requests[i].history, requests[i].score, Scan(index.tokens, requests[i].history, requests[i].query), packets[i])
  {
    hide IsPacket, Scan, Coherent, Conveys, SendsRelevant;
    packets := [];
    for n := 0 to |requests|
      invariant index.Valid() && |packets| == n
      invariant forall i :: 0 <= i < n ==>
                  && Conveys(index.tokens, l, requests[i].history, requests[i].query, requests[i].score, packets[i])
                  && SendsRelevant(index.tokens, l, requests[i].history, requests[i].query, requests[i].score, packets[i])
      invariant forall i :: 0 <= i < n && requests[i].history != [] ==>
                  IsPacket(l, requests[i].history, requests[i].score, Scan(index.tokens, requests[i].history, requests[i].query), packets[i])
      invariant forall k :: k in index.cache.built ==> exists i :: 0 <= i < n && index.cache.built[k] == requests[i].history
    {
      ghost var before := index.cache.built;
      var packet, _ := Compile(index, l, requests[n].history, requests[n].query, requests[n].score);
      packets := packets + [packet];
      forall k | k in index.cache.built ensures exists i :: 0 <= i < n + 1 && index.cache.built[k] == requests[i].history {
        if index.cache.built[k] != requests[n].history {
          var i :| 0 <= i < n && before[k] == requests[i].history;
        }
      }
    }
  }

  /** The packet is the one of what the planner answers for this request. */
  ghost predicate IsRankedPacket(tokens: string -> set<Token>, tune: Planner.Tuning, l: Limits, r: Request, packet: Packet) {
    if r.history == [] then packet == Packet([], 0, 0, 0)
    else exists candidates :: Planner.IsPlanned(tokens, tune, r.history, r.query, candidates) && IsPacket(l, r.history, r.score, candidates, packet)
  }

  /** The same with planned candidates: every packet is the one packet that history, query and scores determine,
    * whatever was cached, extended, replaced or evicted before. */
  method CompileRankedAll(index: FastIndex, tune: Planner.Tuning, l: Limits, requests: seq<Request>) returns (packets: seq<Packet>)
    requires index.Valid() && index.cache.built == map[] && tune.retrieved == l.retrieved
    requires forall i, j :: 0 <= i < j < |requests| ==> Coherent(requests[i].history, requests[j].history)
    modifies index.cache
    ensures |packets| == |requests|
    ensures forall i :: 0 <= i < |requests| ==>
              IsRankedPacket(index.tokens, tune, l, requests[i], packets[i])
              && Conveys(index.tokens, l, requests[i].history, requests[i].query, requests[i].score, packets[i])
    ensures forall i, p :: 0 <= i < |requests| && IsRankedPacket(index.tokens, tune, l, requests[i], p) ==> p == packets[i]
  {
    hide IsPacket, Coherent, Planner.IsPlanned, Conveys;
    packets := [];
    for n := 0 to |requests|
      invariant index.Valid() && |packets| == n
      invariant forall i :: 0 <= i < n ==> Conveys(index.tokens, l, requests[i].history, requests[i].query, requests[i].score, packets[i])
      invariant forall i :: 0 <= i < n ==> IsRankedPacket(index.tokens, tune, l, requests[i], packets[i])
      invariant forall k :: k in index.cache.built ==> exists i :: 0 <= i < n && index.cache.built[k] == requests[i].history
    {
      ghost var before := index.cache.built;
      var packet, _ := CompileRanked(index, tune, l, requests[n].history, requests[n].query, requests[n].score);
      packets := packets + [packet];
      forall k | k in index.cache.built ensures exists i :: 0 <= i < n + 1 && index.cache.built[k] == requests[i].history {
        if index.cache.built[k] != requests[n].history {
          var i :| 0 <= i < n && before[k] == requests[i].history;
        }
      }
    }
    forall i, p | 0 <= i < |requests| && IsRankedPacket(index.tokens, tune, l, requests[i], p) ensures p == packets[i] {
      RankedIsUnique(index.tokens, tune, l, requests[i], p, packets[i]);
    }
  }

  lemma RankedIsUnique(tokens: string -> set<Token>, tune: Planner.Tuning, l: Limits, r: Request, a: Packet, b: Packet)
    requires IsRankedPacket(tokens, tune, l, r, a) && IsRankedPacket(tokens, tune, l, r, b)
    ensures a == b
  {
    hide IsPacket, Planner.IsPlanned;
    if r.history != [] {
      var ca :| Planner.IsPlanned(tokens, tune, r.history, r.query, ca) && IsPacket(l, r.history, r.score, ca, a);
      var cb :| Planner.IsPlanned(tokens, tune, r.history, r.query, cb) && IsPacket(l, r.history, r.score, cb, b);
      RankedPacketIsUnique(tokens, tune, l, r.history, r.query, r.score, ca, cb, a, b);
    }
  }
}

/** The candidate planner for long histories: prefer the postings of rare tokens, but never cut a
  * posting short, and fall back to all of them when no token is rare. */
module Planner {
  import opened Basics
  import opened PrefixCache
  import opened Postings

  /** One query token that occurs in the history, with its posting. */
  datatype Row = Row(token: Token, places: seq<nat>)

  /* ---- The order of the rows: by frequency, then by token ---- */

  predicate TokenLess(a: Token, b: Token) {
    b != "" && (a == "" || a[0] < b[0] || (a[0] == b[0] && TokenLess(a[1..], b[1..])))
  }

  predicate RowLess(a: Row, b: Row) {
    |a.places| < |b.places| || (|a.places| == |b.places| && TokenLess(a.token, b.token))
  }

  lemma {:induction false} TokenLessTotal(a: Token, b: Token)
    ensures TokenLess(a, b) || TokenLess(b, a) || a == b
    ensures !(TokenLess(a, b) && TokenLess(b, a)) && !TokenLess(a, a)
    decreases |a|
  {
    if a != "" {
      if b != "" && a[0] == b[0] {
        TokenLessTotal(a[1..], b[1..]);
        assert a == [a[0]] + a[1..] && b == [b[0]] + b[1..];
      }
      TokenLessTotal(a[1..], a[1..]);
    }
  }

  lemma {:induction false} TokenLessTransitive(a: Token, b: Token, c: Token)
    requires TokenLess(a, b) && TokenLess(b, c)
    ensures TokenLess(a, c)
    decreases |a|
  {
    if a != "" && a[0] == b[0] == c[0] { TokenLessTransitive(a[1..], b[1..], c[1..]); }
  }

  predicate Sorted(rows: seq<Row>) { forall i, j :: 0 <= i < j < |rows| ==> RowLess(rows[i], rows[j]) }

  function InsertRow(rows: seq<Row>, r: Row): seq<Row> {
    if rows == [] then [r]
    else if RowLess(r, rows[0]) then [r] + rows
    else [rows[0]] + InsertRow(rows[1..], r)
  }

  lemma {:induction false} InsertKeepsSorted(rows: seq<Row>, r: Row)
    requires Sorted(rows) && forall k :: 0 <= k < |rows| ==> rows[k].token != r.token
    ensures Sorted(InsertRow(rows, r))
    ensures forall x :: x in InsertRow(rows, r) <==> x in rows || x == r
    decreases |rows|
  {
    if rows != [] {
      TokenLessTotal(r.token, rows[0].token);
      if RowLess(r, rows[0]) {
        forall k | 0 <= k < |rows| ensures RowLess(r, rows[k]) {
          if k > 0 && |r.places| == |rows[0].places| == |rows[k].places| {
            TokenLessTransitive(r.token, rows[0].token, rows[k].token);
          }
        }
      } else {
        InsertKeepsSorted(rows[1..], r);
        var rest := InsertRow(rows[1..], r);
        forall k | 0 <= k < |rest| ensures RowLess(rows[0], rest[k]) {
          assert rest[k] in rest;
          if rest[k] != r { assert rest[k] in rows[1..]; }
        }
      }
    }
  }

  /** The rows of a query, in planning order. */
  ghost predicate RowsOf(ps: map<Token, seq<nat>>, query: set<Token>, rows: seq<Row>) {
    && Sorted(rows)
    && forall r :: r in rows <==> r.token in query && r.places == Posting(ps, r.token) && r.places != []
  }

  /* ---- The plan ---- */

  datatype Tuning = Tuning(isDigit: char -> bool, retrieved: nat)

  predicate IdentifierLike(tune: Tuning, t: Token) {
    exists k :: 0 <= k < |t| && (tune.isDigit(t[k]) || t[k] in {'_', '/', '.', ':', '#', '@'})
  }

  /** The largest root whose square is at most `n`. */
  function Root(n: nat): (r: nat)
    ensures r * r <= n < (r + 1) * (r + 1)
  {
    if n == 0 then 0
    else
      var r := Root(n - 1);
      if (r + 1) * (r + 1) <= n then r + 1 else r
  }

  /** `int(sqrt(size) * 16)`, between 256 and 4096. */
  function CandidateBudget(size: nat): nat {
    Max(256, Min(4096, Root(256 * Max(1, size))))
  }

  function SelectiveLimit(size: nat): nat { Max(CandidateBudget(size), Max(64, size / 50)) }

  /** Up to how many places a token is selective in a history of `size` messages: 256 in a short one, 16 times the
    * square root of the size in a longer one up to 4096, and a fiftieth of a very long one. */
  lemma SelectiveLimitIs(size: nat)
    ensures size <= 256 ==> SelectiveLimit(size) == 256
    ensures 256 <= size <= 65536 ==> SelectiveLimit(size) * SelectiveLimit(size) <= 256 * size < (SelectiveLimit(size) + 1) * (SelectiveLimit(size) + 1)
    ensures 65536 <= size <= 204800 ==> SelectiveLimit(size) == 4096
    ensures size >= 204800 ==> SelectiveLimit(size) == size / 50
  {
    var n := 256 * Max(1, size);
    var root := Root(n);
    if size <= 256 {
      RootIsMonotone(256, n);
    } else if size <= 65536 {
      RootIsMonotone(256, n);
      RootIsMonotone(4096, n);
      FiftiethIsLess(size, root);
    } else {
      RootIsMonotone(4096, n);
    }
  }

  lemma FiftiethIsLess(size: nat, root: nat)
    requires 256 <= size <= 65536 && 256 * size < (root + 1) * (root + 1)
    ensures size / 50 <= root
  {
    var q := size / 50;
    if root + 1 <= q {
      ProductGrows(root + 1, root + 1, q);
      ProductGrows(root + 1, q, q);
      ProductGrows(q, q, 1310);
    }
  }

  lemma ProductGrows(a: nat, b: nat, c: nat)
    requires b <= c
    ensures a * b <= c * a
  {
    assert c * a == b * a + (c - b) * a;
  }

  lemma RootIsMonotone(root: nat, n: nat)
    ensures root * root <= n ==> root <= Root(n)
    ensures n <= root * root ==> Root(n) <= root
  {
    var r := Root(n);
    if root > r {
      ProductGrows(r + 1, r + 1, root);
      ProductGrows(root, r + 1, root);
    }
    if r > root {
      ProductGrows(root + 1, root + 1, r);
      ProductGrows(r, root + 1, r);
    }
  }

  function MinimumEvidence(tune: Tuning): nat { Max(32, tune.retrieved * 8) }

  function Filter(rows: seq<Row>, keep: Row -> bool): seq<Row> {
    if rows == [] then []
    else (if keep(rows[0]) then [rows[0]] else []) + Filter(rows[1..], keep)
  }

  function PlaceSet(places: seq<nat>): (s: set<nat>)
    ensures forall i :: i in s <==> i in places
  {
    set i | i in places
  }

  function Union(rows: seq<Row>): set<nat> {
    if rows == [] then {} else Union(rows[..|rows| - 1]) + PlaceSet(rows[|rows| - 1].places)
  }

  /** The shortest non-empty prefix whose union has `enough` places, or everything. */
  function Enough(rows: seq<Row>, n: nat, enough: nat): seq<Row>
    requires n <= |rows|
    decreases |rows| - n
  {
    if n == |rows| then rows
    else if n > 0 && |Union(rows[..n])| >= enough then rows[..n]
    else Enough(rows, n + 1, enough)
  }

  function RareRows(rows: seq<Row>, limit: nat): seq<Row> {
    Filter(rows, (r: Row) => |r.places| <= limit)
  }

  function IdentifierRows(tune: Tuning, rows: seq<Row>, limit: nat): seq<Row> {
    Filter(rows, (r: Row) => IdentifierLike(tune, r.token) && |r.places| <= limit)
  }

  /** The rows whose postings the planner unites. */
  function Plan(tune: Tuning, rows: seq<Row>, size: nat): seq<Row> {
    var limit := SelectiveLimit(size);
    if IdentifierRows(tune, rows, limit) != [] then Take(IdentifierRows(tune, rows, limit), 8)
    else if RareRows(rows, limit) != [] then Enough(Take(RareRows(rows, limit), 8), 0, MinimumEvidence(tune))
    else rows
  }

  method UniteAll(rows: seq<Row>) returns (candidates: set<nat>)
    ensures candidates == Union(rows)
  {
    candidates := {};
    for n := 0 to |rows|
      invariant candidates == Union(rows[..n])
    {
      candidates := candidates + PlaceSet(rows[n].places);
      assert rows[..n + 1][..n] == rows[..n];
    }
    assert rows[..|rows|] == rows;
  }

  /** Unite postings in order until there is enough evidence. */
  method UniteEnough(few: seq<Row>, enough: nat) returns (candidates: set<nat>)
    ensures candidates == Union(Enough(few, 0, enough))
  {
    candidates := {};
    for n := 0 to |few|
      invariant candidates == Union(few[..n])
      invariant Enough(few, 0, enough) == Enough(few, n, enough)
    {
      if n > 0 && |candidates| >= enough {
        return;
      }
      candidates := candidates + PlaceSet(few[n].places);
      assert few[..n + 1][..n] == few[..n];
    }
    assert few[..|few|] == few;
  }

  method SortRows(ps: map<Token, seq<nat>>, query: set<Token>) returns (rows: seq<Row>)
    ensures RowsOf(ps, query, rows)
  {
    rows := [];
    var rest := query;
    while rest != {}
      invariant rest <= query && RowsOf(ps, query - rest, rows)
      decreases rest
    {
      var t :| t in rest;
      if Posting(ps, t) != [] {
        assert forall k :: 0 <= k < |rows| ==> rows[k] in rows;
        InsertKeepsSorted(rows, Row(t, Posting(ps, t)));
        rows := InsertRow(rows, Row(t, Posting(ps, t)));
      }
      rest := rest - {t};
    }
    assert query - {} == query;
  }

  method PlannedCandidates(tune: Tuning, ps: map<Token, seq<nat>>, query: set<Token>, size: nat) returns (candidates: set<nat>)
    ensures exists rows :: RowsOf(ps, query, rows) && candidates == Union(Plan(tune, rows, size))
  {
    hide RowsOf, SelectiveLimit;
    var rows := SortRows(ps, query);
    var limit := SelectiveLimit(size);
    var identifiers := IdentifierRows(tune, rows, limit);
    if identifiers != [] {
      candidates := UniteAll(Take(identifiers, 8));
      return;
    }
    var rare := RareRows(rows, limit);
    if rare != [] {
      candidates := UniteEnough(Take(rare, 8), MinimumEvidence(tune));
      return;
    }
    candidates := UniteAll(rows);
  }

  /** `_candidate_indices` of the planner, over the same cached index. */
  method RankedCandidates(index: FastIndex, tune: Tuning, h: seq<Message>, query: set<Token>) returns (candidates: set<nat>, hit: bool)
    requires index.Valid() && index.Continues(h)
    modifies index.cache
    ensures index.Valid() && IsPlanned(index.tokens, tune, h, query, candidates)
    ensures candidates <= Scan(index.tokens, h, query)
    ensures candidates == {} <==> Scan(index.tokens, h, query) == {}
    ensures exists all :: Answers(index.tokens, h, query, all) && candidates <= all && (candidates == {} ==> all == {})
    ensures forall k :: k in index.cache.built ==>
              (k in old(index.cache.built) && index.cache.built[k] == old(index.cache.built)[k]) || index.cache.built[k] == h
  {
    hide Answers;
    ScanAnswers(index.tokens, h, query);
    index.cache.CoherentEffective(h);
    if query == {} {
      return {}, false;
    }
    if CacheKey(h) == "" {
      candidates, hit := index.CandidateIndices(h, query);
      return;
    }
    var ps;
    ps, hit := index.Refresh(h);
    candidates := PlannedCandidates(tune, ps, query, |h|);
    ghost var rows :| RowsOf(ps, query, rows) && candidates == Union(Plan(tune, rows, |h|));
    PlanIsSafe(tune, rows, |h|);
    UnionIsScan(index.tokens, h, ps, query, rows);
    assert PlannedFrom(index.tokens, tune, h, query, ps, rows, candidates);
  }

  /** The candidates are the plan's over the index of this history. */
  ghost predicate PlannedFrom(tokens: string -> set<Token>, tune: Tuning, h: seq<Message>, query: set<Token>,
                              ps: map<Token, seq<nat>>, rows: seq<Row>, candidates: set<nat>)
  {
    IsIndex(tokens, h, ps) && RowsOf(ps, query, rows) && candidates == Union(Plan(tune, rows, |h|))
  }

  /** What the planner answers, in terms of the history alone. */
  ghost predicate IsPlanned(tokens: string -> set<Token>, tune: Tuning, h: seq<Message>, query: set<Token>, candidates: set<nat>) {
    if query == {} then candidates == {}
    else if CacheKey(h) == "" then candidates == Scan(tokens, h, query)
    else exists ps, rows :: PlannedFrom(tokens, tune, h, query, ps, rows, candidates)
  }

  /** Planning is a function of the history and the query, whatever was cached before. */
  lemma PlannedIsUnique(tokens: string -> set<Token>, tune: Tuning, h: seq<Message>, query: set<Token>, a: set<nat>, b: set<nat>)
    requires IsPlanned(tokens, tune, h, query, a) && IsPlanned(tokens, tune, h, query, b)
    ensures a == b
  {
    hide Scan, IsIndex, Plan, Union;
    if query != {} && CacheKey(h) != "" {
      var ps, rows :| PlannedFrom(tokens, tune, h, query, ps, rows, a);
      var ps', rows' :| PlannedFrom(tokens, tune, h, query, ps', rows', b);
      IndexIsUnique(tokens, h, ps, ps');
      RowsAreUnique(rows, rows');
    }
  }

  /* ---- What a plan keeps ---- */

  /** There is one sequence of rows for a query, so the plan is a function of the index. */
  lemma {:induction false} RowsAreUnique(a: seq<Row>, b: seq<Row>)
    requires Sorted(a) && Sorted(b) && forall r :: r in a <==> r in b
    ensures a == b
    decreases |a|
  {
    assert a != [] ==> a[0] in b;
    assert b != [] ==> b[0] in a;
    if a != [] {
      var i :| 0 <= i < |a| && a[i] == b[0];
      var j :| 0 <= j < |b| && b[j] == a[0];
      TokenLessTotal(a[0].token, b[0].token);
      assert a[0] == b[0];
      forall k | 0 < k < |a| ensures a[k] != a[0] { TokenLessTotal(a[0].token, a[k].token); }
      forall k | 0 < k < |b| ensures b[k] != b[0] { TokenLessTotal(b[0].token, b[k].token); }
      forall r ensures r in a[1..] <==> r in b[1..] {
        assert r in a[1..] <==> r in a && r != a[0];
        assert r in b[1..] <==> r in b && r != b[0];
      }
      RowsAreUnique(a[1..], b[1..]);
    }
  }

  lemma {:induction false} InUnion(rows: seq<Row>, i: nat)
    ensures i in Union(rows) <==> exists r :: r in rows && i in r.places
    decreases |rows|
  {
    if rows != [] {
      var init, last := rows[..|rows| - 1], rows[|rows| - 1];
      InUnion(init, i);
      assert rows == init + [last];
      if i in Union(rows) {
        if i in Union(init) {
          var r :| r in init && i in r.places;
          assert r in rows;
        } else {
          assert last in rows;
        }
      }
    }
  }

  /** The union of all rows is the full scan. */
  lemma UnionIsScan(tokens: string -> set<Token>, h: seq<Message>, ps: map<Token, seq<nat>>, query: set<Token>, rows: seq<Row>)
    requires IsIndex(tokens, h, ps) && RowsOf(ps, query, rows)
    ensures Union(rows) == Scan(tokens, h, query)
  {
    forall i: nat ensures i in Union(rows) <==> i in Scan(tokens, h, query) {
      InUnion(rows, i);
      PostingOfUnion(tokens, h, ps, query, i);
      if t :| t in query && i in Posting(ps, t) { assert Row(t, Posting(ps, t)) in rows; }
    }
  }

  lemma {:induction false} FilterKeeps(rows: seq<Row>, keep: Row -> bool)
    ensures forall r :: r in Filter(rows, keep) <==> r in rows && keep(r)
    decreases |rows|
  {
    if rows != [] {
      FilterKeeps(rows[1..], keep);
      assert rows == [rows[0]] + rows[1..];
    }
  }

  lemma {:induction false} EnoughIsPrefix(rows: seq<Row>, n: nat, enough: nat)
    requires n <= |rows|
    ensures Enough(rows, n, enough) <= rows && (rows != [] ==> Enough(rows, n, enough) != [])
    decreases |rows| - n
  {
    if n < |rows| && !(n > 0 && |Union(rows[..n])| >= enough) { EnoughIsPrefix(rows, n + 1, enough); }
  }

  lemma {:induction false} UnionOfNonEmpty(rows: seq<Row>, r: Row)
    requires r in rows && r.places != []
    ensures Union(rows) != {}
  {
    assert r.places[0] in r.places;
    InUnion(rows, r.places[0]);
  }

  /** A row is selective when its token is rare enough for the size of the history. */
  predicate Selective(r: Row, size: nat) { |r.places| <= SelectiveLimit(size) }

  /** The planned rows are some of the rows, whole; all of them when none is selective; at most eight,
    * each selective, when one is. */
  lemma PlanIsRows(tune: Tuning, rows: seq<Row>, size: nat)
    ensures var plan := Plan(tune, rows, size);
            && (forall r :: r in plan ==> r in rows)
            && (rows != [] ==> plan != [])
            && (if exists r :: r in rows && Selective(r, size)
                then |plan| <= 8 && forall r :: r in plan ==> Selective(r, size)
                else plan == rows)
  {
    var limit := SelectiveLimit(size);
    var identifiers, rare := IdentifierRows(tune, rows, limit), RareRows(rows, limit);
    FilterKeeps(rows, (r: Row) => IdentifierLike(tune, r.token) && |r.places| <= limit);
    FilterKeeps(rows, (r: Row) => |r.places| <= limit);
    assert forall r :: r in rare <==> r in rows && Selective(r, size);
    assert identifiers != [] ==> identifiers[0] in identifiers;
    assert rare != [] ==> rare[0] in rare;
    if identifiers == [] && rare != [] {
      var few := Take(rare, 8);
      EnoughIsPrefix(few, 0, MinimumEvidence(tune));
      forall r | r in Plan(tune, rows, size) ensures r in rare { assert r in few; }
    }
  }

  /** Planning loses candidates only to a rarer token's: the result is part of the full union, and is
    * empty only when that is. */
  lemma PlanIsSafe(tune: Tuning, rows: seq<Row>, size: nat)
    requires forall r :: r in rows ==> r.places != []
    ensures Union(Plan(tune, rows, size)) <= Union(rows)
    ensures Union(Plan(tune, rows, size)) == {} <==> Union(rows) == {}
  {
    PlanIsRows(tune, rows, size);
    var plan := Plan(tune, rows, size);
    forall i: nat | i in Union(plan) ensures i in Union(rows) {
      InUnion(plan, i);
      InUnion(rows, i);
    }
    if rows != [] { UnionOfNonEmpty(plan, plan[0]); }
  }

  lemma {:induction false} PlacesSize(places: seq<nat>)
    ensures |PlaceSet(places)| <= |places|
    decreases |places|
  {
    if places == [] {
      assert PlaceSet(places) == {};
    } else {
      var init, last := places[..|places| - 1], places[|places| - 1];
      PlacesSize(init);
      assert PlaceSet(places) == PlaceSet(init) + {last};
    }
  }

  lemma {:induction false} UnionSize(rows: seq<Row>, limit: nat, most: nat)
    requires forall r :: r in rows ==> |r.places| <= limit
    requires |rows| <= most
    ensures |Union(rows)| <= most * limit
    decreases |rows|
  {
    if rows == [] {
      assert 0 <= most * limit;
    } else {
      var n := |rows| - 1;
      assert rows[n] in rows && forall r :: r in rows[..n] ==> r in rows;
      UnionSize(rows[..n], limit, most - 1);
      PlacesSize(rows[n].places);
      assert (most - 1) * limit + limit == most * limit;
    }
  }

  /** With a selective token the planner looks at no more than eight times the selective limit; without
    * one it looks at everything the full scan finds. */
  lemma PlanIsBoundedOrFull(tune: Tuning, rows: seq<Row>, size: nat)
    ensures if exists r :: r in rows && Selective(r, size)
            then |Union(Plan(tune, rows, size))| <= 8 * SelectiveLimit(size)
            else Union(Plan(tune, rows, size)) == Union(rows)
  {
    hide SelectiveLimit, Plan;
    PlanIsRows(tune, rows, size);
    if exists r :: r in rows && Selective(r, size) {
      UnionSize(Plan(tune, rows, size), SelectiveLimit(size), 8);
    }
  }

  /** An identifier: a token with a digit or a separator in it. */
  predicate Names(tune: Tuning, t: Token) { exists c :: c in t && (tune.isDigit(c) || c in "_/.:#@") }

  /** Where a selective row stands for an identifier, the plan is made of such rows alone, the first eight at most and
    * never fewer than there are. */
  lemma IdentifiersComeFirst(tune: Tuning, rows: seq<Row>, size: nat)
    requires exists r :: r in rows && Names(tune, r.token) && Selective(r, size)
    ensures var plan := Plan(tune, rows, size);
            && (forall r :: r in plan ==> r in rows && Names(tune, r.token) && Selective(r, size))
            && 1 <= |plan| <= 8 && (|plan| < 8 ==> forall r :: r in rows && Names(tune, r.token) && Selective(r, size) ==> r in plan)
  {
    hide SelectiveLimit, IdentifierLike, Names;
    var limit := SelectiveLimit(size);
    var keep := (r: Row) => IdentifierLike(tune, r.token) && |r.places| <= limit;
    var ids := Filter(rows, keep);
    FilterKeeps(rows, keep);
    assert ids == IdentifierRows(tune, rows, limit);
    forall r: Row ensures IdentifierLike(tune, r.token) <==> Names(tune, r.token) {
      NamesIff(tune, r.token);
    }
    var r :| r in rows && Names(tune, r.token) && Selective(r, size);
    assert r in ids;
    var plan := Plan(tune, rows, size);
    assert plan == Take(ids, 8);
    assert forall k :: 0 <= k < |plan| ==> plan[k] == ids[k] && ids[k] in ids;
  }

  lemma {:induction false} EnoughIs(rows: seq<Row>, n: nat, enough: nat)
    requires n <= |rows| && (n > 1 ==> |Union(rows[..n - 1])| < enough)
    ensures var few := Enough(rows, n, enough);
            && n <= |few| && few <= rows && (|few| < |rows| ==> |few| > 0 && |Union(few)| >= enough)
            && (|few| > 1 ==> |Union(few[..|few| - 1])| < enough)
    decreases |rows| - n
  {
    hide Union;
    if n < |rows| && !(n > 0 && |Union(rows[..n])| >= enough) {
      assert n > 0 ==> rows[..n + 1 - 1] == rows[..n];
      EnoughIs(rows, n + 1, enough);
    }
    var few := Enough(rows, n, enough);
    if few == rows[..n] && n > 1 {
      assert few[..|few| - 1] == rows[..n - 1];
    }
  }

  /** Without an identifier, selective rows are united in order, at most eight, until there are 32 places, or eight for
    * each message that may be retrieved, and no longer. */
  lemma RareRowsUntilEnough(tune: Tuning, rows: seq<Row>, size: nat)
    requires exists r :: r in rows && Selective(r, size)
    requires forall r :: r in rows && Selective(r, size) ==> !Names(tune, r.token)
    ensures var plan, enough := Plan(tune, rows, size), Max(32, 8 * tune.retrieved);
            && 1 <= |plan| <= 8 && (forall r :: r in plan ==> r in rows && Selective(r, size))
            && (|plan| < 8 && (exists r :: r in rows && Selective(r, size) && r !in plan) ==> |Union(plan)| >= enough)
            && (|plan| > 1 ==> |Union(plan[..|plan| - 1])| < enough)
            && (Sorted(rows) ==> forall taken, skipped ::
                  taken in plan && skipped in rows && Selective(skipped, size) && skipped !in plan ==> RowLess(taken, skipped))
  {
    hide SelectiveLimit, Union;
    var limit := SelectiveLimit(size);
    var keep := (r: Row) => |r.places| <= limit;
    FilterKeeps(rows, (r: Row) => IdentifierLike(tune, r.token) && |r.places| <= limit);
    FilterKeeps(rows, keep);
    var rare := Filter(rows, keep);
    assert rare == RareRows(rows, limit);
    forall r: Row ensures IdentifierLike(tune, r.token) <==> Names(tune, r.token) {
      NamesIff(tune, r.token);
    }
    NoneKept(rows, (r: Row) => IdentifierLike(tune, r.token) && |r.places| <= limit);
    var r :| r in rows && Selective(r, size);
    assert r in rare;
    EnoughIs(Take(rare, 8), 0, MinimumEvidence(tune));
    EnoughIsPrefix(Take(rare, 8), 0, MinimumEvidence(tune));
    var plan := Plan(tune, rows, size);
    assert plan == Enough(Take(rare, 8), 0, MinimumEvidence(tune));
    PrefixComesFirst(rows, keep, rare, plan);
  }

  lemma {:induction false} NoneKept(rows: seq<Row>, keep: Row -> bool)
    requires forall r :: r in rows ==> !keep(r)
    ensures Filter(rows, keep) == []
  {
    if rows != [] {
      NoneKept(rows[1..], keep);
    }
  }

  lemma InPrefix(plan: seq<Row>, rare: seq<Row>, j: nat)
    requires plan <= rare && j < |rare|
    ensures j < |plan| ==> rare[j] in plan
  {
    if j < |plan| {
      assert plan[j] == rare[j];
    }
  }

  lemma PrefixComesFirst(rows: seq<Row>, keep: Row -> bool, rare: seq<Row>, plan: seq<Row>)
    requires rare == Filter(rows, keep) && plan <= rare
    ensures forall r :: r in plan ==> r in rare
    ensures Sorted(rows) ==> forall taken, skipped :: taken in plan && skipped in rare && skipped !in plan ==> RowLess(taken, skipped)
  {
    if Sorted(rows) {
      FilterKeepsSorted(rows, keep);
      forall taken, skipped | taken in plan && skipped in rare && skipped !in plan ensures RowLess(taken, skipped) {
        var i :| 0 <= i < |plan| && plan[i] == taken;
        var j :| 0 <= j < |rare| && rare[j] == skipped;
        InPrefix(plan, rare, j);
        assert plan[i] == rare[i];
      }
    }
  }

  lemma NamesIff(tune: Tuning, t: Token)
    ensures IdentifierLike(tune, t) <==> Names(tune, t)
  {
    forall c: char ensures c in "_/.:#@" <==> c in {'_', '/', '.', ':', '#', '@'} {
      Separator(c);
    }
    if Names(tune, t) {
      var c :| c in t && (tune.isDigit(c) || c in "_/.:#@");
      var k :| 0 <= k < |t| && t[k] == c;
    }
    if IdentifierLike(tune, t) {
      var k :| 0 <= k < |t| && (tune.isDigit(t[k]) || t[k] in {'_', '/', '.', ':', '#', '@'});
      assert t[k] in t;
    }
  }

  lemma Separator(c: char)
    ensures c in "_/.:#@" <==> c in {'_', '/', '.', ':', '#', '@'}
  {
    var s := "_/.:#@";
    assert s[0] == '_' && s[1] == '/' && s[2] == '.' && s[3] == ':' && s[4] == '#' && s[5] == '@';
  }

  /** Rows that the planner may skip come later in the order than all it takes of their kind: the
    * identifiers it unites are the eight least frequent. */
  lemma IdentifiersTakenAreRarest(tune: Tuning, rows: seq<Row>, size: nat, taken: Row, skipped: Row)
    requires Sorted(rows)
    requires var ids := IdentifierRows(tune, rows, SelectiveLimit(size)); ids != [] && skipped in ids
    requires taken in Plan(tune, rows, size) && skipped !in Plan(tune, rows, size)
    ensures RowLess(taken, skipped)
  {
    var keep := (r: Row) => IdentifierLike(tune, r.token) && |r.places| <= SelectiveLimit(size);
    var ids := Filter(rows, keep);
    FilterKeepsSorted(rows, keep);
    assert ids == IdentifierRows(tune, rows, SelectiveLimit(size));
    var i :| 0 <= i < |Take(ids, 8)| && Take(ids, 8)[i] == taken;
    var j :| 0 <= j < |ids| && ids[j] == skipped;
    assert forall k :: 0 <= k < |Take(ids, 8)| ==> Take(ids, 8)[k] in Plan(tune, rows, size) && Take(ids, 8)[k] == ids[k];
  }

  lemma {:induction false} FilterKeepsSorted(rows: seq<Row>, keep: Row -> bool)
    requires Sorted(rows)
    ensures Sorted(Filter(rows, keep))
    decreases |rows|
  {
    if rows != [] {
      FilterKeepsSorted(rows[1..], keep);
      FilterKeeps(rows[1..], keep);
      var rest := Filter(rows[1..], keep);
      forall k | 0 <= k < |rest| ensures RowLess(rows[0], rest[k]) {
        assert rest[k] in rest;
        var i :| 0 <= i < |rows[1..]| && rows[1..][i] == rest[k];
        assert rows[i + 1] == rest[k];
      }
    }
  }
}

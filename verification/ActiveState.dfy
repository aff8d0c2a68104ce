/** The active view of a task state: per exact slot only the latest row, no facts under a condition, and
  * no question that a confirmed fact answers. */
module ActiveState {
  import opened Basics
  import opened PrefixCache
  import opened TaskState

  /** What the text analysis contributes: a slot signature, which may be empty, the normalised text, and
    * whether a confirmation is only conditional. */
  datatype Slots = Slots(slot: string -> string, normal: string -> string, conditional: string -> bool)

  function Key(z: Slots, r: Row): string {
    if z.slot(r.text) != "" then z.slot(r.text) else "raw:" + z.normal(r.text)
  }

  function Keys(z: Slots, rows: seq<Row>): set<string> { set r | r in rows :: Key(z, r) }

  /** The rows that no later row of the same slot replaces, in their order. */
  function LastOnes(z: Slots, rows: seq<Row>): seq<Row> {
    if rows == [] then []
    else (if Key(z, rows[0]) in Keys(z, rows[1..]) then [] else [rows[0]]) + LastOnes(z, rows[1..])
  }

  /** The rows whose slot is not among `ks`. */
  function Unless(z: Slots, rows: seq<Row>, ks: set<string>): seq<Row> {
    if rows == [] then []
    else (if Key(z, rows[0]) in ks then [] else [rows[0]]) + Unless(z, rows[1..], ks)
  }

  predicate IsLast(z: Slots, rows: seq<Row>, i: nat)
    requires i < |rows|
  {
    forall j :: i < j < |rows| ==> Key(z, rows[j]) != Key(z, rows[i])
  }

  /* ---- What `LastOnes` is ---- */

  /** `places` lists, in increasing order, exactly the places without a later row of the same slot. */
  ghost predicate LastPlaces(z: Slots, rows: seq<Row>, places: seq<nat>) {
    && (forall i, j :: 0 <= i < j < |places| ==> places[i] < places[j])
    && (forall j :: 0 <= j < |places| ==> places[j] < |rows|)
    && (forall i :: 0 <= i < |rows| ==> (i in places <==> IsLast(z, rows, i)))
  }

  /** Exactly those rows are kept, in that order. */
  lemma {:induction false} LastOnesAreTheLast(z: Slots, rows: seq<Row>) returns (places: seq<nat>)
    ensures LastPlaces(z, rows, places) && |places| == |LastOnes(z, rows)|
    ensures forall j :: 0 <= j < |places| ==> LastOnes(z, rows)[j] == rows[places[j]]
    decreases |rows|
  {
    if rows == [] {
      places := [];
    } else {
      hide IsLast, Keys, Key, LastPlaces;
      var rest := LastOnesAreTheLast(z, rows[1..]);
      var shifted := seq(|rest|, j requires 0 <= j < |rest| => rest[j] + 1);
      places := if Key(z, rows[0]) in Keys(z, rows[1..]) then shifted else [0] + shifted;
      ShiftedPlaces(z, rows, rest, shifted, places);
      assert LastOnes(z, rows) == (if Key(z, rows[0]) in Keys(z, rows[1..]) then [] else [rows[0]]) + LastOnes(z, rows[1..]);
    }
  }

  lemma ShiftedPlaces(z: Slots, rows: seq<Row>, rest: seq<nat>, shifted: seq<nat>, places: seq<nat>)
    requires rows != [] && LastPlaces(z, rows[1..], rest)
    requires |shifted| == |rest| && forall j :: 0 <= j < |rest| ==> shifted[j] == rest[j] + 1
    requires places == if Key(z, rows[0]) in Keys(z, rows[1..]) then shifted else [0] + shifted
    ensures LastPlaces(z, rows, places)
  {
    hide IsLast, Keys, Key;
    forall i | 0 <= i < |rows| ensures i in places <==> IsLast(z, rows, i) {
      PlaceByPlace(z, rows, i);
      if i > 0 && i - 1 in rest {
        var j :| 0 <= j < |rest| && rest[j] == i - 1;
        assert shifted[j] == i;
      }
    }
  }

  lemma PlaceByPlace(z: Slots, rows: seq<Row>, i: nat)
    requires i < |rows|
    ensures IsLast(z, rows, i) <==> if i == 0 then Key(z, rows[0]) !in Keys(z, rows[1..]) else IsLast(z, rows[1..], i - 1)
  {
    if i == 0 {
      assert forall j :: 0 < j < |rows| ==> rows[j] == rows[1..][j - 1] && rows[j] in rows[1..];
      assert forall r :: r in rows[1..] ==> exists j :: 0 < j < |rows| && rows[j] == r;
    } else {
      assert forall j :: 0 < j < |rows| ==> rows[j] == rows[1..][j - 1];
    }
  }

  lemma KeysInTwo(z: Slots, xs: seq<Row>, ys: seq<Row>)
    ensures Keys(z, xs + ys) == Keys(z, xs) + Keys(z, ys)
  {
    assert forall r :: r in xs + ys <==> r in xs || r in ys;
  }

  lemma KeysOfOne(z: Slots, r: Row)
    ensures Keys(z, [r]) == {Key(z, r)} && Keys(z, []) == {}
  {
    assert r in [r];
  }

  lemma {:induction false} LastOnesKeys(z: Slots, rows: seq<Row>)
    ensures Keys(z, LastOnes(z, rows)) == Keys(z, rows)
    ensures forall r :: r in LastOnes(z, rows) ==> r in rows
    decreases |rows|
  {
    hide Keys, Key;
    if rows != [] {
      LastOnesKeys(z, rows[1..]);
      KeysOfOne(z, rows[0]);
      KeysInTwo(z, [rows[0]], rows[1..]);
      KeysInTwo(z, [rows[0]], LastOnes(z, rows[1..]));
      assert rows == [rows[0]] + rows[1..];
      if Key(z, rows[0]) in Keys(z, rows[1..]) {
        assert {Key(z, rows[0])} + Keys(z, rows[1..]) == Keys(z, rows[1..]);
        assert LastOnes(z, rows) == LastOnes(z, rows[1..]);
      }
    }
  }

  lemma {:induction false} LastOnesInTwo(z: Slots, xs: seq<Row>, ys: seq<Row>)
    ensures LastOnes(z, xs + ys) == Unless(z, LastOnes(z, xs), Keys(z, ys)) + LastOnes(z, ys)
    decreases |xs|
  {
    hide Keys, Key;
    if xs == [] {
      assert xs + ys == ys;
    } else {
      LastOnesInTwo(z, xs[1..], ys);
      FirstOfTwo(z, xs, ys);
    }
  }

  lemma LastOnesOfCons(z: Slots, r: Row, rows: seq<Row>)
    ensures LastOnes(z, [r] + rows) == (if Key(z, r) in Keys(z, rows) then [] else [r]) + LastOnes(z, rows)
  {
    assert ([r] + rows)[1..] == rows;
  }

  lemma UnlessOfCons(z: Slots, r: Row, rows: seq<Row>, ks: set<string>)
    ensures Unless(z, [r] + rows, ks) == (if Key(z, r) in ks then [] else [r]) + Unless(z, rows, ks)
  {
    assert ([r] + rows)[1..] == rows;
  }

  lemma FirstOfTwo(z: Slots, xs: seq<Row>, ys: seq<Row>)
    requires xs != []
    ensures (xs + ys)[0] == xs[0] && (xs + ys)[1..] == xs[1..] + ys
    ensures Keys(z, xs[1..] + ys) == Keys(z, xs[1..]) + Keys(z, ys)
    ensures Unless(z, LastOnes(z, xs), Keys(z, ys))
         == (if Key(z, xs[0]) in Keys(z, xs[1..]) + Keys(z, ys) then [] else [xs[0]]) + Unless(z, LastOnes(z, xs[1..]), Keys(z, ys))
  {
    hide Keys, Key;
    assert (xs + ys)[1..] == xs[1..] + ys;
    KeysInTwo(z, xs[1..], ys);
    if Key(z, xs[0]) in Keys(z, xs[1..]) {
      assert LastOnes(z, xs) == LastOnes(z, xs[1..]);
    } else {
      UnlessOfCons(z, xs[0], LastOnes(z, xs[1..]), Keys(z, ys));
    }
  }

  lemma {:induction false} LastOnesTwice(z: Slots, rows: seq<Row>)
    ensures LastOnes(z, LastOnes(z, rows)) == LastOnes(z, rows)
    decreases |rows|
  {
    hide Keys, Key;
    if rows != [] {
      LastOnesTwice(z, rows[1..]);
      LastOnesKeys(z, rows[1..]);
      var rest := LastOnes(z, rows[1..]);
      if Key(z, rows[0]) in Keys(z, rows[1..]) {
        assert LastOnes(z, rows) == rest;
      } else {
        LastOnesOfCons(z, rows[0], rest);
      }
    }
  }

  /** Older rows may be reduced first: only what they leave matters. */
  lemma LatestOfLatest(z: Slots, xs: seq<Row>, ys: seq<Row>)
    ensures LastOnes(z, xs + ys) == LastOnes(z, LastOnes(z, xs) + ys)
  {
    LastOnesInTwo(z, xs, ys);
    LastOnesInTwo(z, LastOnes(z, xs), ys);
    LastOnesTwice(z, xs);
  }

  /* ---- `_latest_by_exact_slot` ---- */

  /** A dictionary, as its items in insertion order. */
  function Values(items: seq<(string, Row)>): (rows: seq<Row>)
    ensures |rows| == |items| && forall i :: 0 <= i < |items| ==> rows[i] == items[i].1
  {
    seq(|items|, i requires 0 <= i < |items| => items[i].1)
  }

  function Pop(items: seq<(string, Row)>, k: string): seq<(string, Row)> {
    if items == [] then []
    else if items[0].0 == k then Pop(items[1..], k)
    else [items[0]] + Pop(items[1..], k)
  }

  lemma {:induction false} PopIsUnless(z: Slots, items: seq<(string, Row)>, k: string)
    requires forall i :: 0 <= i < |items| ==> items[i].0 == Key(z, items[i].1)
    ensures forall i :: 0 <= i < |Pop(items, k)| ==> Pop(items, k)[i].0 == Key(z, Pop(items, k)[i].1)
    ensures Values(Pop(items, k)) == Unless(z, Values(items), {k})
    decreases |items|
  {
    if items != [] {
      PopIsUnless(z, items[1..], k);
      assert Values(items)[1..] == Values(items[1..]);
      assert Values([items[0]] + Pop(items[1..], k)) == [items[0].1] + Values(Pop(items[1..], k));
    }
  }

  /** Each row takes the place of the earlier row of its slot and goes to the end. */
  method LatestByExactSlot(z: Slots, rows: seq<Row>) returns (latest: seq<Row>)
    ensures latest == LastOnes(z, rows)
  {
    var active: seq<(string, Row)> := [];
    for n := 0 to |rows|
      invariant forall i :: 0 <= i < |active| ==> active[i].0 == Key(z, active[i].1)
      invariant Values(active) == LastOnes(z, rows[..n])
    {
      hide Key, Keys;
      var row := rows[n];
      PopIsUnless(z, active, Key(z, row));
      var others := Pop(active, Key(z, row));
      active := others + [(Key(z, row), row)];
      LastOnesInTwo(z, rows[..n], [row]);
      LastOfOne(z, row);
      KeysOfOne(z, row);
      assert rows[..n + 1] == rows[..n] + [row];
      assert Values(active) == Values(others) + [row];
    }
    assert rows[..|rows|] == rows;
    return Values(active);
  }

  lemma LastOfOne(z: Slots, r: Row)
    ensures LastOnes(z, [r]) == [r]
  {
    assert [r][1..] == [];
  }

  /* ---- The active task state ---- */

  function Unconditional(z: Slots, rows: seq<Row>): seq<Row> {
    if rows == [] then []
    else (if z.conditional(rows[0].text) then [] else [rows[0]]) + Unconditional(z, rows[1..])
  }

  function SlotsOf(z: Slots, rows: seq<Row>): set<string> { (set r | r in rows :: z.slot(r.text)) - {""} }

  function Open(z: Slots, questions: seq<Row>, answered: set<string>): seq<Row> {
    if questions == [] then []
    else (if z.slot(questions[0].text) in answered then [] else [questions[0]]) + Open(z, questions[1..], answered)
  }

  /** The view, as the source builds it field by field. */
  ghost predicate IsView(z: Slots, st: State, view: State)
    requires forall k: Kind :: k in st.rows
  {
    && (forall k: Kind :: k in view.rows)
    && view.goal == st.goal && view.rows[Versions] == st.rows[Versions]
    && view.rows[Constraints] == LastOnes(z, st.rows[Constraints])
    && view.rows[Decisions] == LastOnes(z, st.rows[Decisions])
    && view.rows[Verified] == LastOnes(z, Unconditional(z, st.rows[Verified]))
    && view.rows[Questions] == Open(z, LastOnes(z, st.rows[Questions]), SlotsOf(z, view.rows[Verified]))
  }

  method ActiveView(z: Slots, st: State) returns (view: State)
    requires forall k: Kind :: k in st.rows
    ensures IsView(z, st, view)
  {
    var constraints := LatestByExactSlot(z, st.rows[Constraints]);
    var decisions := LatestByExactSlot(z, st.rows[Decisions]);
    var verified: seq<Row> := [];
    for n := 0 to |st.rows[Verified]|
      invariant verified == Unconditional(z, st.rows[Verified][..n])
    {
      var row := st.rows[Verified][n];
      UnconditionalOfOneMore(z, st.rows[Verified][..n], row);
      assert st.rows[Verified][..n + 1] == st.rows[Verified][..n] + [row];
      if !z.conditional(row.text) {
        verified := verified + [row];
      }
    }
    assert st.rows[Verified][..|st.rows[Verified]|] == st.rows[Verified];
    verified := LatestByExactSlot(z, verified);
    var questions := LatestByExactSlot(z, st.rows[Questions]);
    var open := Open(z, questions, SlotsOf(z, verified));
    view := st.(rows := st.rows[Constraints := constraints][Decisions := decisions][Verified := verified][Questions := open]);
  }

  lemma {:induction false} UnconditionalOfOneMore(z: Slots, rows: seq<Row>, r: Row)
    ensures Unconditional(z, rows + [r]) == Unconditional(z, rows) + (if z.conditional(r.text) then [] else [r])
    decreases |rows|
  {
    if rows == [] {
      assert rows + [r] == [r] && [r][1..] == [];
    } else {
      UnconditionalOfOneMore(z, rows[1..], r);
      assert (rows + [r])[1..] == rows[1..] + [r];
    }
  }

  lemma {:induction false} UnconditionalIff(z: Slots, rows: seq<Row>, r: Row)
    ensures r in Unconditional(z, rows) <==> r in rows && !z.conditional(r.text)
    decreases |rows|
  {
    if rows != [] {
      UnconditionalIff(z, rows[1..], r);
      assert rows == [rows[0]] + rows[1..];
    }
  }

  /** Two texts are about the same thing: they have one slot, or neither has a slot and their normal forms agree. */
  predicate SameThing(z: Slots, a: string, b: string) {
    if z.slot(a) == "" then z.slot(b) == "" && z.normal(a) == z.normal(b) else z.slot(a) == z.slot(b)
  }

  lemma KeyIff(z: Slots, a: Row, b: Row)
    requires forall text :: z.slot(text) == "" || "scope:" <= z.slot(text)
    ensures Key(z, a) == Key(z, b) <==> SameThing(z, a.text, b.text)
  {
    var left, right := "raw:" + z.normal(a.text), "raw:" + z.normal(b.text);
    assert left[4..] == z.normal(a.text) && right[4..] == z.normal(b.text);
    assert left[0] == right[0] == 'r';
  }

  /** The row is said, without a condition if these do not count, and what follows does not say the same thing. */
  ghost predicate LastSaid(z: Slots, rows: seq<Row>, only: bool, row: Row) {
    exists i :: 0 <= i < |rows| && rows[i] == row && !(only && z.conditional(row.text))
      && forall j :: i < j < |rows| ==> SaysOther(z, row, rows[j], only)
  }

  predicate SaysOther(z: Slots, row: Row, later: Row, only: bool) {
    SameThing(z, row.text, later.text) ==> only && z.conditional(later.text)
  }

  function Counting(z: Slots, rows: seq<Row>, only: bool): seq<Row> { if only then Unconditional(z, rows) else rows }

  lemma {:induction false} CountingIff(z: Slots, rows: seq<Row>, only: bool, r: Row)
    ensures r in Counting(z, rows, only) <==> r in rows && !(only && z.conditional(r.text))
  {
    UnconditionalIff(z, rows, r);
  }

  lemma {:induction false} LastSaidIff(z: Slots, rows: seq<Row>, only: bool, row: Row)
    requires forall text :: z.slot(text) == "" || "scope:" <= z.slot(text)
    ensures row in LastOnes(z, Counting(z, rows, only)) <==> LastSaid(z, rows, only, row)
    decreases |rows|
  {
    hide SameThing, Key, SaysOther;
    if rows != [] {
      var rest := Counting(z, rows[1..], only);
      LastSaidIff(z, rows[1..], only, row);
      LastSaidOfCons(z, rows, only, row);
      KeyInRest(z, rows[0], rows[1..], only);
      if only && z.conditional(rows[0].text) {
        assert Counting(z, rows, only) == [] + rest == rest;
      } else {
        assert Counting(z, rows, only) == [rows[0]] + rest;
        LastOnesOfCons(z, rows[0], rest);
      }
    }
  }

  lemma KeyInRest(z: Slots, row: Row, rest: seq<Row>, only: bool)
    requires forall text :: z.slot(text) == "" || "scope:" <= z.slot(text)
    ensures Key(z, row) !in Keys(z, Counting(z, rest, only)) <==> forall j :: 0 <= j < |rest| ==> SaysOther(z, row, rest[j], only)
  {
    hide SameThing, Key, Counting;
    forall r ensures (r in Counting(z, rest, only) <==> r in rest && !(only && z.conditional(r.text)))
                     && (Key(z, row) == Key(z, r) <==> SameThing(z, row.text, r.text)) {
      CountingIff(z, rest, only, r);
      KeyIff(z, row, r);
    }
    if forall j :: 0 <= j < |rest| ==> SaysOther(z, row, rest[j], only) {
      forall r | r in Counting(z, rest, only) ensures Key(z, r) != Key(z, row) {
        var j :| 0 <= j < |rest| && rest[j] == r;
        assert SaysOther(z, row, rest[j], only);
      }
    }
  }

  lemma LastSaidOfCons(z: Slots, rows: seq<Row>, only: bool, row: Row)
    requires rows != []
    ensures LastSaid(z, rows, only, row) <==>
              || LastSaid(z, rows[1..], only, row)
              || (rows[0] == row && !(only && z.conditional(row.text))
                  && forall j :: 0 <= j < |rows[1..]| ==> SaysOther(z, row, rows[1..][j], only))
  {
    hide SaysOther;
    var rest := rows[1..];
    if LastSaid(z, rest, only, row) {
      var i :| 0 <= i < |rest| && rest[i] == row && forall j :: i < j < |rest| ==> SaysOther(z, row, rest[j], only);
      assert rows[i + 1] == row;
      forall j | i + 1 < j < |rows| ensures SaysOther(z, row, rows[j], only) {
        assert rows[j] == rest[j - 1];
      }
    }
    if LastSaid(z, rows, only, row) {
      var i :| 0 <= i < |rows| && rows[i] == row && forall j :: i < j < |rows| ==> SaysOther(z, row, rows[j], only);
      if i > 0 {
        assert rest[i - 1] == row && forall j :: i - 1 < j < |rest| ==> rest[j] == rows[j + 1];
      }
    }
  }

  /** What the view shows of the base state: of each thing that constraints or decisions, or confirmations without a
    * condition, are about, the last one that was said. */
  lemma ViewShowsIff(z: Slots, st: State, view: State, row: Row)
    requires (forall k: Kind :: k in st.rows) && IsView(z, st, view) && forall text :: z.slot(text) == "" || "scope:" <= z.slot(text)
    ensures row in view.rows[Constraints] <==> LastSaid(z, st.rows[Constraints], false, row)
    ensures row in view.rows[Decisions] <==> LastSaid(z, st.rows[Decisions], false, row)
    ensures row in view.rows[Verified] <==> LastSaid(z, st.rows[Verified], true, row)
  {
    hide LastSaid;
    LastSaidIff(z, st.rows[Constraints], false, row);
    LastSaidIff(z, st.rows[Decisions], false, row);
    LastSaidIff(z, st.rows[Verified], true, row);
  }

  lemma {:induction false} OpenIff(z: Slots, questions: seq<Row>, answered: set<string>, q: Row)
    ensures q in Open(z, questions, answered) <==> q in questions && z.slot(q.text) !in answered
    decreases |questions|
  {
    if questions != [] {
      OpenIff(z, questions[1..], answered, q);
      assert questions == [questions[0]] + questions[1..];
    }
  }

  /** A nonempty slot is filled in the view exactly when an unconditional confirmation filled it. */
  lemma ConfirmedIff(z: Slots, st: State, view: State, slot: string)
    requires (forall k: Kind :: k in st.rows) && IsView(z, st, view)
    requires slot == "" || "scope:" <= slot
    ensures slot in SlotsOf(z, view.rows[Verified])
            <==> (slot != "" && exists v :: v in st.rows[Verified] && !z.conditional(v.text) && z.slot(v.text) == slot)
  {
    var kept := Unconditional(z, st.rows[Verified]);
    hide Key, Keys, LastOnes, Unconditional, Open;
    LastOnesKeys(z, kept);
    forall r ensures r in kept <==> r in st.rows[Verified] && !z.conditional(r.text) { UnconditionalIff(z, st.rows[Verified], r); }
    if slot != "" && exists v :: v in kept && z.slot(v.text) == slot {
      var v :| v in kept && z.slot(v.text) == slot;
      SlotSurvives(z, kept, v);
    }
  }

  /** Reducing rows to the latest of each slot loses no slot. */
  lemma SlotSurvives(z: Slots, rows: seq<Row>, v: Row)
    requires v in rows && "scope:" <= z.slot(v.text)
    ensures exists w :: w in LastOnes(z, rows) && z.slot(w.text) == z.slot(v.text)
  {
    LastOnesKeys(z, rows);
    assert Key(z, v) in Keys(z, LastOnes(z, rows));
    var w :| w in LastOnes(z, rows) && Key(z, w) == z.slot(v.text);
    assert ("raw:" + z.normal(w.text))[0] == 'r' && z.slot(v.text)[0] == 's';
  }

  /** The latest question of its slot is closed exactly when a confirmation without a condition has the
    * same, nonempty slot; so no question that is still open shares a nonempty slot with a fact of the
    * view, and a conditional premise closes nothing. */
  lemma QuestionClosedIff(z: Slots, st: State, view: State, q: Row)
    requires (forall k: Kind :: k in st.rows) && IsView(z, st, view)
    requires q in LastOnes(z, st.rows[Questions])
    requires forall text :: z.slot(text) == "" || "scope:" <= z.slot(text)
    ensures q !in view.rows[Questions]
            <==> (z.slot(q.text) != ""
                  && exists v :: v in st.rows[Verified] && !z.conditional(v.text) && z.slot(v.text) == z.slot(q.text))
    ensures q in view.rows[Questions] && z.slot(q.text) != "" ==> forall v :: v in view.rows[Verified] ==> z.slot(v.text) != z.slot(q.text)
  {
    OpenIff(z, LastOnes(z, st.rows[Questions]), SlotsOf(z, view.rows[Verified]), q);
    ConfirmedIff(z, st, view, z.slot(q.text));
  }
}

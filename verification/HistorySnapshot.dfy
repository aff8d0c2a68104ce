/** The boundary of a conversation at the time a job was queued, and the history it stands for later. */
module HistorySnapshot {
  import opened Basics

  /** A stored message. The boundary covers the first three fields only. */
  datatype Row = Row(id: string, role: string, content: string, payload: string)

  const NUL := '\0'
  const RS := '\U{001e}'

  /** The bytes of one message that enter the digest. */
  function Line(r: Row): string { r.id + [NUL] + r.role + [NUL] + r.content }

  function Encode(rows: seq<Row>): string {
    if rows == [] then "" else Line(rows[0]) + [RS] + Encode(rows[1..])
  }

  /** The same message, as far as the boundary can tell. */
  predicate SameRow(a: Row, b: Row) { a.id == b.id && a.role == b.role && a.content == b.content }

  predicate Same(a: seq<Row>, b: seq<Row>) { |a| == |b| && forall i :: 0 <= i < |a| ==> SameRow(a[i], b[i]) }

  function LastId(rows: seq<Row>): string { if rows == [] then "" else rows[|rows| - 1].id }

  /* ---- Counting separators ---- */

  function Count(s: string, c: char): nat { if s == "" then 0 else (if s[0] == c then 1 else 0) + Count(s[1..], c) }

  lemma {:induction false} CountInTwo(x: string, y: string, c: char)
    ensures Count(x + y, c) == Count(x, c) + Count(y, c)
    decreases |x|
  {
    if x == "" {
      assert x + y == y;
    } else {
      CountInTwo(x[1..], y, c);
      assert (x + y)[1..] == x[1..] + y;
    }
  }

  lemma {:induction false} CountIff(s: string, c: char)
    ensures Count(s, c) == 0 <==> c !in s
    decreases |s|
  {
    if s != "" {
      CountIff(s[1..], c);
      assert s == [s[0]] + s[1..];
    }
  }

  lemma CountOfOne(c: char, d: char)
    ensures Count([c], d) == if c == d then 1 else 0
  {
    assert [c][1..] == "";
  }

  function InFields(r: Row, c: char): nat { Count(r.id, c) + Count(r.role, c) + Count(r.content, c) }

  lemma LineCounts(r: Row)
    ensures Count(Line(r), NUL) == 2 + InFields(r, NUL) && Count(Line(r), RS) == InFields(r, RS)
  {
    hide Count;
    CountOfOne(NUL, NUL);
    CountOfOne(NUL, RS);
    forall c ensures Count(Line(r), c) == InFields(r, c) + 2 * Count([NUL], c) {
      CountInTwo(r.id, [NUL], c);
      CountInTwo(r.id + [NUL], r.role, c);
      CountInTwo(r.id + [NUL] + r.role, [NUL], c);
      CountInTwo(r.id + [NUL] + r.role + [NUL], r.content, c);
    }
  }

  /* ---- Reading a line back ---- */

  lemma LineFromRight(r: Row)
    ensures Line(r) == r.id + [NUL] + (r.role + [NUL] + r.content)
  {
  }

  /** If the id is known, only the other two fields need to be free of the separator. */
  lemma LineDecodesAfterId(a: Row, b: Row)
    requires Line(a) == Line(b) && a.id == b.id && NUL !in b.role && NUL !in b.content
    ensures SameRow(a, b)
  {
    hide Count;
    LineCounts(a);
    LineCounts(b);
    CountIff(a.role, NUL);
    CountIff(a.content, NUL);
    CountIff(b.role, NUL);
    CountIff(b.content, NUL);
    LineFromRight(a);
    LineFromRight(b);
    var x, y := a.role + [NUL] + a.content, b.role + [NUL] + b.content;
    assert (a.id + [NUL] + x)[|a.id| + 1..] == x && (b.id + [NUL] + y)[|a.id| + 1..] == y;
    CutAtFirst(a.role, a.content, b.role, b.content, NUL);
  }

  /* ---- Reading a history back ---- */

  function FieldSeparators(rows: seq<Row>): nat { if rows == [] then 0 else InFields(rows[0], NUL) + FieldSeparators(rows[1..]) }

  lemma {:induction false} EncodeCounts(rows: seq<Row>)
    ensures Count(Encode(rows), NUL) == 2 * |rows| + FieldSeparators(rows)
    decreases |rows|
  {
    hide Count;
    if rows == [] {
      CountIff("", NUL);
    } else {
      EncodeCounts(rows[1..]);
      LineCounts(rows[0]);
      CountOfOne(RS, NUL);
      CountInTwo(Line(rows[0]), [RS], NUL);
      CountInTwo(Line(rows[0]) + [RS], Encode(rows[1..]), NUL);
    }
  }

  /** Every field that the boundary does not already fix is free of the field separator: all fields of
    * all messages, except the id of the last one. */
  predicate FieldsApart(h: seq<Row>) {
    forall i :: 0 <= i < |h| ==>
      NUL !in h[i].role && NUL !in h[i].content && (i == |h| - 1 || NUL !in h[i].id)
  }

  /** Between a content and the id of the next message there is one record separator only, except before
    * the last message, whose id the boundary fixes. Roles, the first id and the last content may have any. */
  predicate RecordsApart(h: seq<Row>) { forall i {:trigger h[i]} :: 0 <= i < |h| - 2 ==> PairApart(h[i], h[i + 1]) }

  predicate PairApart(a: Row, b: Row) { RS !in a.content && RS !in b.id }

  lemma {:induction false} ApartIffCount(h: seq<Row>)
    requires h != []
    ensures FieldSeparators(h) >= Count(LastId(h), NUL)
    ensures FieldSeparators(h) == Count(LastId(h), NUL) <==> FieldsApart(h)
    decreases |h|
  {
    hide Count;
    var last := h[|h| - 1];
    CountIff(h[0].id, NUL);
    CountIff(h[0].role, NUL);
    CountIff(h[0].content, NUL);
    if |h| == 1 {
      assert FieldSeparators(h) == InFields(h[0], NUL) + FieldSeparators([]);
    } else {
      ApartIffCount(h[1..]);
      assert h[1..][|h| - 2] == last;
      ApartTail(h);
    }
  }

  lemma ApartTail(h: seq<Row>)
    requires |h| >= 2
    ensures FieldsApart(h) <==> NUL !in h[0].id && NUL !in h[0].role && NUL !in h[0].content && FieldsApart(h[1..])
    ensures RecordsApart(h) ==> RecordsApart(h[1..])
  {
    assert forall i :: 0 < i < |h| ==> h[i] == h[1..][i - 1];
    assert forall i :: 0 <= i < |h| - 1 ==> h[1..][i] == h[i + 1];
  }

  /** A history with the same count, last id and encoding has its fields apart too. */
  lemma BothApart(p: seq<Row>, h: seq<Row>)
    requires |p| == |h| && h != [] && LastId(p) == LastId(h) && Encode(p) == Encode(h) && FieldsApart(h)
    ensures FieldsApart(p)
  {
    EncodeCounts(p);
    EncodeCounts(h);
    ApartIffCount(p);
    ApartIffCount(h);
  }

  /** The first message of a longer history, up to its content. */
  lemma FirstDecodes(p: seq<Row>, h: seq<Row>)
    requires |p| == |h| >= 2 && Encode(p) == Encode(h) && FieldsApart(p) && FieldsApart(h)
    ensures p[0].id == h[0].id && p[0].role == h[0].role
    ensures p[0].content + [RS] + Encode(p[1..]) == h[0].content + [RS] + Encode(h[1..])
  {
    var x, y := p[0].content + [RS] + Encode(p[1..]), h[0].content + [RS] + Encode(h[1..]);
    EncodeFromRight(p);
    EncodeFromRight(h);
    ApartTail(p);
    ApartTail(h);
    hide Encode, FieldsApart;
    CutAtFirst(p[0].id, p[0].role + [NUL] + x, h[0].id, h[0].role + [NUL] + y, NUL);
    CutAtFirst(p[0].role, x, h[0].role, y, NUL);
  }

  lemma EncodeFromRight(h: seq<Row>)
    requires h != []
    ensures Encode(h) == h[0].id + [NUL] + (h[0].role + [NUL] + (h[0].content + [RS] + Encode(h[1..])))
  {
  }

  /** A content and the id after it, when there is one record separator between them and none inside. */
  lemma ContentDecodes(c1: string, id1: string, rest1: string, c2: string, id2: string, rest2: string)
    requires c1 + [RS] + (id1 + [NUL] + rest1) == c2 + [RS] + (id2 + [NUL] + rest2)
    requires NUL !in c1 && NUL !in id1 && NUL !in c2 && NUL !in id2 && RS !in c2 && RS !in id2
    ensures c1 == c2
  {
    hide Count;
    assert c1 + [RS] + (id1 + [NUL] + rest1) == c1 + [RS] + id1 + [NUL] + rest1;
    assert c2 + [RS] + (id2 + [NUL] + rest2) == c2 + [RS] + id2 + [NUL] + rest2;
    CutAtFirst(c1 + [RS] + id1, rest1, c2 + [RS] + id2, rest2, NUL);
    forall c, d ensures Count(c + [RS] + d, RS) == Count(c, RS) + 1 + Count(d, RS) {
      CountInTwo(c, [RS], RS);
      CountInTwo(c + [RS], d, RS);
      CountOfOne(RS, RS);
    }
    CountIff(c1, RS);
    CountIff(c2, RS);
    CountIff(id2, RS);
    CutAtFirst(c1, id1, c2, id2, RS);
  }

  /** The last two messages, read from the end, where the last id is known. */
  lemma LastTwoDecode(c1: string, a: Row, c2: string, b: Row)
    requires c1 + [RS] + Encode([a]) == c2 + [RS] + Encode([b]) && a.id == b.id
    requires NUL !in a.role && NUL !in a.content && NUL !in b.role && NUL !in b.content
    ensures c1 == c2 && SameRow(a, b)
  {
    EncodeOne(c1, a);
    EncodeOne(c2, b);
    var x, y := c1 + [RS] + a.id + [NUL] + a.role + [NUL] + a.content, c2 + [RS] + b.id + [NUL] + b.role + [NUL] + b.content;
    assert x == (x + [RS])[..|x + [RS]| - 1] && y == (y + [RS])[..|y + [RS]| - 1];
    CutAtLast(c1 + [RS] + a.id + [NUL] + a.role, a.content, c2 + [RS] + b.id + [NUL] + b.role, b.content, NUL);
    CutAtLast(c1 + [RS] + a.id, a.role, c2 + [RS] + b.id, b.role, NUL);
    var u, v := c1 + [RS], c2 + [RS];
    assert u == (u + a.id)[..|u|] && v == (v + b.id)[..|v|];
    assert c1 == u[..|u| - 1] && c2 == v[..|v| - 1];
  }

  lemma EncodeOne(c: string, a: Row)
    ensures c + [RS] + Encode([a]) == c + [RS] + a.id + [NUL] + a.role + [NUL] + a.content + [RS]
  {
    assert [a][1..] == [];
    assert Encode([a]) == Line(a) + [RS] + "";
  }

  lemma {:induction false} Decodes(p: seq<Row>, h: seq<Row>)
    requires |p| == |h| && LastId(p) == LastId(h) && Encode(p) == Encode(h)
    requires FieldsApart(p) && FieldsApart(h) && RecordsApart(h)
    ensures Same(p, h)
    decreases |h|
  {
    hide Encode, FieldsApart, RecordsApart, SameRow;
    if |h| == 1 {
      assert p == [p[0]] && h == [h[0]];
      LastApart(h);
      LastDecodes(p[0], h[0]);
    } else if |h| >= 2 {
      FirstDecodes(p, h);
      ApartTail(p);
      ApartTail(h);
      if |h| == 2 {
        assert p[1..] == [p[1]] && h[1..] == [h[1]];
        LastApart(p);
        LastApart(h);
        LastTwoDecode(p[0].content, p[1], h[0].content, h[1]);
      } else {
        MoreDecode(p, h);
        Decodes(p[1..], h[1..]);
      }
      SameFirst(p, h);
    }
  }

  lemma LastApart(h: seq<Row>)
    requires h != [] && FieldsApart(h)
    ensures NUL !in h[|h| - 1].role && NUL !in h[|h| - 1].content
  {
  }

  lemma SameFirst(p: seq<Row>, h: seq<Row>)
    requires |p| == |h| && h != [] && Same(p[1..], h[1..])
    requires p[0].id == h[0].id && p[0].role == h[0].role && p[0].content == h[0].content
    ensures Same(p, h)
  {
    assert forall i :: 0 < i < |h| ==> h[i] == h[1..][i - 1] && p[i] == p[1..][i - 1];
  }

  lemma LastDecodes(a: Row, b: Row)
    requires Encode([a]) == Encode([b]) && a.id == b.id && NUL !in b.role && NUL !in b.content
    ensures SameRow(a, b)
  {
    assert [a][1..] == [] && [b][1..] == [];
    assert Encode([a]) == Line(a) + [RS] && Encode([b]) == Line(b) + [RS];
    assert Line(a) == (Line(a) + [RS])[..|Line(a)|] && Line(b) == (Line(b) + [RS])[..|Line(b)|];
    LineDecodesAfterId(a, b);
  }

  /** With at least two messages after the first, its content is read off too. */
  lemma MoreDecode(p: seq<Row>, h: seq<Row>)
    requires |p| == |h| >= 3 && FieldsApart(p) && FieldsApart(h) && RecordsApart(h)
    requires p[0].content + [RS] + Encode(p[1..]) == h[0].content + [RS] + Encode(h[1..])
    ensures p[0].content == h[0].content && Encode(p[1..]) == Encode(h[1..])
  {
    EncodeFromRight(p[1..]);
    EncodeFromRight(h[1..]);
    ApartTail(p);
    ApartTail(h);
    ApartTail(p[1..]);
    ApartTail(h[1..]);
    hide Encode, FieldsApart;
    assert PairApart(h[0], h[1]);
    var x := p[1].role + [NUL] + (p[1].content + [RS] + Encode(p[1..][1..]));
    var y := h[1].role + [NUL] + (h[1].content + [RS] + Encode(h[1..][1..]));
    ContentDecodes(p[0].content, p[1].id, x, h[0].content, h[1].id, y);
    var u, v := p[0].content + [RS], h[0].content + [RS];
    assert Encode(p[1..]) == (u + Encode(p[1..]))[|u|..] && Encode(h[1..]) == (v + Encode(h[1..]))[|v|..];
  }

  /* ---- When the encoding is ambiguous ---- */

  lemma {:induction false} EncodeOther(h: seq<Row>, i: nat, r: Row)
    requires i < |h| && Line(r) == Line(h[i])
    ensures Encode(h[i := r]) == Encode(h)
    decreases |h|
  {
    if i == 0 {
      assert h[0 := r][1..] == h[1..];
    } else {
      EncodeOther(h[1..], i - 1, r);
      assert h[i := r][1..] == h[1..][i - 1 := r];
    }
  }

  /** A message that has the separator in its role or content has a double with the same id, one that
    * has it in its id has a double with another. */
  lemma Double(r: Row) returns (d: Row)
    requires NUL in r.role || NUL in r.content || NUL in r.id
    ensures Line(d) == Line(r) && !SameRow(d, r)
    ensures NUL in r.role || NUL in r.content ==> d.id == r.id
  {
    LineFromRight(r);
    if NUL in r.role {
      var u, v := SplitAt(r.role, NUL);
      d := r.(role := u, content := v + [NUL] + r.content);
      assert u + [NUL] + v + [NUL] + r.content == u + [NUL] + (v + [NUL] + r.content);
      LineFromRight(d);
    } else if NUL in r.content {
      var u, v := SplitAt(r.content, NUL);
      d := r.(role := r.role + [NUL] + u, content := v);
      assert r.role + [NUL] + (u + [NUL] + v) == r.role + [NUL] + u + [NUL] + v;
      LineFromRight(d);
    } else {
      var u, v := SplitAt(r.id, NUL);
      d := r.(id := u, role := v, content := r.role + [NUL] + r.content);
      assert u + [NUL] + v + [NUL] + (r.role + [NUL] + r.content) == u + [NUL] + (v + [NUL] + (r.role + [NUL] + r.content));
      LineFromRight(d);
    }
  }

  lemma SplitAt(s: string, c: char) returns (u: string, v: string)
    requires c in s
    ensures s == u + [c] + v && |u| < |s| && |v| < |s|
  {
    var i :| 0 <= i < |s| && s[i] == c;
    u, v := s[..i], s[i + 1..];
  }

  /** Another history for one whose fields are not apart. */
  lemma AmbiguousFields(h: seq<Row>) returns (p: seq<Row>)
    requires !FieldsApart(h)
    ensures |p| == |h| && LastId(p) == LastId(h) && Encode(p) == Encode(h) && !Same(p, h)
  {
    var i :| 0 <= i < |h| && !(NUL !in h[i].role && NUL !in h[i].content && (i == |h| - 1 || NUL !in h[i].id));
    var d := Double(h[i]);
    p := h[i := d];
    EncodeOther(h, i, d);
    assert !SameRow(p[i], h[i]);
  }

  /** What follows the first message is all that the rest of an encoding depends on. */
  lemma {:induction false} EncodeOtherPair(h: seq<Row>, i: nat, a: Row, b: Row)
    requires i + 1 < |h| && Line(a) + [RS] + Line(b) == Line(h[i]) + [RS] + Line(h[i + 1])
    ensures Encode(h[i := a][i + 1 := b]) == Encode(h)
    decreases |h|
  {
    hide Line;
    if i == 0 {
      var r := h[0 := a][1 := b];
      assert r[1..][1..] == h[1..][1..];
      var rest := Encode(h[1..][1..]);
      assert Encode(r) == Line(a) + [RS] + (Line(b) + [RS] + rest) == Line(a) + [RS] + Line(b) + [RS] + rest;
      assert Encode(h) == Line(h[0]) + [RS] + (Line(h[1]) + [RS] + rest) == Line(h[0]) + [RS] + Line(h[1]) + [RS] + rest;
    } else {
      EncodeOtherPair(h[1..], i - 1, a, b);
      assert h[i := a][i + 1 := b][1..] == h[1..][i - 1 := a][i := b];
    }
  }

  /** A record separator inside a content or the id after it can be taken for the one between them. */
  lemma DoublePair(a: Row, b: Row) returns (c: Row, d: Row)
    requires RS in a.content || RS in b.id
    ensures Line(c) + [RS] + Line(d) == Line(a) + [RS] + Line(b) && !SameRow(c, a)
  {
    PairFromMiddle(a, b);
    if RS in a.content {
      var u, v := SplitAt(a.content, RS);
      c, d := a.(content := u), b.(id := v + [RS] + b.id);
      assert u + [RS] + v + [RS] + b.id == u + [RS] + (v + [RS] + b.id);
    } else {
      var u, v := SplitAt(b.id, RS);
      c, d := a.(content := a.content + [RS] + u), b.(id := v);
      assert a.content + [RS] + (u + [RS] + v) == a.content + [RS] + u + [RS] + v;
      assert |c.content| > |a.content|;
    }
    PairFromMiddle(c, d);
  }

  lemma PairFromMiddle(a: Row, b: Row)
    ensures Line(a) + [RS] + Line(b)
         == (a.id + [NUL] + a.role + [NUL]) + (a.content + [RS] + b.id) + ([NUL] + b.role + [NUL] + b.content)
  {
  }

  lemma AmbiguousRecords(h: seq<Row>) returns (p: seq<Row>)
    requires !RecordsApart(h)
    ensures |p| == |h| && LastId(p) == LastId(h) && Encode(p) == Encode(h) && !Same(p, h)
  {
    hide Encode;
    var i :| 0 <= i < |h| - 2 && !PairApart(h[i], h[i + 1]);
    var a, b := DoublePair(h[i], h[i + 1]);
    p := h[i := a][i + 1 := b];
    EncodeOtherPair(h, i, a, b);
    assert p[i] == a && !SameRow(p[i], h[i]);
  }

  predicate Apart(h: seq<Row>) { FieldsApart(h) && RecordsApart(h) }

  lemma Ambiguous(h: seq<Row>) returns (p: seq<Row>)
    requires !Apart(h)
    ensures |p| == |h| && LastId(p) == LastId(h) && Encode(p) == Encode(h) && !Same(p, h)
  {
    hide Encode, Same, FieldsApart, RecordsApart;
    if !FieldsApart(h) {
      p := AmbiguousFields(h);
    } else {
      p := AmbiguousRecords(h);
    }
  }

  /** Exactly when count, last id and encoding determine a history: when no separator inside a field can be
    * taken for one between fields or between messages. */
  lemma BoundaryDeterminesIff(h: seq<Row>)
    ensures (forall p :: |p| == |h| && LastId(p) == LastId(h) && Encode(p) == Encode(h) ==> Same(p, h)) <==> Apart(h)
  {
    hide Encode, FieldsApart, RecordsApart, Same;
    if Apart(h) {
      forall p | |p| == |h| && LastId(p) == LastId(h) && Encode(p) == Encode(h) ensures Same(p, h) {
        ApartDecodes(p, h);
      }
    } else {
      var p := Ambiguous(h);
    }
  }

  lemma ApartDecodes(p: seq<Row>, h: seq<Row>)
    requires Apart(h) && |p| == |h| && LastId(p) == LastId(h) && Encode(p) == Encode(h)
    ensures Same(p, h)
  {
    if h != [] {
      BothApart(p, h);
      Decodes(p, h);
    }
  }

  /* ---- Snapshots ---- */

  /** As it is read back: a count that is missing or is no number, and missing texts, are `None` and "". */
  datatype Snapshot = Snapshot(count: Option<int>, lastMessageId: string, digest: string)

  datatype Status = Status(valid: bool, count: nat, invalidated: bool, reason: string)

  lemma EncodeEnds(rows: seq<Row>)
    ensures Encode([]) == "" && "" + Encode(rows[0..]) == Encode(rows)
  {
    assert rows[0..] == rows;
  }

  lemma EncodeNext(rows: seq<Row>)
    requires rows != []
    ensures Encode(rows) == Line(rows[0]) + [RS] + Encode(rows[1..])
  {
  }

  lemma FedLine(fed: string, r: Row, rest: string)
    ensures fed + r.id + [NUL] + r.role + [NUL] + r.content + [RS] + rest == fed + (Line(r) + [RS] + rest)
  {
    assert fed + r.id + [NUL] + r.role + [NUL] + r.content == fed + Line(r);
    assert fed + Line(r) + [RS] == fed + (Line(r) + [RS]);
  }

  /** `_message_digest`, with the hash of what was fed to it. */
  method MessageDigest(hash: string -> string, rows: seq<Row>) returns (digest: string)
    ensures digest == hash(Encode(rows))
  {
    hide Encode, Line;
    EncodeEnds(rows);
    var fed := "";
    for n := 0 to |rows|
      invariant fed + Encode(rows[n..]) == Encode(rows)
    {
      ghost var before := fed;
      fed := fed + rows[n].id;
      fed := fed + [NUL];
      fed := fed + rows[n].role;
      fed := fed + [NUL];
      fed := fed + rows[n].content;
      fed := fed + [RS];
      EncodeNext(rows[n..]);
      assert rows[n..][1..] == rows[n + 1..];
      FedLine(before, rows[n], Encode(rows[n + 1..]));
    }
    assert rows[|rows|..] == [] && fed + "" == fed;
    return hash(fed);
  }

  function BuildHistorySnapshot(hash: string -> string, history: seq<Row>): Snapshot {
    Snapshot(Some(|history|), LastId(history), hash(Encode(history)))
  }

  /** The queued history, if the boundary can be proven; nothing otherwise. */
  function Materialize(hash: string -> string, current: seq<Row>, snap: Snapshot): (seq<Row>, Status) {
    var count := if snap.count.Some? then Max(0, snap.count.value) else 0;
    if count == 0 then
      var valid := snap.digest == "" || snap.digest == hash(Encode([]));
      ([], Status(valid, 0, !valid, ""))
    else if |current| < count then
      ([], Status(false, count, true, "prefix-shorter-than-snapshot"))
    else
      var prefix := current[..count];
      if LastId(prefix) == snap.lastMessageId && hash(Encode(prefix)) == snap.digest then (prefix, Status(true, count, false, ""))
      else ([], Status(false, count, true, "boundary-or-digest-mismatch"))
  }

  ghost predicate Injective(hash: string -> string) { forall a, b :: hash(a) == hash(b) ==> a == b }

  /** However the conversation grew since, the job gets exactly the history it was queued with. */
  lemma ExtensionGivesHistory(hash: string -> string, h: seq<Row>, more: seq<Row>)
    ensures var (rows, status) := Materialize(hash, h + more, BuildHistorySnapshot(hash, h));
            rows == h && status == Status(true, |h|, false, "")
  {
    assert (h + more)[..|h|] == h;
  }

  /** And whatever the store holds, the job gets that history or none: it gets it exactly when the stored
    * messages still begin with it. */
  lemma HistoryOrNothing(hash: string -> string, h: seq<Row>, current: seq<Row>)
    requires Injective(hash) && Apart(h) && h != []
    ensures var (rows, status) := Materialize(hash, current, BuildHistorySnapshot(hash, h));
            && (status.valid <==> |h| <= |current| && Same(current[..|h|], h))
            && status.invalidated == !status.valid
            && rows == (if status.valid then current[..|h|] else [])
            && (rows != [] ==> Same(rows, h))
  {
    hide Encode, Apart;
    if |h| <= |current| {
      var prefix := current[..|h|];
      BoundaryDeterminesIff(h);
      if Same(prefix, h) {
        SameEncodes(prefix, h);
      }
    }
  }

  /** Exactly for which queued histories an accepted boundary proves the history. */
  lemma AcceptedIsQueuedIff(hash: string -> string, h: seq<Row>)
    requires Injective(hash)
    ensures (forall current :: var (rows, status) := Materialize(hash, current, BuildHistorySnapshot(hash, h));
                               status.valid ==> Same(rows, h))
            <==> Apart(h)
  {
    hide Encode, Apart, Same, Materialize;
    if Apart(h) {
      forall current
        ensures var (rows, status) := Materialize(hash, current, BuildHistorySnapshot(hash, h)); status.valid ==> Same(rows, h)
      {
        if h != [] {
          HistoryOrNothing(hash, h, current);
        } else {
          NothingQueued(hash, current);
        }
      }
    } else {
      var current := OtherHistoryAccepted(hash, h);
    }
  }

  lemma NothingQueued(hash: string -> string, current: seq<Row>)
    ensures Materialize(hash, current, BuildHistorySnapshot(hash, [])).0 == [] && Same([], [])
  {
  }

  lemma {:induction false} SameEncodes(p: seq<Row>, h: seq<Row>)
    requires Same(p, h)
    ensures Encode(p) == Encode(h) && LastId(p) == LastId(h)
    decreases |h|
  {
    if h != [] {
      SameEncodes(p[1..], h[1..]);
    }
  }

  /** With a separator where it can be misread the guarantee is gone: another conversation is accepted. */
  lemma OtherHistoryAccepted(hash: string -> string, h: seq<Row>) returns (current: seq<Row>)
    requires !Apart(h)
    ensures var (rows, status) := Materialize(hash, current, BuildHistorySnapshot(hash, h));
            status.valid && rows == current && !Same(rows, h)
  {
    hide Encode, FieldsApart, RecordsApart, Same;
    current := Ambiguous(h);
    assert h != [] by { NonemptyIfNotApart(h); }
    assert current[..|h|] == current;
  }

  lemma NonemptyIfNotApart(h: seq<Row>)
    requires !Apart(h)
    ensures h != []
  {
  }

  /** Three messages whose contents were moved across a record separator. */
  lemma MovedAcrossRecords(hash: string -> string)
    ensures var h := [Row("1", "user", ['a', RS, 'b'], ""), Row("2", "user", "c", ""), Row("3", "user", "d", "")];
            var p := [Row("1", "user", "a", ""), Row(['b', RS, '2'], "user", "c", ""), Row("3", "user", "d", "")];
            var (rows, status) := Materialize(hash, p, BuildHistorySnapshot(hash, h));
            FieldsApart(h) && status.valid && rows == p && !Same(p, h)
  {
    var h := [Row("1", "user", ['a', RS, 'b'], ""), Row("2", "user", "c", ""), Row("3", "user", "d", "")];
    var a, b := Row("1", "user", "a", ""), Row(['b', RS, '2'], "user", "c", "");
    hide Encode, FieldsApart;
    PairFromMiddle(a, b);
    PairFromMiddle(h[0], h[1]);
    assert a.content + [RS] + b.id == h[0].content + [RS] + h[1].id;
    EncodeOtherPair(h, 0, a, b);
    var p := h[0 := a][1 := b];
    assert p[..3] == p && p == [a, b, h[2]];
    assert !SameRow(p[0], h[0]);
    ThreeApart(h);
  }

  lemma ThreeApart(h: seq<Row>)
    requires |h| == 3 && forall i :: 0 <= i < 3 ==> NUL !in h[i].id && NUL !in h[i].role && NUL !in h[i].content
    ensures FieldsApart(h)
  {
  }
}

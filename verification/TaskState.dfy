/** The task state distilled from a conversation's user messages: the goal and five bounded lists of
  * sentences, kept up to date from a cached state instead of being computed again. */
module TaskState {
  import opened Basics
  import opened PrefixCache

  datatype Kind = Constraints | Decisions | Verified | Questions | Versions

  datatype Row = Row(text: string, source: string)

  /** What regular expressions and marker lists contribute. */
  datatype Analysis = Analysis(
    normal: string -> string,
    sentences: string -> seq<string>,
    marked: (Kind, string) -> bool,
    versions: string -> seq<string>)

  /** A list of rows, and the normalised texts it will not take again. */
  datatype Bucket = Bucket(rows: seq<Row>, seen: set<string>)

  datatype State = State(goal: Option<Row>, rows: map<Kind, seq<Row>>)

  /* ---- What a message has to say about one kind ---- */

  predicate Asks(s: string) {
    var t := StripRight(s);
    t != "" && (t[|t| - 1] == '?' || t[|t| - 1] == '\U{ff1f}')
  }

  function Tag(texts: seq<string>, source: string): (rows: seq<Row>)
    ensures |rows| == |texts| && forall i :: 0 <= i < |rows| ==> rows[i] == Row(texts[i], source)
  {
    seq(|texts|, i requires 0 <= i < |texts| => Row(texts[i], source))
  }

  predicate Speaks(a: Analysis, s: string, k: Kind) { a.marked(k, a.normal(s)) || (k == Questions && Asks(s)) }

  function SentenceTexts(a: Analysis, s: string, k: Kind): seq<string> {
    if a.normal(s) == "" then []
    else if k == Versions then a.versions(s)
    else if Speaks(a, s, k) then [s]
    else []
  }

  function TextsOf(a: Analysis, sentences: seq<string>, k: Kind): seq<string> {
    if sentences == [] then []
    else TextsOf(a, sentences[..|sentences| - 1], k) + SentenceTexts(a, sentences[|sentences| - 1], k)
  }

  function MessageTexts(a: Analysis, m: Message, k: Kind): seq<string> {
    if m.role == "user" then TextsOf(a, a.sentences(Take(m.content, 12000)), k) else []
  }

  function Offered(a: Analysis, m: Message, index: nat, k: Kind): seq<Row> {
    Tag(MessageTexts(a, m, k), SourceId(m, index))
  }

  /** The rows offered by the messages at places `from` up to `to`. */
  function RowsOf(a: Analysis, h: seq<Message>, from: nat, upto: nat, k: Kind): seq<Row>
    requires upto <= |h|
    decreases upto
  {
    if upto <= from then []
    else RowsOf(a, h, from, upto - 1, k) + Offered(a, h[upto - 1], upto - 1, k)
  }

  function GoalOf(m: Message, index: nat): Option<Row> {
    if m.role == "user" && Strip(m.content) != "" then Some(Row(Take(Strip(m.content), 1200), SourceId(m, index)))
    else None
  }

  /** The first goal, if there is none yet. */
  function Goal(goal: Option<Row>, h: seq<Message>, from: nat, upto: nat): Option<Row>
    requires upto <= |h|
    decreases upto
  {
    if upto <= from then goal
    else
      var earlier := Goal(goal, h, from, upto - 1);
      if earlier.Some? then earlier else GoalOf(h[upto - 1], upto - 1)
  }

  /* ---- Buckets ---- */

  function Clip(r: Row): Row { Row(Take(r.text, 1200), r.source) }

  function Accept(a: Analysis, limit: nat, b: Bucket, r: Row): Bucket {
    if a.normal(r.text) in b.seen then b
    else
      var rows := b.rows + [Clip(r)];
      Bucket(if |rows| > limit then rows[1..] else rows, b.seen + {a.normal(r.text)})
  }

  function Fill(a: Analysis, limit: nat, b: Bucket, rs: seq<Row>): Bucket {
    if rs == [] then b else Accept(a, limit, Fill(a, limit, b, rs[..|rs| - 1]), rs[|rs| - 1])
  }

  function Norms(a: Analysis, rs: seq<Row>): set<string> {
    if rs == [] then {} else Norms(a, rs[..|rs| - 1]) + {a.normal(rs[|rs| - 1].text)}
  }

  /** How a bucket is taken up again: what was seen is read off the surviving rows. */
  function Recall(a: Analysis, rows: seq<Row>): Bucket { Bucket(rows, Norms(a, rows)) }

  const NOTHING := Bucket([], {})

  /** The bucket of one uncached pass over the whole history. */
  function OnePass(a: Analysis, limit: nat, h: seq<Message>, k: Kind): Bucket {
    Fill(a, limit, NOTHING, RowsOf(a, h, 0, |h|, k))
  }

  /** The bucket when the rows of the first `n` messages come from the cache. */
  function Resumed(a: Analysis, limit: nat, rows: seq<Row>, h: seq<Message>, n: nat, k: Kind): Bucket {
    Fill(a, limit, Recall(a, rows), RowsOf(a, h, n, |h|, k))
  }

  /** NOTHING seen so far is missing from the surviving rows. */
  predicate Remembered(a: Analysis, limit: nat, h: seq<Message>, k: Kind) {
    Recall(a, OnePass(a, limit, h, k).rows) == OnePass(a, limit, h, k)
  }

  /** What a caller can see in the history: every text fits in a row, and no more different texts than
    * rows. */
  predicate Roomy(a: Analysis, limit: nat, h: seq<Message>, k: Kind) {
    && (forall r :: r in RowsOf(a, h, 0, |h|, k) ==> |r.text| <= 1200)
    && |Norms(a, RowsOf(a, h, 0, |h|, k))| <= limit
  }

  /** A row says, in at most 1200 characters, what some user message said. */
  ghost predicate Said(a: Analysis, h: seq<Message>, k: Kind, r: Row) {
    exists i: nat, text ::
      i < |h| && h[i].role == "user" && text in MessageTexts(a, h[i], k) && r == Clip(Row(text, SourceId(h[i], i)))
  }

  /* ---- What is taken from a message ---- */

  /** The text ends in a question mark, white space behind it aside. */
  predicate EndsAsQuestion(s: string) {
    exists j: nat :: j < |s| && s[j] in {'?', '\U{ff1f}'} && forall i :: j < i < |s| ==> IsSpace(s[i])
  }

  lemma AsksIff(s: string)
    ensures Asks(s) <==> EndsAsQuestion(s)
  {
    StripRightMeans(s);
    var t := StripRight(s);
    if Asks(s) {
      assert s[|t| - 1] == t[|t| - 1];
    }
    if EndsAsQuestion(s) {
      var j: nat :| j < |s| && s[j] in {'?', '\U{ff1f}'} && forall i :: j < i < |s| ==> IsSpace(s[i]);
      assert !IsSpace(s[j]);
      assert j < |t|;
      assert t[|t| - 1] == s[|t| - 1];
    }
  }

  /** The message says `text` of this kind: it is a user message; a sentence of its first 12000 characters that
    * has a normal form is marked, or is a question, and is the text; or it contains the text as a version. */
  ghost predicate Tells(a: Analysis, m: Message, k: Kind, text: string) {
    && m.role == "user"
    && exists s :: s in a.sentences(if |m.content| <= 12000 then m.content else m.content[..12000]) && a.normal(s) != ""
         && (match k
             case Versions => text in a.versions(s)
             case Questions => text == s && (EndsAsQuestion(s) || a.marked(Questions, a.normal(s)))
             case _ => text == s && a.marked(k, a.normal(s)))
  }

  lemma SentenceTextsMean(a: Analysis, s: string, k: Kind, text: string)
    ensures text in SentenceTexts(a, s, k) <==>
              a.normal(s) != ""
              && (match k
                  case Versions => text in a.versions(s)
                  case Questions => text == s && (EndsAsQuestion(s) || a.marked(Questions, a.normal(s)))
                  case _ => text == s && a.marked(k, a.normal(s)))
  {
    hide Asks, EndsAsQuestion;
    AsksIff(s);
  }

  lemma {:induction false} TextsOfIff(a: Analysis, sentences: seq<string>, k: Kind, text: string)
    ensures text in TextsOf(a, sentences, k) <==> exists s :: s in sentences && text in SentenceTexts(a, s, k)
    decreases |sentences|
  {
    hide SentenceTexts;
    if sentences != [] {
      var n := |sentences| - 1;
      TextsOfIff(a, sentences[..n], k, text);
      assert sentences == sentences[..n] + [sentences[n]];
    }
  }

  /** Exactly what a message offers. */
  lemma OfferedIff(a: Analysis, m: Message, k: Kind, text: string)
    ensures text in MessageTexts(a, m, k) <==> Tells(a, m, k, text)
  {
    hide SentenceTexts, EndsAsQuestion;
    var sentences := a.sentences(Take(m.content, 12000));
    TextsOfIff(a, sentences, k, text);
    forall s ensures text in SentenceTexts(a, s, k) <==>
              a.normal(s) != ""
              && (match k
                  case Versions => text in a.versions(s)
                  case Questions => text == s && (EndsAsQuestion(s) || a.marked(Questions, a.normal(s)))
                  case _ => text == s && a.marked(k, a.normal(s)))
    {
      SentenceTextsMean(a, s, k, text);
    }
  }

  /** Some message of the history says something with this normal form. */
  ghost predicate Told(a: Analysis, h: seq<Message>, k: Kind, normal: string) {
    exists i: nat, text :: i < |h| && Tells(a, h[i], k, text) && a.normal(text) == normal
  }

  lemma {:induction false} RowOfferedIff(a: Analysis, h: seq<Message>, upto: nat, k: Kind, r: Row)
    requires upto <= |h|
    ensures r in RowsOf(a, h, 0, upto, k) <==> exists i: nat :: i < upto && Tells(a, h[i], k, r.text) && r.source == SourceId(h[i], i)
    decreases upto
  {
    hide Tells, MessageTexts, SourceId;
    if upto > 0 {
      var i := upto - 1;
      RowOfferedIff(a, h, i, k, r);
      OfferedIff(a, h[i], k, r.text);
      var texts := MessageTexts(a, h[i], k);
      if r.text in texts && r.source == SourceId(h[i], i) {
        var j :| 0 <= j < |texts| && texts[j] == r.text;
        assert Offered(a, h[i], i, k)[j] == r;
      }
      assert r in Offered(a, h[i], i, k) <==> r.text in texts && r.source == SourceId(h[i], i);
    }
  }

  lemma {:induction false} NormsIff(a: Analysis, rs: seq<Row>, n: string)
    ensures n in Norms(a, rs) <==> exists r :: r in rs && a.normal(r.text) == n
    decreases |rs|
  {
    if rs != [] {
      NormsIff(a, rs[..|rs| - 1], n);
      assert rs == rs[..|rs| - 1] + [rs[|rs| - 1]];
    }
  }

  lemma OfferedNorms(a: Analysis, h: seq<Message>, k: Kind, n: string)
    ensures n in Norms(a, RowsOf(a, h, 0, |h|, k)) <==> Told(a, h, k, n)
  {
    hide Tells, SourceId;
    var offered := RowsOf(a, h, 0, |h|, k);
    NormsIff(a, offered, n);
    if n in Norms(a, offered) {
      var r :| r in offered && a.normal(r.text) == n;
      RowOfferedIff(a, h, |h|, k, r);
    }
    if Told(a, h, k, n) {
      var i: nat, text :| i < |h| && Tells(a, h[i], k, text) && a.normal(text) == n;
      RowOfferedIff(a, h, |h|, k, Row(text, SourceId(h[i], i)));
      assert Row(text, SourceId(h[i], i)) in offered;
    }
  }

  /* ---- Facts about filling ---- */

  lemma {:induction false} FillInTwo(a: Analysis, limit: nat, b: Bucket, xs: seq<Row>, ys: seq<Row>)
    ensures Fill(a, limit, b, xs + ys) == Fill(a, limit, Fill(a, limit, b, xs), ys)
    decreases |ys|
  {
    if ys == [] {
      assert xs + ys == xs;
    } else {
      FillInTwo(a, limit, b, xs, ys[..|ys| - 1]);
      assert (xs + ys)[..|xs + ys| - 1] == xs + ys[..|ys| - 1];
    }
  }

  lemma {:induction false} RowsInTwo(a: Analysis, h: seq<Message>, from: nat, mid: nat, upto: nat, k: Kind)
    requires from <= mid <= upto <= |h|
    ensures RowsOf(a, h, from, upto, k) == RowsOf(a, h, from, mid, k) + RowsOf(a, h, mid, upto, k)
    decreases upto
  {
    hide Offered;
    if mid < upto {
      RowsInTwo(a, h, from, mid, upto - 1, k);
      var x, y, z := RowsOf(a, h, from, mid, k), RowsOf(a, h, mid, upto - 1, k), Offered(a, h[upto - 1], upto - 1, k);
      assert (x + y) + z == x + (y + z);
    }
  }

  lemma {:induction false} RowsOfPrefix(a: Analysis, h1: seq<Message>, h: seq<Message>, upto: nat, k: Kind)
    requires upto <= |h1| && h1 <= h
    ensures RowsOf(a, h1, 0, upto, k) == RowsOf(a, h, 0, upto, k)
    decreases upto
  {
    if upto > 0 {
      RowsOfPrefix(a, h1, h, upto - 1, k);
    }
  }

  lemma {:induction false} NormsInTwo(a: Analysis, xs: seq<Row>, ys: seq<Row>)
    ensures Norms(a, xs + ys) == Norms(a, xs) + Norms(a, ys)
    decreases |ys|
  {
    if ys == [] {
      assert xs + ys == xs;
    } else {
      NormsInTwo(a, xs, ys[..|ys| - 1]);
      assert (xs + ys)[..|xs + ys| - 1] == xs + ys[..|ys| - 1];
    }
  }

  lemma {:induction false} FillSees(a: Analysis, limit: nat, b: Bucket, rs: seq<Row>)
    ensures Fill(a, limit, b, rs).seen == b.seen + Norms(a, rs)
    decreases |rs|
  {
    if rs != [] {
      FillSees(a, limit, b, rs[..|rs| - 1]);
    }
  }

  /** A bucket never outgrows its limit. */
  lemma {:induction false} FillIsBounded(a: Analysis, limit: nat, b: Bucket, rs: seq<Row>)
    requires |b.rows| <= limit
    ensures |Fill(a, limit, b, rs).rows| <= limit
    decreases |rs|
  {
    if rs != [] {
      FillIsBounded(a, limit, b, rs[..|rs| - 1]);
    }
  }

  /** One pass keeps as many rows as there are different texts, up to the limit. */
  lemma {:induction false} FillCounts(a: Analysis, limit: nat, rs: seq<Row>)
    ensures |Fill(a, limit, NOTHING, rs).rows| == Min(limit, |Norms(a, rs)|)
    decreases |rs|
  {
    if rs != [] {
      var front, n := rs[..|rs| - 1], a.normal(rs[|rs| - 1].text);
      FillCounts(a, limit, front);
      FillSees(a, limit, NOTHING, front);
      assert {} + Norms(a, front) == Norms(a, front);
      if n in Norms(a, front) {
        assert Norms(a, front) + {n} == Norms(a, front);
      }
    }
  }

  lemma {:induction false} NormsAreNoMore(a: Analysis, rows: seq<Row>)
    ensures |Norms(a, rows)| <= |rows|
    decreases |rows|
  {
    if rows != [] {
      NormsAreNoMore(a, rows[..|rows| - 1]);
    }
  }

  lemma {:induction false} FillOfSeen(a: Analysis, limit: nat, b: Bucket, rs: seq<Row>)
    requires Norms(a, rs) <= b.seen
    ensures Fill(a, limit, b, rs) == b
    decreases |rs|
  {
    if rs != [] {
      FillOfSeen(a, limit, b, rs[..|rs| - 1]);
    }
  }

  /** Rows of one message that are not all known leave a row of that message at the end. */
  lemma {:induction false} FillOfNew(a: Analysis, limit: nat, b: Bucket, rs: seq<Row>, source: string)
    requires limit >= 1 && !(Norms(a, rs) <= b.seen) && forall r :: r in rs ==> r.source == source
    ensures var rows := Fill(a, limit, b, rs).rows; rows != [] && rows[|rows| - 1].source == source
    decreases |rs|
  {
    if rs != [] {
      var front, last := rs[..|rs| - 1], rs[|rs| - 1];
      assert last in rs && forall r :: r in front ==> r in rs;
      if Norms(a, front) <= b.seen {
        FillOfSeen(a, limit, b, front);
      } else {
        FillOfNew(a, limit, b, front, source);
      }
    }
  }

  /* ---- The split law ---- */

  /** Resuming from the cached rows of a prefix that forgot nothing is the same as one pass. */
  lemma SplitLaw(a: Analysis, limit: nat, h1: seq<Message>, h: seq<Message>, k: Kind)
    requires h1 <= h && Remembered(a, limit, h1, k)
    ensures Resumed(a, limit, OnePass(a, limit, h1, k).rows, h, |h1|, k) == OnePass(a, limit, h, k)
  {
    RowsOfPrefix(a, h1, h, |h1|, k);
    RowsInTwo(a, h, 0, |h1|, |h|, k);
    FillInTwo(a, limit, NOTHING, RowsOf(a, h, 0, |h1|, k), RowsOf(a, h, |h1|, |h|, k));
  }

  /** If a prefix forgot anything, it forgot a text it had seen. */
  lemma SomethingForgotten(a: Analysis, limit: nat, h: seq<Message>, k: Kind) returns (n: string)
    requires !Remembered(a, limit, h, k)
    ensures n in Norms(a, RowsOf(a, h, 0, |h|, k)) && n !in Norms(a, OnePass(a, limit, h, k).rows)
  {
    var offered := RowsOf(a, h, 0, |h|, k);
    var b := Fill(a, limit, NOTHING, offered);
    FillSees(a, limit, NOTHING, offered);
    FillCounts(a, limit, offered);
    NormsAreNoMore(a, b.rows);
    if b.seen <= Norms(a, b.rows) {
      SubsetSize(b.seen, Norms(a, b.rows));
      assert false;
    }
    n :| n in b.seen && n !in Norms(a, b.rows);
  }

  lemma {:induction false} NormSaid(a: Analysis, h: seq<Message>, upto: nat, k: Kind, n: string) returns (i: nat)
    requires upto <= |h| && n in Norms(a, RowsOf(a, h, 0, upto, k))
    ensures i < upto && n in Norms(a, Offered(a, h[i], i, k))
    decreases upto
  {
    hide Offered;
    var last := Offered(a, h[upto - 1], upto - 1, k);
    NormsInTwo(a, RowsOf(a, h, 0, upto - 1, k), last);
    if n in Norms(a, last) {
      i := upto - 1;
    } else {
      i := NormSaid(a, h, upto - 1, k, n);
    }
  }

  lemma {:induction false} NormsOfTag(a: Analysis, texts: seq<string>, s1: string, s2: string)
    ensures Norms(a, Tag(texts, s1)) == Norms(a, Tag(texts, s2))
    decreases |texts|
  {
    if texts != [] {
      NormsOfTag(a, texts[..|texts| - 1], s1, s2);
      assert Tag(texts, s1)[..|texts| - 1] == Tag(texts[..|texts| - 1], s1);
      assert Tag(texts, s2)[..|texts| - 1] == Tag(texts[..|texts| - 1], s2);
    }
  }

  lemma {:induction false} FreshId(h: seq<Message>) returns (id: string)
    ensures id != "" && forall i: nat :: i < |h| ==> |SourceId(h[i], i)| < |id|
    decreases |h|
  {
    if h == [] {
      id := "x";
    } else {
      var n := |h| - 1;
      var earlier := FreshId(h[..n]);
      id := earlier + SourceId(h[n], n) + "x";
      forall i: nat | i < |h| ensures |SourceId(h[i], i)| < |id| {
        if i < n { assert h[..n][i] == h[i]; }
      }
    }
  }

  /** A prefix that forgot something goes wrong as soon as the forgotten text is said again, in a message
    * with an id of its own. */
  lemma ForgottenIsTakenAgain(a: Analysis, limit: nat, h1: seq<Message>, k: Kind) returns (m: Message)
    requires limit >= 1 && !Remembered(a, limit, h1, k)
    ensures m.id != "" && m.role == "user" && forall i: nat :: i < |h1| ==> SourceId(h1[i], i) != m.id
    ensures Resumed(a, limit, OnePass(a, limit, h1, k).rows, h1 + [m], |h1|, k).rows != OnePass(a, limit, h1 + [m], k).rows
  {
    hide Fill, Norms, Remembered, RowsOf, Offered, OnePass, Resumed;
    var n := SomethingForgotten(a, limit, h1, k);
    var i := NormSaid(a, h1, |h1|, k, n);
    var id := FreshId(h1);
    m := Message(id, "user", h1[i].content);
    SaidAgain(a, h1, i, m, k, n);
    LastRowIsOld(a, limit, h1, k, id);
    TakenAgain(a, limit, h1, m, k, n);
  }

  lemma TakenAgain(a: Analysis, limit: nat, h: seq<Message>, m: Message, k: Kind, n: string)
    requires limit >= 1 && m.id != "" && n !in Norms(a, OnePass(a, limit, h, k).rows)
    requires var again := Offered(a, m, |h|, k);
             && n in Norms(a, again) && Norms(a, again) <= Norms(a, RowsOf(a, h, 0, |h|, k))
             && forall r :: r in again ==> r.source == m.id
    requires var rows := OnePass(a, limit, h, k).rows; rows != [] ==> rows[|rows| - 1].source != m.id
    ensures Resumed(a, limit, OnePass(a, limit, h, k).rows, h + [m], |h|, k).rows != OnePass(a, limit, h + [m], k).rows
  {
    hide Fill, Norms, RowsOf, Offered;
    var offered, again := RowsOf(a, h, 0, |h|, k), Offered(a, m, |h|, k);
    RowsOfNext(a, h, m, k);
    var b := OnePass(a, limit, h, k);
    FillSees(a, limit, NOTHING, offered);
    FillOfSeen(a, limit, b, again);
    FillInTwo(a, limit, NOTHING, offered, again);
    assert OnePass(a, limit, h + [m], k) == b;
    FillOfNew(a, limit, Recall(a, b.rows), again, m.id);
  }

  /** The same content in another user message offers the same texts, all of them seen. */
  lemma SaidAgain(a: Analysis, h: seq<Message>, i: nat, m: Message, k: Kind, n: string)
    requires i < |h| && n in Norms(a, Offered(a, h[i], i, k)) && m.role == "user" && m.content == h[i].content && m.id != ""
    ensures var again := Offered(a, m, |h|, k);
            && n in Norms(a, again) && Norms(a, again) <= Norms(a, RowsOf(a, h, 0, |h|, k))
            && forall r :: r in again ==> r.source == m.id
  {
    assert h[i].role == "user";
    NormsOfTag(a, MessageTexts(a, h[i], k), SourceId(h[i], i), m.id);
    AgainIsSeen(a, h, i, k, m.id);
    var again := Offered(a, m, |h|, k);
    forall r | r in again ensures r.source == m.id {
      var j :| 0 <= j < |again| && again[j] == r;
    }
  }

  lemma LastRowIsOld(a: Analysis, limit: nat, h: seq<Message>, k: Kind, id: string)
    requires forall i: nat :: i < |h| ==> SourceId(h[i], i) != id
    ensures var rows := OnePass(a, limit, h, k).rows; rows != [] ==> rows[|rows| - 1].source != id
  {
    FillSourced(a, limit, NOTHING, h, 0, |h|, k);
    var rows := OnePass(a, limit, h, k).rows;
    if rows != [] {
      assert Said(a, h, k, rows[|rows| - 1]);
    }
  }

  lemma RowsOfNext(a: Analysis, h: seq<Message>, m: Message, k: Kind)
    ensures var n := |h|; var next := Offered(a, m, n, k);
            && RowsOf(a, h + [m], n, n + 1, k) == next
            && RowsOf(a, h + [m], 0, n + 1, k) == RowsOf(a, h, 0, n, k) + next
  {
    hide Offered;
    RowsOfPrefix(a, h, h + [m], |h|, k);
    assert RowsOf(a, h + [m], |h|, |h|, k) == [];
  }

  lemma AgainIsSeen(a: Analysis, h: seq<Message>, i: nat, k: Kind, id: string)
    requires i < |h|
    ensures Norms(a, Tag(MessageTexts(a, h[i], k), id)) <= Norms(a, RowsOf(a, h, 0, |h|, k))
  {
    RowsInTwo(a, h, 0, i, |h|, k);
    RowsInTwo(a, h, i, i + 1, |h|, k);
    var said := Tag(MessageTexts(a, h[i], k), SourceId(h[i], i));
    assert RowsOf(a, h, i, i + 1, k) == [] + said == said;
    NormsInTwo(a, RowsOf(a, h, 0, i, k), RowsOf(a, h, i, |h|, k));
    NormsInTwo(a, said, RowsOf(a, h, i + 1, |h|, k));
    NormsOfTag(a, MessageTexts(a, h[i], k), SourceId(h[i], i), id);
  }

  /** Rows come only from user messages: the new ones from the messages read, the others from before. */
  lemma {:induction false} FillSourced(a: Analysis, limit: nat, b: Bucket, h: seq<Message>, from: nat, upto: nat, k: Kind)
    requires upto <= |h| && forall r :: r in b.rows ==> Said(a, h, k, r)
    ensures forall r :: r in Fill(a, limit, b, RowsOf(a, h, from, upto, k)).rows ==> Said(a, h, k, r)
    decreases upto
  {
    hide Offered, Said;
    if from < upto {
      FillSourced(a, limit, b, h, from, upto - 1, k);
      var earlier, last := RowsOf(a, h, from, upto - 1, k), Offered(a, h[upto - 1], upto - 1, k);
      FillInTwo(a, limit, b, earlier, last);
      OfferedIsSaid(a, h, upto - 1, k);
      FillKeeps(a, limit, Fill(a, limit, b, earlier), last, h, k);
    }
  }

  lemma OfferedIsSaid(a: Analysis, h: seq<Message>, i: nat, k: Kind)
    requires i < |h|
    ensures forall r :: r in Offered(a, h[i], i, k) ==> Said(a, h, k, Clip(r))
  {
    var offered := Offered(a, h[i], i, k);
    forall r | r in offered ensures Said(a, h, k, Clip(r)) {
      var j :| 0 <= j < |offered| && offered[j] == r;
      assert r == Row(MessageTexts(a, h[i], k)[j], SourceId(h[i], i));
    }
  }

  lemma {:induction false} FillKeeps(a: Analysis, limit: nat, b: Bucket, rs: seq<Row>, h: seq<Message>, k: Kind)
    requires forall r :: r in b.rows ==> Said(a, h, k, r)
    requires forall r :: r in rs ==> Said(a, h, k, Clip(r))
    ensures forall r :: r in Fill(a, limit, b, rs).rows ==> Said(a, h, k, r)
    decreases |rs|
  {
    hide Said;
    if rs != [] {
      FillKeeps(a, limit, b, rs[..|rs| - 1], h, k);
      var last := rs[|rs| - 1];
      assert last in rs;
    }
  }

  /** Exactly when resuming is right: whatever the conversation goes on to say, incremental equals one
    * pass, if and only if the prefix forgot nothing. */
  lemma SplitLawExactly(a: Analysis, limit: nat, h1: seq<Message>, k: Kind)
    requires limit >= 1
    ensures (forall h :: h1 <= h ==>
               Resumed(a, limit, OnePass(a, limit, h1, k).rows, h, |h1|, k).rows == OnePass(a, limit, h, k).rows)
            <==> Remembered(a, limit, h1, k)
  {
    hide Fill, Norms, Remembered, Resumed, OnePass;
    if Remembered(a, limit, h1, k) {
      forall h | h1 <= h
        ensures Resumed(a, limit, OnePass(a, limit, h1, k).rows, h, |h1|, k).rows == OnePass(a, limit, h, k).rows
      {
        SplitLaw(a, limit, h1, h, k);
      }
    } else {
      var m := ForgottenIsTakenAgain(a, limit, h1, k);
      assert h1 <= h1 + [m];
    }
  }

  lemma OnePassOfMore(a: Analysis, limit: nat, h: seq<Message>, more: seq<Message>, k: Kind)
    ensures OnePass(a, limit, h + more, k) == Fill(a, limit, OnePass(a, limit, h, k), RowsOf(a, h + more, |h|, |h + more|, k))
  {
    hide Fill;
    RowsOfPrefix(a, h, h + more, |h|, k);
    RowsInTwo(a, h + more, 0, |h|, |h + more|, k);
    FillInTwo(a, limit, NOTHING, RowsOf(a, h, 0, |h|, k), RowsOf(a, h + more, |h|, |h + more|, k));
  }

  /** Cached rows are taken up again as if they were those of the messages of `h`. Whatever follows, the resumed
    * rows are those of one pass if and only if what is recalled from the rows is where one pass over `h` ends:
    * the rows are those of one pass, and one pass forgot nothing. */
  lemma ResumedIsRightIff(a: Analysis, limit: nat, rows: seq<Row>, h: seq<Message>, k: Kind)
    requires limit >= 1
    ensures (forall more :: Resumed(a, limit, rows, h + more, |h|, k).rows == OnePass(a, limit, h + more, k).rows)
            <==> Recall(a, rows) == OnePass(a, limit, h, k)
    ensures Recall(a, rows) == OnePass(a, limit, h, k) <==> rows == OnePass(a, limit, h, k).rows && Remembered(a, limit, h, k)
  {
    hide Fill, Norms, RowsOf, OnePass;
    if Recall(a, rows) == OnePass(a, limit, h, k) {
      forall more ensures Resumed(a, limit, rows, h + more, |h|, k).rows == OnePass(a, limit, h + more, k).rows {
        OnePassOfMore(a, limit, h, more, k);
      }
    }
    if Recall(a, rows) != OnePass(a, limit, h, k) {
      ResumedAtOnce(a, limit, rows, h, k);
      assert h + [] == h;
      if rows == OnePass(a, limit, h, k).rows {
        var m := ForgottenIsTakenAgain(a, limit, h, k);
      }
    }
  }

  lemma ResumedAtOnce(a: Analysis, limit: nat, rows: seq<Row>, h: seq<Message>, k: Kind)
    ensures Resumed(a, limit, rows, h, |h|, k).rows == rows
  {
  }

  /** An eviction is always forgotten, and where every text fits in a row nothing else is. */
  lemma RememberedIffRoomy(a: Analysis, limit: nat, h: seq<Message>, k: Kind)
    ensures Remembered(a, limit, h, k) ==> |Norms(a, RowsOf(a, h, 0, |h|, k))| <= limit
    ensures (forall r :: r in RowsOf(a, h, 0, |h|, k) ==> |r.text| <= 1200) ==>
              (Remembered(a, limit, h, k) <==> |Norms(a, RowsOf(a, h, 0, |h|, k))| <= limit)
  {
    var offered := RowsOf(a, h, 0, |h|, k);
    FillSees(a, limit, NOTHING, offered);
    FillCounts(a, limit, offered);
    NormsAreNoMore(a, OnePass(a, limit, h, k).rows);
    if (forall r :: r in offered ==> |r.text| <= 1200) && |Norms(a, offered)| <= limit {
      RoomyIsRemembered(a, limit, offered);
    }
  }

  lemma {:induction false} RoomyIsRemembered(a: Analysis, limit: nat, rs: seq<Row>)
    requires (forall r :: r in rs ==> |r.text| <= 1200) && |Norms(a, rs)| <= limit
    ensures var b := Fill(a, limit, NOTHING, rs); b == Recall(a, b.rows)
    decreases |rs|
  {
    if rs != [] {
      var front, last := rs[..|rs| - 1], rs[|rs| - 1];
      assert last in rs && forall r :: r in front ==> r in rs;
      SubsetSize(Norms(a, front), Norms(a, rs));
      RoomyIsRemembered(a, limit, front);
      FillSees(a, limit, NOTHING, front);
      FillCounts(a, limit, front);
      var b := Fill(a, limit, NOTHING, front);
      NormsInTwo(a, b.rows, [last]);
      assert Clip(last) == last;
      assert [last][..0] == [];
    }
  }

  /* ---- The goal ---- */

  lemma {:induction false} GoalInTwo(goal: Option<Row>, h: seq<Message>, mid: nat, upto: nat)
    requires mid <= upto <= |h|
    ensures Goal(goal, h, 0, upto) == Goal(Goal(goal, h, 0, mid), h, mid, upto)
    decreases upto
  {
    hide GoalOf;
    if mid < upto {
      GoalInTwo(goal, h, mid, upto - 1);
    }
  }

  lemma {:induction false} GoalOfPrefix(h1: seq<Message>, h: seq<Message>, upto: nat)
    requires upto <= |h1| && h1 <= h
    ensures Goal(None, h1, 0, upto) == Goal(None, h, 0, upto)
    decreases upto
  {
    if upto > 0 {
      GoalOfPrefix(h1, h, upto - 1);
    }
  }

  /** The goal is what the first user message that says anything says. */
  lemma {:induction false} GoalIsFirst(h: seq<Message>, upto: nat)
    requires upto <= |h|
    ensures var g := Goal(None, h, 0, upto);
            if g.None? then forall i: nat :: i < upto ==> GoalOf(h[i], i).None?
            else exists i: nat :: i < upto && GoalOf(h[i], i) == g && forall j: nat :: j < i ==> GoalOf(h[j], j).None?
    decreases upto
  {
    hide GoalOf;
    if upto > 0 {
      GoalIsFirst(h, upto - 1);
      if Goal(None, h, 0, upto - 1).None? && GoalOf(h[upto - 1], upto - 1).Some? {
        assert GoalOf(h[upto - 1], upto - 1) == Goal(None, h, 0, upto);
      }
    }
  }

  /* ---- The cached task state ---- */

  const KINDS: set<Kind> := {Constraints, Decisions, Verified, Questions, Versions}

  lemma AllKinds()
    ensures forall k: Kind :: k in KINDS
  {
    forall k: Kind ensures k in KINDS {
      assert k == Constraints || k == Decisions || k == Verified || k == Questions || k == Versions;
    }
  }

  const EMPTY_STATE: State := State(None, map k | k in KINDS :: [])

  /** The state of one uncached pass over the whole history. */
  function FreshState(a: Analysis, limit: nat, h: seq<Message>): State {
    State(Goal(None, h, 0, |h|), map k | k in KINDS :: OnePass(a, limit, h, k).rows)
  }

  predicate Complete(st: State) { st.rows.Keys == KINDS }

  /** The state when `known` is taken for the state of the first `n` messages. */
  function ResumedState(a: Analysis, limit: nat, known: State, h: seq<Message>, n: nat): State
    requires Complete(known) && n <= |h|
  {
    State(Goal(known.goal, h, n, |h|), map k | k in KINDS :: Resumed(a, limit, known.rows[k], h, n, k).rows)
  }

  /** Exactly when a cached state is right for a history `h` that ends at its boundary, whatever it was made
    * from: resuming gives the state of one pass, however the conversation goes on, if and only if the goal and
    * the rows of every kind are those of one pass over `h`, and that pass forgot nothing. */
  lemma StaleStateIsRightIff(a: Analysis, limit: nat, known: State, h: seq<Message>)
    requires limit >= 1 && Complete(known)
    ensures (forall more :: ResumedState(a, limit, known, h + more, |h|) == FreshState(a, limit, h + more))
            <==> known == FreshState(a, limit, h) && forall k: Kind :: Remembered(a, limit, h, k)
  {
    hide Goal, Recall, Resumed, OnePass, Remembered;
    AllKinds();
    if known == FreshState(a, limit, h) && forall k: Kind :: Remembered(a, limit, h, k) {
      forall more ensures ResumedState(a, limit, known, h + more, |h|) == FreshState(a, limit, h + more) {
        GoalOfMore(h, more);
        forall k: Kind ensures Resumed(a, limit, known.rows[k], h + more, |h|, k).rows == OnePass(a, limit, h + more, k).rows {
          ResumedIsRightIff(a, limit, known.rows[k], h, k);
        }
      }
    } else {
      assert h + [] == h;
      if known == FreshState(a, limit, h) {
        var k: Kind :| !Remembered(a, limit, h, k);
        ResumedIsRightIff(a, limit, known.rows[k], h, k);
        var more :| Resumed(a, limit, known.rows[k], h + more, |h|, k).rows != OnePass(a, limit, h + more, k).rows;
        RowsDiffer(a, limit, known, h + more, |h|, k);
      } else {
        SameAtOnce(a, limit, known, h);
      }
    }
  }

  lemma RowsDiffer(a: Analysis, limit: nat, known: State, h: seq<Message>, n: nat, k: Kind)
    requires Complete(known) && n <= |h| && k in known.rows
    requires Resumed(a, limit, known.rows[k], h, n, k).rows != OnePass(a, limit, h, k).rows
    ensures ResumedState(a, limit, known, h, n) != FreshState(a, limit, h)
  {
    hide Resumed, OnePass, Goal;
    assert ResumedState(a, limit, known, h, n).rows[k] != FreshState(a, limit, h).rows[k];
  }

  lemma SameAtOnce(a: Analysis, limit: nat, known: State, h: seq<Message>)
    requires Complete(known)
    ensures ResumedState(a, limit, known, h, |h|) == known
  {
    forall k | k in KINDS { ResumedAtOnce(a, limit, known.rows[k], h, k); }
  }

  lemma GoalOfMore(h: seq<Message>, more: seq<Message>)
    ensures Goal(None, h + more, 0, |h + more|) == Goal(Goal(None, h, 0, |h|), h + more, |h|, |h + more|)
  {
    GoalOfPrefix(h, h + more, |h|);
    GoalInTwo(None, h + more, |h|, |h + more|);
  }

  /** What the state of one pass says of a kind of which no more different things were said than there are rows,
    * each in at most 1200 characters: exactly the normal forms of what the user messages say, each once, in the
    * words of a message that says it. */
  lemma FreshStateSays(a: Analysis, limit: nat, h: seq<Message>, k: Kind, norms: set<string>)
    requires forall n :: n in norms <==> Told(a, h, k, n)
    requires |norms| <= limit && forall i: nat, text :: i < |h| && Tells(a, h[i], k, text) ==> |text| <= 1200
    ensures k in FreshState(a, limit, h).rows && |FreshState(a, limit, h).rows[k]| == |norms|
    ensures forall n :: n in norms <==> exists r :: r in FreshState(a, limit, h).rows[k] && a.normal(r.text) == n
    ensures forall r :: r in FreshState(a, limit, h).rows[k] ==>
              exists i: nat :: i < |h| && Tells(a, h[i], k, r.text) && r.source == SourceId(h[i], i)
  {
    hide Tells, Told, SourceId, Fill, Norms, RowsOf, MessageTexts, Remembered;
    AllKinds();
    var offered, rows := RowsOf(a, h, 0, |h|, k), OnePass(a, limit, h, k).rows;
    forall n ensures n in Norms(a, offered) <==> n in norms { OfferedNorms(a, h, k, n); }
    assert Norms(a, offered) == norms;
    forall r | r in offered ensures |r.text| <= 1200 { RowOfferedIff(a, h, |h|, k, r); }
    RoomyIsRemembered(a, limit, offered);
    FillSees(a, limit, NOTHING, offered);
    FillCounts(a, limit, offered);
    assert Norms(a, rows) == norms;
    forall n ensures n in norms <==> exists r :: r in rows && a.normal(r.text) == n { NormsIff(a, rows, n); }
    forall r | r in rows ensures exists i: nat :: i < |h| && Tells(a, h[i], k, r.text) && r.source == SourceId(h[i], i) {
      FillTakes(a, limit, offered, r);
      var o :| o in offered && r == Clip(o);
      RowOfferedIff(a, h, |h|, k, o);
    }
  }

  lemma {:induction false} FillTakes(a: Analysis, limit: nat, rs: seq<Row>, r: Row)
    requires r in Fill(a, limit, NOTHING, rs).rows
    ensures exists o :: o in rs && r == Clip(o)
    decreases |rs|
  {
    hide Norms;
    var front, last := rs[..|rs| - 1], rs[|rs| - 1];
    if r in Fill(a, limit, NOTHING, front).rows {
      FillTakes(a, limit, front, r);
      var o :| o in front && r == Clip(o);
      assert o in rs;
    } else {
      assert last in rs;
    }
  }

  /** Every row is the first 1200 characters of what some user message says of its kind, with its id. */
  lemma FreshRowsSay(a: Analysis, limit: nat, h: seq<Message>, k: Kind)
    ensures k in FreshState(a, limit, h).rows && |FreshState(a, limit, h).rows[k]| <= limit
    ensures forall r :: r in FreshState(a, limit, h).rows[k] ==>
              exists i: nat, text :: i < |h| && Tells(a, h[i], k, text) && r.source == SourceId(h[i], i)
                && r.text == if |text| <= 1200 then text else text[..1200]
  {
    hide Tells, SourceId, Fill, RowsOf, MessageTexts;
    AllKinds();
    FillIsBounded(a, limit, NOTHING, RowsOf(a, h, 0, |h|, k));
    FillSourced(a, limit, NOTHING, h, 0, |h|, k);
    forall r | r in OnePass(a, limit, h, k).rows
      ensures exists i: nat, text :: i < |h| && Tells(a, h[i], k, text) && r.source == SourceId(h[i], i)
                && r.text == if |text| <= 1200 then text else text[..1200]
    {
      assert Said(a, h, k, r);
      var i: nat, text :| i < |h| && h[i].role == "user" && text in MessageTexts(a, h[i], k) && r == Clip(Row(text, SourceId(h[i], i)));
      OfferedIff(a, h[i], k, text);
    }
  }

  /** The goal of the state of one pass: the stripped content of the first user message that is not blank, cut at
    * 1200 characters, and the message's id. */
  lemma FreshGoalSays(a: Analysis, limit: nat, h: seq<Message>)
    ensures var goal := FreshState(a, limit, h).goal;
            if goal.None? then forall i: nat :: i < |h| ==> !SaysAnything(h[i])
            else exists i: nat :: i < |h| && SaysAnything(h[i]) && (forall j: nat :: j < i ==> !SaysAnything(h[j]))
                   && goal.value.source == SourceId(h[i], i) && goal.value.text <= Strip(h[i].content)
                   && |goal.value.text| == Min(1200, |Strip(h[i].content)|)
  {
    hide SaysAnything, SourceId;
    GoalIsFirst(h, |h|);
    forall i: nat | i < |h| ensures GoalOf(h[i], i).Some? <==> SaysAnything(h[i]) { GoalOfIff(h[i], i); }
  }

  predicate SaysAnything(m: Message) { m.role == "user" && exists i :: 0 <= i < |m.content| && !IsSpace(m.content[i]) }

  lemma GoalOfIff(m: Message, i: nat)
    ensures GoalOf(m, i).Some? <==> SaysAnything(m)
  {
    hide IsSpace;
    BlankIff(m.content);
  }

  /** A state made in one pass over `was` and taken for a state of `h` after an edit that went unnoticed: it
    * stays right exactly if the two passes end in the same state, and the one over `h` forgot nothing. */
  lemma EditIsHarmlessIff(a: Analysis, limit: nat, was: seq<Message>, h: seq<Message>)
    requires limit >= 1
    ensures (forall more :: ResumedState(a, limit, FreshState(a, limit, was), h + more, |h|) == FreshState(a, limit, h + more))
            <==> FreshState(a, limit, was) == FreshState(a, limit, h) && forall k: Kind :: Remembered(a, limit, h, k)
  {
    StaleStateIsRightIff(a, limit, FreshState(a, limit, was), h);
  }

  ghost predicate RowsFit(a: Analysis, limit: nat, h: seq<Message>, k: Kind, st: State) {
    && k in st.rows && |st.rows[k]| <= limit
    && (forall r :: r in st.rows[k] ==> Said(a, h, k, r))
    && (Roomy(a, limit, h, k) ==> st.rows[k] == OnePass(a, limit, h, k).rows)
  }

  /** What holds of a state however often its computation was resumed: the goal is the goal, no list
    * outgrows its limit, every row was said by a user, and where there was room nothing differs from one
    * pass. */
  ghost predicate StateOf(a: Analysis, limit: nat, h: seq<Message>, st: State) {
    st.goal == Goal(None, h, 0, |h|) && forall k {:trigger RowsFit(a, limit, h, k, st)} :: RowsFit(a, limit, h, k, st)
  }

  lemma RoomyPrefix(a: Analysis, limit: nat, h1: seq<Message>, h: seq<Message>, k: Kind)
    requires h1 <= h && Roomy(a, limit, h, k)
    ensures Roomy(a, limit, h1, k)
  {
    var xs, ys := RowsOf(a, h, 0, |h1|, k), RowsOf(a, h, |h1|, |h|, k);
    RowsOfPrefix(a, h1, h, |h1|, k);
    RowsInTwo(a, h, 0, |h1|, |h|, k);
    NormsInTwo(a, xs, ys);
    SubsetSize(Norms(a, xs), Norms(a, xs + ys));
    assert forall r :: r in xs ==> r in xs + ys;
  }

  /** One resumption keeps what holds of the state it starts from. */
  lemma ResumedFits(a: Analysis, limit: nat, h1: seq<Message>, h: seq<Message>, k: Kind, st: State, rows: seq<Row>)
    requires h1 <= h && RowsFit(a, limit, h1, k, st) && rows == Resumed(a, limit, st.rows[k], h, |h1|, k).rows
    ensures |rows| <= limit && forall r :: r in rows ==> Said(a, h, k, r)
    ensures Roomy(a, limit, h1, k) ==> rows == OnePass(a, limit, h, k).rows
    ensures Roomy(a, limit, h, k) ==> rows == OnePass(a, limit, h, k).rows
  {
    hide Fill, RowsOf, Norms, Roomy, Said, OnePass;
    FillIsBounded(a, limit, Recall(a, st.rows[k]), RowsOf(a, h, |h1|, |h|, k));
    forall r | r in st.rows[k] ensures Said(a, h, k, r) { SaidInPrefix(a, h1, h, k, r); }
    FillSourced(a, limit, Recall(a, st.rows[k]), h, |h1|, |h|, k);
    if Roomy(a, limit, h, k) {
      RoomyPrefix(a, limit, h1, h, k);
    }
    if Roomy(a, limit, h1, k) {
      RoomyMeansRemembered(a, limit, h1, k);
      SplitLaw(a, limit, h1, h, k);
    }
  }

  lemma SaidInPrefix(a: Analysis, h1: seq<Message>, h: seq<Message>, k: Kind, r: Row)
    requires h1 <= h && Said(a, h1, k, r)
    ensures Said(a, h, k, r)
  {
    var i: nat, text :|
      i < |h1| && h1[i].role == "user" && text in MessageTexts(a, h1[i], k) && r == Clip(Row(text, SourceId(h1[i], i)));
    assert h[i] == h1[i];
  }

  lemma RoomyMeansRemembered(a: Analysis, limit: nat, h: seq<Message>, k: Kind)
    requires Roomy(a, limit, h, k)
    ensures Remembered(a, limit, h, k)
  {
    RememberedIffRoomy(a, limit, h, k);
  }

  lemma EmptyStateFits(a: Analysis, limit: nat)
    ensures StateOf(a, limit, [], EMPTY_STATE)
  {
    AllKinds();
    forall k ensures RowsFit(a, limit, [], k, EMPTY_STATE) {}
  }

  lemma EmptyIsFresh(a: Analysis, limit: nat, h: seq<Message>)
    ensures forall k :: k in EMPTY_STATE.rows && Resumed(a, limit, EMPTY_STATE.rows[k], h, 0, k) == OnePass(a, limit, h, k)
    ensures h == [] ==> forall k :: EMPTY_STATE.rows[k] == OnePass(a, limit, h, k).rows
  {
    AllKinds();
    assert Recall(a, []) == NOTHING;
  }

  lemma TagInTwo(xs: seq<string>, ys: seq<string>, source: string)
    ensures Tag(xs + ys, source) == Tag(xs, source) + Tag(ys, source)
  {
  }

  class TaskStates {
    const a: Analysis
    const limit: nat
    const cache: Cache<State>

    constructor (a: Analysis, itemsPerKind: int, cacheLimit: int)
      ensures Valid() && fresh(cache) && this.a == a && limit == Max(2, itemsPerKind) && cache.built == map[]
    {
      this.a := a;
      limit := Max(2, itemsPerKind);
      cache := new Cache(cacheLimit);
    }

    ghost predicate Valid()
      reads this, cache
    {
      && cache.Valid() && limit >= 2
      && forall k {:trigger cache.entries[k]} :: k in cache.entries ==> StateOf(a, limit, cache.built[k], cache.entries[k].value)
    }

    /** What is cached for this conversation comes from a history this one agrees with. */
    ghost predicate Continues(h: seq<Message>)
      requires cache.Valid()
      reads this, cache
    {
      CacheKey(h) in cache.built ==> Coherent(cache.built[CacheKey(h)], h)
    }

    method AppendUnique(buckets: map<Kind, Bucket>, k: Kind, text: string, source: string) returns (out: map<Kind, Bucket>)
      requires k in buckets
      ensures out == buckets[k := Accept(a, limit, buckets[k], Row(text, source))]
    {
      out := buckets;
      if a.normal(text) in buckets[k].seen {
        return;
      }
      var rows := buckets[k].rows + [Row(Take(text, 1200), source)];
      if |rows| > limit {
        rows := rows[1..];
      }
      out := out[k := Bucket(rows, buckets[k].seen + {a.normal(text)})];
    }

    /** The four kinds recognised by their markers. */
    method AddMarked(buckets: map<Kind, Bucket>, s: string, source: string) returns (out: map<Kind, Bucket>)
      requires a.normal(s) != "" && forall k: Kind :: k in buckets
      ensures forall k: Kind :: k in out
      ensures out[Versions] == buckets[Versions]
      ensures forall k :: k != Versions ==> out[k] == if Speaks(a, s, k) then Accept(a, limit, buckets[k], Row(s, source)) else buckets[k]
    {
      hide Accept;
      out := buckets;
      var normal := a.normal(s);
      if a.marked(Constraints, normal) {
        out := AppendUnique(out, Constraints, s, source);
      }
      if a.marked(Decisions, normal) {
        out := AppendUnique(out, Decisions, s, source);
      }
      if a.marked(Verified, normal) {
        out := AppendUnique(out, Verified, s, source);
      }
      if Asks(s) || a.marked(Questions, normal) {
        out := AppendUnique(out, Questions, s, source);
      }
    }

    method AddVersions(buckets: map<Kind, Bucket>, versions: seq<string>, source: string) returns (out: map<Kind, Bucket>)
      requires Versions in buckets
      ensures out == buckets[Versions := Fill(a, limit, buckets[Versions], Tag(versions, source))]
    {
      hide Accept;
      out := buckets;
      ghost var tagged := Tag(versions, source);
      for i := 0 to |versions|
        invariant out == buckets[Versions := Fill(a, limit, buckets[Versions], tagged[..i])]
      {
        out := AppendUnique(out, Versions, versions[i], source);
        assert tagged[..i + 1][..i] == tagged[..i];
      }
      assert tagged[..|versions|] == tagged;
    }

    method AddSentence(buckets: map<Kind, Bucket>, s: string, source: string) returns (out: map<Kind, Bucket>)
      requires forall k: Kind :: k in buckets
      ensures forall k: Kind :: k in out && out[k] == Fill(a, limit, buckets[k], Tag(SentenceTexts(a, s, k), source))
    {
      hide Accept, Fill;
      out := buckets;
      FillOfNone(a, limit);
      if a.normal(s) != "" {
        out := AddMarked(out, s, source);
        out := AddVersions(out, a.versions(s), source);
        forall k: Kind | k != Versions ensures out[k] == Fill(a, limit, buckets[k], Tag(SentenceTexts(a, s, k), source)) {
          FillOfSentence(a, limit, buckets[k], s, source, k);
        }
      }
    }

    method AddMessage(buckets: map<Kind, Bucket>, known: Option<Row>, m: Message, index: nat)
      returns (out: map<Kind, Bucket>, goal: Option<Row>)
      requires forall k: Kind :: k in buckets
      ensures forall k: Kind :: k in out && out[k] == Fill(a, limit, buckets[k], Offered(a, m, index, k))
      ensures goal == if known.Some? then known else GoalOf(m, index)
    {
      out, goal := buckets, known;
      if m.role != "user" {
        return;
      }
      var source := SourceId(m, index);
      if goal.None? && Strip(m.content) != "" {
        goal := Some(Row(Take(Strip(m.content), 1200), source));
      }
      var sentences := a.sentences(Take(m.content, 12000));
      for i := 0 to |sentences|
        invariant forall k: Kind :: k in out && out[k] == Fill(a, limit, buckets[k], Tag(TextsOf(a, sentences[..i], k), source))
      {
        ghost var before := out;
        out := AddSentence(out, sentences[i], source);
        forall k: Kind
          ensures out[k] == Fill(a, limit, buckets[k], Tag(TextsOf(a, sentences[..i + 1], k), source))
        {
          OneMoreSentence(a, limit, buckets[k], sentences, i, source, k);
        }
      }
      assert sentences[..|sentences|] == sentences;
    }

    /** Where to start: at the boundary of a valid cached state, or from nothing. `h1` is what that state
      * is a state of. */
    method Known(h: seq<Message>) returns (start: nat, known: State, hit: bool, ghost h1: seq<Message>)
      requires Valid()
      modifies cache
      ensures Valid() && start == |h1| <= |h| && StateOf(a, limit, h1, known) && old(cache.Effective(h)) == Spliced(h1, h)
      ensures hit ==> CacheKey(h) in old(cache.entries) && old(cache.built)[CacheKey(h)] == h1
                      && known == old(cache.entries)[CacheKey(h)].value
      ensures !hit ==> known == EMPTY_STATE && h1 == []
      ensures hit <==> CacheKey(h) in old(cache.entries)
                       && PrefixValid(old(cache.entries)[CacheKey(h)].processed, old(cache.entries)[CacheKey(h)].last, h)
      ensures forall k :: k in cache.built ==> k in old(cache.built) && cache.built[k] == old(cache.built)[k]
    {
      hide StateOf, SourceId, Without, Newest;
      EmptyStateFits(a, limit);
      assert CacheKey(h) in cache.entries ==> cache.EntryFits(CacheKey(h));
      start, known, hit, h1 := 0, EMPTY_STATE, false, [];
      if CacheKey(h) != "" {
        var entry := cache.Lookup(h);
        if entry.Some? {
          h1 := old(cache.built)[CacheKey(h)];
          start, known, hit := entry.value.processed, entry.value.value, true;
        }
      }
      assert [] + h[0..] == h;
    }

    /** `_task_state`: resumed from the cached state if there is a valid one, computed from the start
      * otherwise. */
    method TaskState(h: seq<Message>) returns (state: State, hit: bool)
      requires Valid()
      modifies cache
      ensures Valid() && StateOf(a, limit, old(cache.Effective(h)), state)
      ensures old(Continues(h)) ==> StateOf(a, limit, h, state)
      ensures hit ==> CacheKey(h) in old(cache.entries) && |old(cache.built)[CacheKey(h)]| <= |h|
                      && Complete(old(cache.entries)[CacheKey(h)].value) && Complete(state)
                      && state == ResumedState(a, limit, old(cache.entries)[CacheKey(h)].value, h, |old(cache.built)[CacheKey(h)]|)
                      && forall k: Kind ::
                           k in state.rows && (Roomy(a, limit, old(cache.built)[CacheKey(h)], k) ==>
                                                 state.rows[k] == OnePass(a, limit, old(cache.Effective(h)), k).rows)
      ensures !hit ==> state == FreshState(a, limit, h)
      ensures CacheKey(h) != "" ==> CacheKey(h) in cache.entries && cache.entries[CacheKey(h)].value == state
      ensures forall k :: k in cache.built ==>
                (k in old(cache.built) && cache.built[k] == old(cache.built)[k]) || cache.built[k] == old(cache.Effective(h))
    {
      hide StateOf, OnePass, Resumed, RowsFit, Fill, RowsOf, Roomy, Without, Newest, SourceId, Spliced, Complete, ResumedState, FreshState, Goal;
      if Continues(h) {
        cache.CoherentEffective(h);
      }
      EmptyStateFits(a, limit);
      EmptyIsFresh(a, limit, h);
      if h == [] {
        assert CacheKey(h) in cache.entries ==> cache.EntryFits(CacheKey(h));
        NothingIsFresh(a, limit);
        return EMPTY_STATE, false;
      }
      if CacheKey(h) != "" {
        cache.EffectiveFits(h);
      }
      var start, known;
      ghost var h1;
      start, known, hit, h1 := Known(h);
      state := Continue(h, h1, start, known);
      if !hit {
        EmptyResumed(a, limit, h);
      }
      if CacheKey(h) != "" {
        cache.Store(h, state, old(cache.Effective(h)));
      }
    }

    /** What a cached state is worth for a history that ends at its boundary: every continuation finds it valid,
      * and every state that is resumed from it is the one of one pass exactly under this condition. */
    lemma StaleEntryIsRightIff(h: seq<Message>)
      requires Valid() && CacheKey(h) in cache.entries
      requires var entry := cache.entries[CacheKey(h)]; entry.processed == |h| && PrefixValid(entry.processed, entry.last, h)
      ensures var entry := cache.entries[CacheKey(h)];
              && Complete(entry.value)
              && (forall more :: CacheKey(h + more) == CacheKey(h) && PrefixValid(entry.processed, entry.last, h + more))
              && ((forall more :: ResumedState(a, limit, entry.value, h + more, |h|) == FreshState(a, limit, h + more))
                  <==> entry.value == FreshState(a, limit, h) && forall k: Kind :: Remembered(a, limit, h, k))
    {
      hide StateOf, ResumedState, FreshState, Remembered, Complete;
      var entry := cache.entries[CacheKey(h)];
      assert cache.EntryFits(CacheKey(h));
      StateIsComplete(a, limit, cache.built[CacheKey(h)], entry.value);
      StaleStateIsRightIff(a, limit, entry.value, h);
      forall more ensures CacheKey(h + more) == CacheKey(h) && PrefixValid(entry.processed, entry.last, h + more) {
        assert (h + more)[0] == h[0] && (h + more)[|h| - 1] == h[|h| - 1];
      }
    }

    /** Fold the messages from place `start` on into a state of the messages before it. */
    method Continue(h: seq<Message>, ghost h1: seq<Message>, start: nat, known: State) returns (state: State)
      requires start == |h1| <= |h| && StateOf(a, limit, h1, known)
      ensures StateOf(a, limit, Spliced(h1, h), state) && Complete(known) && Complete(state)
      ensures state == ResumedState(a, limit, known, h, start)
      ensures forall k: Kind :: k in state.rows
      ensures forall k: Kind :: Roomy(a, limit, h1, k) ==> state.rows[k] == OnePass(a, limit, Spliced(h1, h), k).rows
    {
      hide Fill, Norms, Said, Roomy, Offered, GoalOf, OnePass;
      AllKinds();
      forall k: Kind ensures k in known.rows { assert RowsFit(a, limit, h1, k, known); }
      var buckets := map k | k in KINDS :: Recall(a, known.rows[k]);
      var goal := known.goal;
      FillOfNone(a, limit);
      for index := start to |h|
        invariant forall k: Kind :: k in buckets && buckets[k] == Fill(a, limit, Recall(a, known.rows[k]), RowsOf(a, h, start, index, k))
        invariant goal == Goal(known.goal, h, start, index)
      {
        ghost var before := buckets;
        buckets, goal := AddMessage(buckets, goal, h[index], index);
        forall k: Kind
          ensures buckets[k] == Fill(a, limit, Recall(a, known.rows[k]), RowsOf(a, h, start, index + 1, k))
        {
          FillInTwo(a, limit, Recall(a, known.rows[k]), RowsOf(a, h, start, index, k), Offered(a, h[index], index, k));
        }
      }
      state := State(goal, map k | k in KINDS :: buckets[k].rows);
      AreResumed(a, limit, known, h, start, state);
      SplicedSame(a, limit, h1, h, known);
      ContinuedFits(a, limit, h1, Spliced(h1, h), known, state);
    }
  }

  lemma AreResumed(a: Analysis, limit: nat, known: State, h: seq<Message>, n: nat, state: State)
    requires n <= |h| && forall k: Kind :: k in known.rows && k in state.rows
    requires state.goal == Goal(known.goal, h, n, |h|)
    requires forall k: Kind :: state.rows[k] == Resumed(a, limit, known.rows[k], h, n, k).rows
    ensures Complete(known) && Complete(state) && state == ResumedState(a, limit, known, h, n)
  {
    hide Goal, Resumed;
    AllKinds();
  }

  lemma EmptyResumed(a: Analysis, limit: nat, h: seq<Message>)
    ensures Complete(EMPTY_STATE) && ResumedState(a, limit, EMPTY_STATE, h, 0) == FreshState(a, limit, h)
  {
    hide Goal, Resumed, OnePass;
    AllKinds();
    EmptyIsFresh(a, limit, h);
  }

  lemma NothingIsFresh(a: Analysis, limit: nat)
    ensures EMPTY_STATE == FreshState(a, limit, [])
  {
    hide OnePass;
    AllKinds();
    EmptyIsFresh(a, limit, []);
  }

  lemma StateIsComplete(a: Analysis, limit: nat, h: seq<Message>, st: State)
    requires StateOf(a, limit, h, st)
    ensures Complete(st)
  {
    AllKinds();
    forall k: Kind ensures k in st.rows { assert RowsFit(a, limit, h, k, st); }
  }

  /** The messages above the boundary are the same in the splice. */
  lemma SplicedSame(a: Analysis, limit: nat, h1: seq<Message>, h: seq<Message>, known: State)
    requires |h1| <= |h|
    ensures var s := Spliced(h1, h);
            && h1 <= s && |s| == |h| && Goal(known.goal, s, |h1|, |s|) == Goal(known.goal, h, |h1|, |h|)
            && forall k: Kind :: k in known.rows ==>
                 Resumed(a, limit, known.rows[k], s, |h1|, k) == Resumed(a, limit, known.rows[k], h, |h1|, k)
  {
    hide Fill, Norms;
    GoalAbove(known.goal, Spliced(h1, h), h, |h1|, |h|);
    forall k: Kind { RowsAbove(a, Spliced(h1, h), h, |h1|, |h|, k); }
  }

  lemma {:induction false} RowsAbove(a: Analysis, x: seq<Message>, y: seq<Message>, from: nat, upto: nat, k: Kind)
    requires from <= |x| == |y| && upto <= |x| && x[from..] == y[from..]
    ensures RowsOf(a, x, from, upto, k) == RowsOf(a, y, from, upto, k)
    decreases upto
  {
    hide Offered;
    if from < upto {
      RowsAbove(a, x, y, from, upto - 1, k);
      assert x[upto - 1] == x[from..][upto - 1 - from] == y[upto - 1];
    }
  }

  lemma {:induction false} GoalAbove(goal: Option<Row>, x: seq<Message>, y: seq<Message>, from: nat, upto: nat)
    requires from <= |x| == |y| && upto <= |x| && x[from..] == y[from..]
    ensures Goal(goal, x, from, upto) == Goal(goal, y, from, upto)
    decreases upto
  {
    hide GoalOf;
    if from < upto {
      GoalAbove(goal, x, y, from, upto - 1);
      assert x[upto - 1] == x[from..][upto - 1 - from] == y[upto - 1];
    }
  }

  lemma ContinuedFits(a: Analysis, limit: nat, h1: seq<Message>, h: seq<Message>, known: State, state: State)
    requires h1 <= h && StateOf(a, limit, h1, known) && state.goal == Goal(known.goal, h, |h1|, |h|)
    requires forall k: Kind :: k in known.rows && k in state.rows
    requires forall k: Kind :: state.rows[k] == Resumed(a, limit, known.rows[k], h, |h1|, k).rows
    ensures StateOf(a, limit, h, state)
    ensures forall k: Kind :: Roomy(a, limit, h1, k) ==> state.rows[k] == OnePass(a, limit, h, k).rows
  {
    hide Resumed, OnePass, Roomy, Said, GoalOf;
    GoalOfPrefix(h1, h, |h1|);
    GoalInTwo(None, h, |h1|, |h|);
    forall k ensures RowsFit(a, limit, h, k, state) && (Roomy(a, limit, h1, k) ==> state.rows[k] == OnePass(a, limit, h, k).rows) {
      assert RowsFit(a, limit, h1, k, known);
      ResumedFits(a, limit, h1, h, k, known, state.rows[k]);
    }
  }

  lemma FillOfNone(a: Analysis, limit: nat)
    ensures forall b :: Fill(a, limit, b, []) == b
  {
  }

  lemma FillOfSentence(a: Analysis, limit: nat, b: Bucket, s: string, source: string, k: Kind)
    requires a.normal(s) != "" && k != Versions
    ensures Fill(a, limit, b, Tag(SentenceTexts(a, s, k), source)) == if Speaks(a, s, k) then Accept(a, limit, b, Row(s, source)) else b
  {
    if Speaks(a, s, k) {
      assert Tag([s], source) == [Row(s, source)];
      assert [Row(s, source)][..0] == [];
    }
  }

  lemma OneMoreSentence(a: Analysis, limit: nat, b: Bucket, sentences: seq<string>, i: nat, source: string, k: Kind)
    requires i < |sentences|
    ensures Fill(a, limit, Fill(a, limit, b, Tag(TextsOf(a, sentences[..i], k), source)), Tag(SentenceTexts(a, sentences[i], k), source))
         == Fill(a, limit, b, Tag(TextsOf(a, sentences[..i + 1], k), source))
  {
    assert sentences[..i + 1][..i] == sentences[..i];
    TagInTwo(TextsOf(a, sentences[..i], k), SentenceTexts(a, sentences[i], k), source);
    FillInTwo(a, limit, b, Tag(TextsOf(a, sentences[..i], k), source), Tag(SentenceTexts(a, sentences[i], k), source));
  }

  /** Any sequence of turns over any conversations: every state is a state of its history, whatever was
    * resumed, replaced or evicted before. */
  method StateAll(states: TaskStates, turns: seq<seq<Message>>) returns (answers: seq<State>)
    requires states.Valid() && states.cache.built == map[]
    requires forall i, j :: 0 <= i < j < |turns| ==> Coherent(turns[i], turns[j])
    modifies states.cache
    ensures |answers| == |turns| && forall i :: 0 <= i < |turns| ==> StateOf(states.a, states.limit, turns[i], answers[i])
  {
    hide StateOf, Coherent, OnePass, Resumed, Roomy;
    answers := [];
    for n := 0 to |turns|
      invariant states.Valid() && |answers| == n
      invariant forall i :: 0 <= i < n ==> StateOf(states.a, states.limit, turns[i], answers[i])
      invariant forall k :: k in states.cache.built ==> states.cache.built[k] in turns[..n]
    {
      ghost var before := states.cache.built;
      states.cache.CoherentEffective(turns[n]);
      assert turns[..n + 1] == turns[..n] + [turns[n]];
      var answer, _ := states.TaskState(turns[n]);
      answers := answers + [answer];
    }
  }

  /** A sentence that the analysis takes as one constraint. */
  ghost predicate IsConstraint(a: Analysis, text: string) {
    0 < |text| <= 1200 && a.normal(text) != "" && a.sentences(text) == [text] && a.marked(Constraints, a.normal(text))
  }

  /** An evicted constraint that is repeated is new to the resumed state and old to one pass: with room
    * for two, the resumed state ends with it and one pass does not. */
  lemma EvictedRowComesBack(a: Analysis, x: string, y: string, z: string)
    requires IsConstraint(a, x) && IsConstraint(a, y) && IsConstraint(a, z)
    requires a.normal(x) != a.normal(y) && a.normal(y) != a.normal(z) && a.normal(x) != a.normal(z)
    ensures var h1 := [Message("1", "user", x), Message("2", "user", y), Message("3", "user", z)];
            var h := h1 + [Message("4", "user", x)];
            && OnePass(a, 2, h, Constraints).rows == [Row(y, "2"), Row(z, "3")]
            && Resumed(a, 2, OnePass(a, 2, h1, Constraints).rows, h, 3, Constraints).rows == [Row(z, "3"), Row(x, "4")]
  {
    hide Fill, Accept, Offered, Norms, IsConstraint;
    var h1 := [Message("1", "user", x), Message("2", "user", y), Message("3", "user", z)];
    var h := h1 + [Message("4", "user", x)];
    var rx, ry, rz, again := Row(x, "1"), Row(y, "2"), Row(z, "3"), Row(x, "4");
    forall i: nat | i < 4 ensures Offered(a, h[i], i, Constraints) == [Row(h[i].content, h[i].id)] {
      OneConstraint(a, h[i], i);
    }
    assert RowsOf(a, h, 0, 0, Constraints) == [];
    assert RowsOf(a, h, 0, 3, Constraints) == [rx] + [ry] + [rz];
    assert RowsOf(a, h, 3, 4, Constraints) == [again];
    RowsOfPrefix(a, h1, h, 3, Constraints);
    RowsInTwo(a, h, 0, 3, 4, Constraints);
    FillInTwo(a, 2, NOTHING, [rx] + [ry], [rz]);
    FillInTwo(a, 2, NOTHING, [rx], [ry]);
    FillInTwo(a, 2, NOTHING, [rx] + [ry] + [rz], [again]);
    ThreeThenAgain(a, rx, ry, rz, again);
  }

  lemma ThreeThenAgain(a: Analysis, rx: Row, ry: Row, rz: Row, again: Row)
    requires IsConstraint(a, rx.text) && IsConstraint(a, ry.text) && IsConstraint(a, rz.text) && again.text == rx.text
    requires a.normal(rx.text) != a.normal(ry.text) && a.normal(ry.text) != a.normal(rz.text) && a.normal(rx.text) != a.normal(rz.text)
    ensures var b := Fill(a, 2, Fill(a, 2, Fill(a, 2, NOTHING, [rx]), [ry]), [rz]);
            b.rows == [ry, rz] && Fill(a, 2, b, [again]) == b && Fill(a, 2, Recall(a, b.rows), [again]).rows == [rz, again]
  {
    hide Accept, Fill, Norms;
    var x, y, z := a.normal(rx.text), a.normal(ry.text), a.normal(rz.text);
    var b1, b2, b3 := Bucket([rx], {x}), Bucket([rx, ry], {x, y}), Bucket([ry, rz], {x, y, z});
    assert NOTHING.seen + {x} == {x} && {x} + {y} == {x, y} && {x, y} + {z} == {x, y, z};
    assert NOTHING.rows + [rx] == [rx] && [rx] + [ry] == [rx, ry] && ([rx, ry] + [rz])[1..] == [ry, rz];
    FillNew(a, 2, NOTHING, rx);
    FillNew(a, 2, b1, ry);
    FillNew(a, 2, b2, rz);
    NormsInTwo(a, [ry], [rz]);
    NormsOfOne(a, ry);
    NormsOfOne(a, rz);
    assert [ry] + [rz] == [ry, rz] && {y} + {z} == {y, z};
    FillNew(a, 2, Recall(a, [ry, rz]), again);
    FillOld(a, 2, b3, again);
  }

  lemma NormsOfOne(a: Analysis, r: Row)
    ensures Norms(a, [r]) == {a.normal(r.text)}
  {
    var rs := [r];
    assert rs[..|rs| - 1] == [] && Norms(a, []) == {};
    assert Norms(a, rs) == Norms(a, rs[..|rs| - 1]) + {a.normal(r.text)};
  }

  lemma FillNew(a: Analysis, limit: nat, b: Bucket, r: Row)
    requires a.normal(r.text) !in b.seen && |r.text| <= 1200
    ensures var rows := b.rows + [r];
            Fill(a, limit, b, [r]) == Bucket(if |rows| > limit then rows[1..] else rows, b.seen + {a.normal(r.text)})
  {
    assert [r][..0] == [];
  }

  lemma FillOld(a: Analysis, limit: nat, b: Bucket, r: Row)
    requires a.normal(r.text) in b.seen
    ensures Fill(a, limit, b, [r]) == b
  {
    assert [r][..0] == [];
  }

  lemma OneConstraint(a: Analysis, m: Message, i: nat)
    requires IsConstraint(a, m.content) && m.role == "user" && m.id != ""
    ensures Offered(a, m, i, Constraints) == [Row(m.content, m.id)]
  {
    assert [m.content][..0] == [];
    assert TextsOf(a, [m.content], Constraints) == [] + [m.content] == [m.content];
  }
}

/** Packing the compiled context into the few messages a provider accepts: derived messages are merged
  * into one bounded kernel, and the newest of the conversation is kept within a character budget. */
module Budget {
  import opened Basics

  datatype Section = Verification | TaskState | ProjectMemory | EvidenceControl | Other

  /** `contextKind` is stripped and in lower case. */
  datatype Note = Note(id: string, role: string, content: string, systemDerived: bool, contextKind: string)

  function Content(m: Note): string { Strip(m.content) }

  predicate Derived(m: Note) { m.systemDerived || "context:" <= m.id }

  function KindOf(m: Note): Section {
    if m.contextKind == "verification" then Verification
    else if m.contextKind == "task_state" then TaskState
    else if m.contextKind == "project_memory" then ProjectMemory
    else if m.contextKind == "evidence_control" then EvidenceControl
    else Other
  }

  /* ---- Clipping ---- */

  function Suffix(what: string): string { "\n\U{2026}[" + what + " truncated by ContextBudgetBroker]" }

  /** Never more than the limit, and unchanged if no longer than that. */
  function ClipText(text: string, limit: int, what: string): (r: string)
    ensures |r| == Min(|text|, Max(1, limit))
    ensures |text| <= Max(1, limit) ==> r == text
  {
    var most := Max(1, limit);
    if |text| <= most then text
    else if |Suffix(what)| >= most then text[..most]
    else text[..most - |Suffix(what)|] + Suffix(what)
  }

  /** A text that was cut says so, and of what it is, wherever there is room for that. */
  lemma ClippedSays(text: string, limit: nat, what: string)
    requires |text| > limit > |what| + 37
    ensures exists n: nat :: n < |text| && ClipText(text, limit, what) == text[..n] + "\n\U{2026}[" + what + " truncated by ContextBudgetBroker]"
  {
    var n := limit - |what| - 37;
    assert |" truncated by ContextBudgetBroker]"| == 34;
    assert ClipText(text, limit, what) == text[..n] + "\n\U{2026}[" + what + " truncated by ContextBudgetBroker]";
  }

  /* ---- The kernel ---- */

  function Heading(kind: Section): (h: string)
    ensures |h| <= 31
  {
    match kind
    case Verification => "[VERIFICATION CONTRACT]\n"
    case TaskState => "[AUTHORITATIVE TASK STATE]\n"
    case ProjectMemory => "[PROJECT LONG-TERM MEMORY]\n"
    case EvidenceControl => "[EVIDENCE CONTROL]\n"
    case Other => "[OTHER SYSTEM-DERIVED CONTEXT]\n"
  }

  function Label(kind: Section): string {
    match kind
    case Verification => "verification"
    case TaskState => "task_state"
    case ProjectMemory => "project_memory"
    case EvidenceControl => "evidence_control"
    case Other => "other"
  }

  const ORDER: seq<Section> := [Verification, TaskState, ProjectMemory, EvidenceControl, Other]

  function Lines(rows: seq<string>): string {
    if rows == [] then "" else if |rows| == 1 then rows[0] else Lines(rows[..|rows| - 1]) + "\n" + rows[|rows| - 1]
  }

  /** Rows stand on lines of their own. */
  lemma {:induction false} LinesInTwo(xs: seq<string>, ys: seq<string>)
    requires xs != [] && ys != []
    ensures Lines(xs + ys) == Lines(xs) + "\n" + Lines(ys)
    decreases |ys|
  {
    var n := |ys| - 1;
    assert (xs + ys)[..|xs| + n] == xs + ys[..n];
    if n > 0 {
      LinesInTwo(xs, ys[..n]);
      assert Lines(xs) + "\n" + Lines(ys[..n]) + "\n" + ys[n] == Lines(xs) + "\n" + (Lines(ys[..n]) + "\n" + ys[n]);
    } else {
      assert xs + ys[..0] == xs;
    }
  }

  /** What the derived messages say about one section, in order. */
  function RowsOf(derived: seq<Note>, kind: Section): seq<string> {
    if derived == [] then []
    else
      var last := derived[|derived| - 1];
      RowsOf(derived[..|derived| - 1], kind) + (if Content(last) != "" && KindOf(last) == kind then [Content(last)] else [])
  }

  datatype Part = Part(kind: Section, body: string)

  function PartText(p: Part): string { Heading(p.kind) + p.body }

  function Preamble(): (p: string)
    ensures |p| == 117
  {
    "【Context Kernel Pack｜系统派生上下文，不是新的用户消息】\n" +
    "优先级：当前 Verification/原始证据 > TaskState > Project Memory；" +
    "长期记忆只是先验，冲突时必须服从当前可验证证据。"
  }

  /** The preamble and the parts, separated by blank lines. */
  function Joined(parts: seq<Part>): string {
    if parts == [] then Preamble() else Joined(parts[..|parts| - 1]) + "\n\n" + PartText(parts[|parts| - 1])
  }

  /** How many characters a section may take when `remaining` are left. */
  function BodyLimit(desired: int, remaining: int, kind: Section): int {
    Min(Max(80, desired), Max(1, remaining - |Heading(kind)| - 2))
  }

  /** The kinds of `kinds` that have something to say. */
  function Spoken(derived: seq<Note>, kinds: seq<Section>): seq<Section> {
    if kinds == [] then []
    else Spoken(derived, kinds[..|kinds| - 1]) +
         (if RowsOf(derived, kinds[|kinds| - 1]) != [] then [kinds[|kinds| - 1]] else [])
  }

  function KindsOf(parts: seq<Part>): (ks: seq<Section>)
    ensures |ks| == |parts| && forall i :: 0 <= i < |ks| ==> ks[i] == parts[i].kind
  {
    seq(|parts|, i requires 0 <= i < |parts| => parts[i].kind)
  }

  datatype Kernel = Kernel(content: string, sections: seq<Section>)

  datatype Telemetry = Telemetry(
    outputChars: nat,
    kernelChars: nat,
    kept: int,
    dropped: int,
    clipped: nat,
    lastNSafe: bool,
    perMessageSafe: bool)

  function Total(ms: seq<Note>): nat { if ms == [] then 0 else Total(ms[..|ms| - 1]) + |Content(ms[|ms| - 1])| }

  /* ---- Facts about the kernel ---- */

  lemma {:induction false} SpokenPrefix(derived: seq<Note>, kinds: seq<Section>, n: nat)
    requires n <= |kinds|
    ensures Spoken(derived, kinds[..n]) <= Spoken(derived, kinds)
    decreases |kinds|
  {
    hide RowsOf;
    if n == |kinds| {
      assert kinds[..n] == kinds;
    } else {
      SpokenPrefix(derived, kinds[..|kinds| - 1], n);
      assert kinds[..|kinds| - 1][..n] == kinds[..n];
    }
  }

  lemma SpokenOneMore(derived: seq<Note>, kinds: seq<Section>, n: nat)
    requires n < |kinds|
    ensures Spoken(derived, kinds[..n + 1]) == Spoken(derived, kinds[..n]) + (if RowsOf(derived, kinds[n]) != [] then [kinds[n]] else [])
  {
    assert kinds[..n + 1][..n] == kinds[..n];
  }

  lemma JoinedOneMore(parts: seq<Part>, p: Part)
    ensures Joined(parts + [p]) == Joined(parts) + "\n\n" + PartText(p)
    ensures |Joined(parts + [p])| == |Joined(parts)| + 2 + |Heading(p.kind)| + |p.body|
  {
    hide Heading;
    assert (parts + [p])[..|parts|] == parts;
  }

  lemma {:induction false} JoinedPrefix(parts: seq<Part>, n: nat)
    requires n <= |parts|
    ensures Joined(parts[..n]) <= Joined(parts)
    decreases |parts|
  {
    hide PartText;
    if n == |parts| {
      assert parts[..n] == parts;
    } else {
      JoinedPrefix(parts[..|parts| - 1], n);
      assert parts[..|parts| - 1][..n] == parts[..n];
    }
  }

  lemma InTheMiddle(before: string, h: string, body: string, text: string)
    requires before + (h + body) <= text
    ensures var o := |before|; text[o..o + |h|] == h && text[o + |h|..o + |h| + |body|] == body
  {
    var all := before + (h + body);
    assert text[..|all|] == all;
    assert all[|before|..|before| + |h|] == h;
    assert all[|before| + |h|..] == body;
  }

  /** Every section that is included is there with its whole heading, followed by its body. */
  lemma HeadingSurvives(parts: seq<Part>, i: nat)
    requires i < |parts|
    ensures var o, h := |Joined(parts[..i])| + 2, Heading(parts[i].kind);
            && o + |h| + |parts[i].body| <= |Joined(parts)|
            && Joined(parts)[o..o + |h|] == h && Joined(parts)[o + |h|..o + |h| + |parts[i].body|] == parts[i].body
  {
    hide Joined, Heading;
    JoinedPrefix(parts, i + 1);
    JoinedOneMore(parts[..i], parts[i]);
    assert parts[..i + 1] == parts[..i] + [parts[i]];
    InTheMiddle(Joined(parts[..i]) + "\n\n", Heading(parts[i].kind), parts[i].body, Joined(parts));
  }

  /* ---- The conversation ---- */

  function DerivedOf(ms: seq<Note>): seq<Note> {
    if ms == [] then [] else DerivedOf(ms[..|ms| - 1]) + (if Derived(ms[|ms| - 1]) then [ms[|ms| - 1]] else [])
  }

  predicate Spoke(m: Note) { !Derived(m) && (m.role == "user" || m.role == "assistant") && Content(m) != "" }

  function ConversationOf(ms: seq<Note>): seq<Note> {
    if ms == [] then [] else ConversationOf(ms[..|ms| - 1]) + (if Spoke(ms[|ms| - 1]) then [ms[|ms| - 1]] else [])
  }

  lemma {:induction false} NoneDerivedIff(ms: seq<Note>)
    ensures DerivedOf(ms) != [] <==> exists m :: m in ms && WrittenBySystem(m)
    decreases |ms|
  {
    hide WrittenBySystem, Derived;
    if ms != [] {
      var n := |ms| - 1;
      NoneDerivedIff(ms[..n]);
      WrittenIff(ms[n]);
      assert forall m :: m in ms <==> m in ms[..n] || m == ms[n];
    }
  }

  /** `places` are those of the messages that are wanted, in order. */
  ghost predicate Picked(ms: seq<Note>, wanted: Note -> bool, places: seq<nat>) {
    && (forall k :: 0 <= k < |places| ==> places[k] < |ms|)
    && (forall j, k :: 0 <= j < k < |places| ==> places[j] < places[k])
    && (forall i :: 0 <= i < |ms| ==> (wanted(ms[i]) <==> i in places))
  }

  lemma PickedOneMore(ms: seq<Note>, m: Note, wanted: Note -> bool, places: seq<nat>)
    requires Picked(ms, wanted, places)
    ensures Picked(ms + [m], wanted, if wanted(m) then places + [|ms|] else places)
  {
  }

  /** A message with something to say. */
  predicate Speaks(m: Note) { exists k :: 0 <= k < |m.content| && !IsSpace(m.content[k]) }

  /** A message that a component of the system wrote. */
  predicate WrittenBySystem(m: Note) { m.systemDerived || (|m.id| >= 8 && m.id[..8] == "context:") }

  lemma WrittenIff(m: Note)
    ensures Derived(m) <==> WrittenBySystem(m)
    ensures Content(m) != "" <==> Speaks(m)
  {
    BlankIff(m.content);
    assert |"context:"| == 8;
    assert |m.id| >= 8 ==> ("context:" <= m.id <==> m.id[..8] == "context:");
  }

  predicate FromPeople(m: Note) { !WrittenBySystem(m) && m.role in {"user", "assistant"} && Speaks(m) }

  lemma SpokeIff(m: Note)
    ensures Spoke(m) <==> FromPeople(m)
  {
    hide Speaks, WrittenBySystem, Derived, Content;
    WrittenIff(m);
  }

  lemma NonePicked(wanted: Note -> bool) returns (places: seq<nat>)
    ensures places == [] && Picked([], wanted, places)
  {
    places := [];
  }

  /** The conversation is all that users and assistants wrote themselves and that says something, in order. */
  lemma {:induction false} ConversationIs(ms: seq<Note>) returns (places: seq<nat>)
    ensures Picked(ms, FromPeople, places)
    ensures |ConversationOf(ms)| == |places|
    ensures forall k :: 0 <= k < |places| ==> places[k] < |ms| && ConversationOf(ms)[k] == ms[places[k]]
    decreases |ms|
  {
    hide FromPeople, Spoke, Picked;
    if ms == [] {
      places := NonePicked(FromPeople);
    } else {
      var n := |ms| - 1;
      var before := ConversationIs(ms[..n]);
      PickedOneMore(ms[..n], ms[n], FromPeople, before);
      SpokeIff(ms[n]);
      assert ms == ms[..n] + [ms[n]];
      places := if FromPeople(ms[n]) then before + [n] else before;
    }
  }

  /** The heading over what a message of some kind says in the kernel. */
  const HEADINGS := map[
    "verification" := "[VERIFICATION CONTRACT]\n",
    "task_state" := "[AUTHORITATIVE TASK STATE]\n",
    "project_memory" := "[PROJECT LONG-TERM MEMORY]\n",
    "evidence_control" := "[EVIDENCE CONTROL]\n"
  ]

  function HeadingFor(kind: string): string { if kind in HEADINGS then HEADINGS[kind] else "[OTHER SYSTEM-DERIVED CONTEXT]\n" }

  lemma GoesUnder(m: Note, kind: Section)
    ensures KindOf(m) == kind <==> HeadingFor(m.contextKind) == Heading(kind)
  {
    assert Heading(KindOf(m)) == HeadingFor(m.contextKind);
    if KindOf(m) != kind {
      HeadingsDiffer(KindOf(m), kind);
    }
  }

  lemma HeadingsDiffer(a: Section, b: Section)
    requires a != b
    ensures Heading(a) != Heading(b)
  {
    assert Heading(Verification)[1] == 'V' && Heading(TaskState)[1] == 'A' && Heading(ProjectMemory)[1] == 'P';
    assert Heading(EvidenceControl)[1] == 'E' && Heading(Other)[1] == 'O';
  }

  function Under(heading: string): Note -> bool {
    (m: Note) => WrittenBySystem(m) && Speaks(m) && HeadingFor(m.contextKind) == heading
  }

  /** Under a heading stands what the system's messages of that kind say, in order. */
  lemma {:induction false} RowsAre(ms: seq<Note>, kind: Section) returns (places: seq<nat>)
    ensures Picked(ms, Under(Heading(kind)), places)
    ensures |RowsOf(DerivedOf(ms), kind)| == |places|
    ensures forall k :: 0 <= k < |places| ==> places[k] < |ms| && RowsOf(DerivedOf(ms), kind)[k] == Strip(ms[places[k]].content)
    decreases |ms|
  {
    hide Under, Derived, Heading, KindOf, Strip, Picked, RowsOf;
    var wanted := Under(Heading(kind));
    if ms == [] {
      places := NonePicked(wanted);
      NoRows(kind);
    } else {
      var n := |ms| - 1;
      var before := RowsAre(ms[..n], kind);
      PickedOneMore(ms[..n], ms[n], wanted, before);
      UnderIff(ms[n], kind);
      RowsOneMore(DerivedOf(ms[..n]), ms[n], kind);
      assert ms == ms[..n] + [ms[n]];
      assert DerivedOf(ms[..n]) + [] == DerivedOf(ms[..n]);
      places := if wanted(ms[n]) then before + [n] else before;
    }
  }

  lemma NoRows(kind: Section)
    ensures RowsOf(DerivedOf([]), kind) == []
  {
  }

  lemma UnderIff(m: Note, kind: Section)
    ensures Under(Heading(kind))(m) <==> Derived(m) && Content(m) != "" && KindOf(m) == kind
  {
    hide Speaks, WrittenBySystem, Derived, HeadingFor, Heading, KindOf, Content;
    WrittenIff(m);
    GoesUnder(m, kind);
  }

  lemma RowsOneMore(derived: seq<Note>, m: Note, kind: Section)
    ensures RowsOf(derived + [m], kind) == RowsOf(derived, kind) + (if Content(m) != "" && KindOf(m) == kind then [Content(m)] else [])
  {
    assert (derived + [m])[..|derived|] == derived;
  }

  function Chars(ms: seq<Note>): nat { if ms == [] then 0 else |ms[0].content| + Chars(ms[1..]) }

  /** The characters of the packed messages whose place is after `m`. */
  function NewerChars(places: seq<nat>, packed: seq<Note>, m: nat): nat
    requires |places| == |packed|
  {
    if places == [] then 0 else (if places[0] > m then |packed[0].content| else 0) + NewerChars(places[1..], packed[1..], m)
  }

  lemma {:induction false} AllNewer(places: seq<nat>, packed: seq<Note>, m: nat)
    requires |places| == |packed| && forall j :: 0 <= j < |places| ==> places[j] > m
    ensures NewerChars(places, packed, m) == Chars(packed)
    decreases |places|
  {
    if places != [] {
      AllNewer(places[1..], packed[1..], m);
    }
  }

  lemma CharsOfOne(m: Note)
    ensures Chars([m]) == |m.content|
  {
    assert [m][1..] == [];
  }

  lemma IncreasingCons(i: nat, places: seq<nat>)
    requires (forall a, b :: 0 <= a < b < |places| ==> places[a] < places[b]) && forall j :: 0 <= j < |places| ==> i < places[j]
    ensures var ps := [i] + places; forall a, b :: 0 <= a < b < |ps| ==> ps[a] < ps[b]
  {
    var ps := [i] + places;
    forall a, b | 0 <= a < b < |ps| ensures ps[a] < ps[b] {
      assert ps[b] == places[b - 1] && (a > 0 ==> ps[a] == places[a - 1]);
    }
  }

  lemma OlderAddsNothing(places: seq<nat>, packed: seq<Note>, i: nat, item: Note, m: nat)
    requires |places| == |packed| && i <= m
    ensures NewerChars([i] + places, [item] + packed, m) == NewerChars(places, packed, m)
  {
    assert ([i] + places)[1..] == places && ([item] + packed)[1..] == packed;
  }

  lemma {:induction false} IncreasingIsShort(places: seq<nat>, from: nat, n: nat)
    requires forall i, j :: 0 <= i < j < |places| ==> places[i] < places[j]
    requires from <= n && forall j :: 0 <= j < |places| ==> from <= places[j] < n
    ensures |places| <= n - from
    decreases |places|
  {
    if places != [] {
      var last := |places| - 1;
      IncreasingIsShort(places[..last], from, places[last]);
    }
  }

  lemma {:induction false} TotalNoMore(ms: seq<Note>)
    ensures Total(ms) <= Chars(ms)
    decreases |ms|
  {
    hide Strip;
    if ms != [] {
      TotalNoMore(ms[..|ms| - 1]);
      StripNoLonger(ms[|ms| - 1].content);
      CharsInTwo(ms[..|ms| - 1], [ms[|ms| - 1]]);
      assert ms == ms[..|ms| - 1] + [ms[|ms| - 1]];
    }
  }

  lemma {:induction false} CharsInTwo(xs: seq<Note>, ys: seq<Note>)
    ensures Chars(xs + ys) == Chars(xs) + Chars(ys)
    decreases |xs|
  {
    if xs == [] {
      assert xs + ys == ys;
    } else {
      CharsInTwo(xs[1..], ys);
      assert (xs + ys)[1..] == xs[1..] + ys;
    }
  }

  predicate Tight(s: string) { s != "" && !IsSpace(s[0]) && !IsSpace(s[|s| - 1]) }

  lemma TightStays(s: string)
    requires Tight(s)
    ensures Strip(s) == s
  {
  }

  function Xs(n: nat): (s: string)
    ensures |s| == n && forall i :: 0 <= i < n ==> s[i] == 'x'
  {
    seq(n, i => 'x')
  }

  /** Derived messages with one text of the given length for each of the first sections. */
  function Notes(lens: seq<nat>): (ms: seq<Note>)
    requires |lens| <= |ORDER|
    ensures |ms| == |lens| && forall i :: 0 <= i < |lens| ==> ms[i] == Note("", "user", Xs(lens[i]), true, Label(ORDER[i]))
  {
    seq(|lens|, i requires 0 <= i < |lens| => Note("", "user", Xs(lens[i]), true, Label(ORDER[i])))
  }

  function Parts(lens: seq<nat>): (ps: seq<Part>)
    requires |lens| <= |ORDER|
    ensures |ps| == |lens| && forall i :: 0 <= i < |lens| ==> ps[i] == Part(ORDER[i], Xs(lens[i]))
  {
    seq(|lens|, i requires 0 <= i < |lens| => Part(ORDER[i], Xs(lens[i])))
  }

  /** How long a kernel with bodies of these lengths is. */
  function Size(lens: seq<nat>): nat
    requires |lens| <= |ORDER|
  {
    if lens == [] then |Preamble()|
    else Size(lens[..|lens| - 1]) + 2 + |Heading(ORDER[|lens| - 1])| + lens[|lens| - 1]
  }

  lemma LabelNames(kind: Section, text: string)
    requires text == "" || Tight(text)
    ensures var m := Note("", "user", text, true, Label(kind)); KindOf(m) == kind && Derived(m) && Content(m) == text
  {
    if text != "" { TightStays(text); }
  }

  lemma {:induction false} RowsOfNotes(lens: seq<nat>, j: nat)
    requires |lens| <= |ORDER| && j < |ORDER| && forall i :: 0 <= i < |lens| ==> lens[i] >= 1
    ensures RowsOf(Notes(lens), ORDER[j]) == if j < |lens| then [Xs(lens[j])] else []
    decreases |lens|
  {
    hide Label, KindOf, Content, Derived, IsSpace;
    if lens != [] {
      var n := |lens| - 1;
      assert Notes(lens)[..n] == Notes(lens[..n]);
      RowsOfNotes(lens[..n], j);
      XsAreTight(lens[n]);
      LabelNames(ORDER[n], Xs(lens[n]));
      OrderIsDistinct(n, j);
    }
  }

  lemma XsAreTight(n: nat)
    requires n >= 1
    ensures Tight(Xs(n))
  {
  }

  lemma OrderIsDistinct(i: nat, j: nat)
    requires i < |ORDER| && j < |ORDER|
    ensures ORDER[i] == ORDER[j] <==> i == j
  {
  }

  lemma {:induction false} SpokenByNotes(lens: seq<nat>, n: nat)
    requires |lens| <= |ORDER| && n <= |ORDER| && forall i :: 0 <= i < |lens| ==> lens[i] >= 1
    ensures Spoken(Notes(lens), ORDER[..n]) == ORDER[..Min(n, |lens|)]
  {
    hide RowsOf;
    if n > 0 {
      SpokenByNotes(lens, n - 1);
      SpokenOneMore(Notes(lens), ORDER, n - 1);
      RowsOfNotes(lens, n - 1);
    }
  }

  lemma {:induction false} NotesAreDerived(lens: seq<nat>)
    requires |lens| <= |ORDER|
    ensures DerivedOf(Notes(lens)) == Notes(lens)
    decreases |lens|
  {
    if lens != [] {
      var n := |lens| - 1;
      assert Notes(lens)[..n] == Notes(lens[..n]);
      NotesAreDerived(lens[..n]);
      assert Notes(lens) == Notes(lens[..n]) + [Notes(lens)[n]];
    }
  }

  lemma {:induction false} SizeIsLength(lens: seq<nat>)
    requires |lens| <= |ORDER|
    ensures |Joined(Parts(lens))| == Size(lens)
    decreases |lens|
  {
    hide Heading, Preamble;
    if lens == [] {
      PreambleAlone();
    } else {
      var n := |lens| - 1;
      SizeIsLength(lens[..n]);
      assert Parts(lens) == Parts(lens[..n]) + [Parts(lens)[n]];
      JoinedOneMore(Parts(lens[..n]), Parts(lens)[n]);
    }
  }

  lemma SizeOneMore(lens: seq<nat>, last: nat)
    requires |lens| < |ORDER|
    ensures Size(lens + [last]) == Size(lens) + 2 + |Heading(ORDER[|lens|])| + last
  {
    hide Heading;
    assert (lens + [last])[..|lens|] == lens;
  }

  lemma {:induction false} SizeGrows(lens: seq<nat>, n: nat)
    requires n <= |lens| <= |ORDER|
    ensures Size(lens[..n]) <= Size(lens)
    decreases |lens|
  {
    hide Heading, Preamble;
    if n == |lens| {
      assert lens[..n] == lens;
    } else {
      SizeGrows(lens[..|lens| - 1], n);
      assert lens[..|lens| - 1][..n] == lens[..n];
    }
  }

  lemma {:induction false} SizeOfShorter(lens: seq<nat>, e: nat, less: nat)
    requires e < |lens| <= |ORDER| && less <= lens[e]
    ensures Size(lens[e := lens[e] - less]) == Size(lens) - less
    decreases |lens|
  {
    hide Heading, Preamble;
    var n, other := |lens| - 1, lens[e := lens[e] - less];
    if e == n {
      assert other[..n] == lens[..n];
    } else {
      SizeOfShorter(lens[..n], e, less);
      assert other[..n] == lens[..n][e := lens[e] - less];
    }
  }

  class Broker {
    const maxHistoryMessages: int
    const historyChars: int
    const kernelChars: int
    const perMessageChars: int
    const sectionChars: map<Section, int>

    constructor (maxHistoryMessages: int, historyChars: int, kernelChars: int, perMessageChars: int, overrides: map<Section, int>)
      ensures Valid()
      ensures this.maxHistoryMessages == Max(2, Min(32, maxHistoryMessages)) && this.historyChars == Max(5000, historyChars)
      ensures forall kind :: Desired(kind) == if kind in overrides then overrides[kind] else
                               match kind case Verification => 1200 case TaskState => 1750 case ProjectMemory => 2100
                               case EvidenceControl => 550 case Other => 250
      ensures this.kernelChars == Max(1200, Min(5900, kernelChars)) && this.perMessageChars == Max(600, Min(5900, perMessageChars))
    {
      this.maxHistoryMessages := Max(2, Min(32, maxHistoryMessages));
      this.historyChars := Max(5000, historyChars);
      this.kernelChars := Max(1200, Min(5900, kernelChars));
      this.perMessageChars := Max(600, Min(5900, perMessageChars));
      sectionChars := map[Verification := 1200, TaskState := 1750, ProjectMemory := 2100, EvidenceControl := 550, Other := 250] + overrides;
    }

    predicate Valid() {
      2 <= maxHistoryMessages <= 32 && historyChars >= 5000 && 1200 <= kernelChars <= 5900 && 600 <= perMessageChars <= 5900
    }

    function Desired(kind: Section): int { if kind in sectionChars then sectionChars[kind] else 250 }

    /** The body is what the messages say, clipped to what is left for it. */
    predicate BodyFits(derived: seq<Note>, used: nat, p: Part) {
      p.body == ClipText(Lines(RowsOf(derived, p.kind)), BodyLimit(Desired(p.kind), kernelChars - used, p.kind), Label(p.kind))
    }

    predicate Bodies(derived: seq<Note>, parts: seq<Part>) {
      forall i :: 0 <= i < |parts| ==> BodyFits(derived, |Joined(parts[..i])|, parts[i])
    }

    /** More than 80 characters were left before each part. */
    predicate Roomy(parts: seq<Part>) {
      forall i :: 0 <= i < |parts| ==> kernelChars - |Joined(parts[..i])| > 80
    }

    /** The kernel of these messages: the sections that have something to say, in order, each clipped to what is
      * left for it. A section is missing only if no more than 80 characters were left. */
    predicate IsKernel(derived: seq<Note>, parts: seq<Part>) {
      && KindsOf(parts) <= Spoken(derived, ORDER) && Bodies(derived, parts) && Roomy(parts)
      && (KindsOf(parts) == Spoken(derived, ORDER) || kernelChars - |Joined(parts)| <= 80)
    }

    /** Merge the derived messages. The last clip changes nothing, whatever the section budgets and the
      * contents: the text never exceeds the kernel budget. */
    method KernelPack(derived: seq<Note>) returns (kernel: Option<Kernel>, ghost parts: seq<Part>)
      requires Valid()
      ensures kernel.Some? <==> derived != []
      ensures kernel.Some? ==>
                && kernel.value == Kernel(Joined(parts), KindsOf(parts)) && |Joined(parts)| <= kernelChars
                && IsKernel(derived, parts)
    {
      hide Heading, Label, Preamble, Lines, RowsOf, Joined, PartText, ClipText;
      parts := [];
      if derived == [] {
        return None, parts;
      }
      var grouped := Group(derived);
      PreambleAlone();
      var text, included := Preamble(), [];
      var n := 0;
      while n < |ORDER|
        invariant n <= |ORDER| && text == Joined(parts) && included == KindsOf(parts) && |text| <= kernelChars
        invariant included == Spoken(derived, ORDER[..n]) && Bodies(derived, parts) && Roomy(parts)
      {
        var kind := ORDER[n];
        SpokenOneMore(derived, ORDER, n);
        if grouped[kind] != [] {
          var remaining := kernelChars - |text|;
          if remaining <= 80 {
            SpokenPrefix(derived, ORDER, n);
            break;
          }
          var bodyLimit := Min(Max(80, Desired(kind)), Max(1, remaining - |Heading(kind)| - 2));
          var body := ClipText(Lines(grouped[kind]), bodyLimit, Label(kind));
          JoinedOneMore(parts, Part(kind, body));
          BodiesOneMore(derived, parts, Part(kind, body));
          RoomyOneMore(parts, Part(kind, body));
          text := text + "\n\n" + PartText(Part(kind, body));
          included := included + [kind];
          parts := parts + [Part(kind, body)];
        }
        n := n + 1;
      }
      assert ORDER[..|ORDER|] == ORDER;
      var content := ClipText(text, kernelChars, "kernel pack");
      kernel := Some(Kernel(content, included));
    }

    lemma BodiesOneMore(derived: seq<Note>, parts: seq<Part>, p: Part)
      requires Bodies(derived, parts) && BodyFits(derived, |Joined(parts)|, p)
      ensures Bodies(derived, parts + [p])
    {
      hide BodyFits, Joined;
      var all := parts + [p];
      forall i | 0 <= i < |all| ensures BodyFits(derived, |Joined(all[..i])|, all[i]) {
        if i < |parts| {
          assert all[..i] == parts[..i];
        } else {
          assert all[..i] == parts;
        }
      }
    }

    lemma RoomyOneMore(parts: seq<Part>, p: Part)
      requires Roomy(parts) && kernelChars - |Joined(parts)| > 80
      ensures Roomy(parts + [p])
    {
      hide Joined;
      var all := parts + [p];
      forall i | 0 <= i < |all| ensures kernelChars - |Joined(all[..i])| > 80 {
        assert all[..i] == if i < |parts| then parts[..i] else parts;
      }
    }

    /** The contents of the derived messages by section. */
    method Group(derived: seq<Note>) returns (grouped: map<Section, seq<string>>)
      ensures forall kind: Section :: kind in grouped && grouped[kind] == RowsOf(derived, kind)
    {
      grouped := map[Verification := [], TaskState := [], ProjectMemory := [], EvidenceControl := [], Other := []];
      forall kind: Section ensures kind in grouped {
        assert kind == Verification || kind == TaskState || kind == ProjectMemory || kind == EvidenceControl || kind == Other;
      }
      for n := 0 to |derived|
        invariant forall kind: Section :: kind in grouped && grouped[kind] == RowsOf(derived[..n], kind)
      {
        assert derived[..n + 1][..n] == derived[..n];
        var content := Content(derived[n]);
        if content != "" {
          var kind := KindOf(derived[n]);
          grouped := grouped[kind := grouped[kind] + [content]];
        }
      }
      assert derived[..|derived|] == derived;
    }

    function Shortened(m: Note): string { ClipText(Content(m), perMessageChars, "conversation message") }

    /** What is left of the message at place `i`: the newest one is cut to the budget, the others are not. */
    function Item(kept: seq<Note>, i: nat, budget: int): Note
      requires i < |kept|
    {
      kept[i].(content := if i == |kept| - 1 then ClipText(Shortened(kept[i]), Min(perMessageChars, budget), "conversation history")
                          else Shortened(kept[i]))
    }

    /** `packed` are the messages at `places`, in their order; they fit the budget, and a message is left
      * out only if it does not fit beside the newer ones that were taken. */
    predicate Selected(kept: seq<Note>, from: nat, places: seq<nat>, packed: seq<Note>, budget: int) {
      && Chosen(kept, from, places, packed, budget)
      && forall m {:trigger TakenOrTooLong(kept, places, packed, budget, m)} ::
           from <= m < |kept| ==> TakenOrTooLong(kept, places, packed, budget, m)
    }

    predicate Chosen(kept: seq<Note>, from: nat, places: seq<nat>, packed: seq<Note>, budget: int) {
      && |places| == |packed|
      && (forall i, j :: 0 <= i < j < |places| ==> places[i] < places[j])
      && (forall j :: 0 <= j < |places| ==> from <= places[j] < |kept| && packed[j] == Item(kept, places[j], budget))
      && (from < |kept| ==> places != [] && places[|places| - 1] == |kept| - 1)
      && Chars(packed) <= budget
    }

    predicate TakenOrTooLong(kept: seq<Note>, places: seq<nat>, packed: seq<Note>, budget: int, m: nat)
      requires |places| == |packed| && m < |kept|
    {
      m in places || NewerChars(places, packed, m) + |Shortened(kept[m])| > budget
    }

    function LongOnes(kept: seq<Note>, from: nat): nat
      requires from <= |kept|
      decreases |kept| - from
    {
      if from == |kept| then 0 else (if |Content(kept[from])| > perMessageChars then 1 else 0) + LongOnes(kept, from + 1)
    }

    lemma TakeOne(kept: seq<Note>, i: nat, places: seq<nat>, packed: seq<Note>, budget: int)
      requires Valid() && i < |kept| && budget >= 1 && Selected(kept, i + 1, places, packed, budget)
      requires i == |kept| - 1 || Chars(packed) + |Shortened(kept[i])| <= budget
      ensures Selected(kept, i, [i] + places, [Item(kept, i, budget)] + packed, budget)
    {
      hide Shortened, Item, TakenOrTooLong, Chosen;
      var places', packed' := [i] + places, [Item(kept, i, budget)] + packed;
      assert |places| == |packed| by { SameLength(kept, i + 1, places, packed, budget); }
      ChooseOne(kept, i, places, packed, budget);
      forall m | i <= m < |kept| ensures TakenOrTooLong(kept, places', packed', budget, m) {
        StillTooLong(kept, places, packed, budget, i, Item(kept, i, budget), m);
      }
    }

    lemma SameLength(kept: seq<Note>, from: nat, places: seq<nat>, packed: seq<Note>, budget: int)
      requires Chosen(kept, from, places, packed, budget)
      ensures |places| == |packed|
    {
    }

    lemma ChooseOne(kept: seq<Note>, i: nat, places: seq<nat>, packed: seq<Note>, budget: int)
      requires Valid() && i < |kept| && budget >= 1 && Chosen(kept, i + 1, places, packed, budget)
      requires i == |kept| - 1 || Chars(packed) + |Shortened(kept[i])| <= budget
      ensures Chosen(kept, i, [i] + places, [Item(kept, i, budget)] + packed, budget)
    {
      hide Shortened, Item, Chars;
      var places', packed' := [i] + places, [Item(kept, i, budget)] + packed;
      ItemSize(kept, i, budget);
      CharsInTwo([Item(kept, i, budget)], packed);
      CharsOfOne(Item(kept, i, budget));
      IncreasingCons(i, places);
      IncreasingIsShort(places, i + 1, |kept|);
      if i == |kept| - 1 {
        assert packed' == [Item(kept, i, budget)];
      }
      forall j | 0 <= j < |places'| ensures i <= places'[j] < |kept| && packed'[j] == Item(kept, places'[j], budget) {
        if j > 0 {
          assert places'[j] == places[j - 1] && packed'[j] == packed[j - 1];
        }
      }
    }

    lemma StillTooLong(kept: seq<Note>, places: seq<nat>, packed: seq<Note>, budget: int, i: nat, item: Note, m: nat)
      requires |places| == |packed| && i <= m < |kept| && (m == i || TakenOrTooLong(kept, places, packed, budget, m))
      ensures TakenOrTooLong(kept, [i] + places, [item] + packed, budget, m)
    {
      hide Shortened;
      assert ([i] + places)[0] == i;
      OlderAddsNothing(places, packed, i, item, m);
    }

    lemma ItemSize(kept: seq<Note>, i: nat, budget: int)
      requires Valid() && i < |kept| && budget >= 1
      ensures |Item(kept, i, budget).content| <= perMessageChars
      ensures if i == |kept| - 1 then |Item(kept, i, budget).content| <= budget else Item(kept, i, budget).content == Shortened(kept[i])
    {
    }

    lemma DropOne(kept: seq<Note>, i: nat, places: seq<nat>, packed: seq<Note>, budget: int)
      requires i < |kept| - 1 && Selected(kept, i + 1, places, packed, budget)
      requires Chars(packed) + |Shortened(kept[i])| > budget
      ensures Selected(kept, i, places, packed, budget)
    {
      hide Shortened, Item;
      AllNewer(places, packed, i);
      assert TakenOrTooLong(kept, places, packed, budget, i);
    }

    /** From the newest message back, each that still fits is taken. */
    method PackConversation(kept: seq<Note>, budget: int) returns (packed: seq<Note>, used: nat, dropped: nat, clipped: nat, ghost places: seq<nat>)
      requires Valid() && budget >= 1200
      ensures Selected(kept, 0, places, packed, budget) && |packed| + dropped == |kept|
      ensures clipped == LongOnes(kept, 0)
    {
      hide Selected, Content, ClipText;
      packed, used, dropped, clipped, places := [], 0, 0, 0, [];
      NothingSelected(kept, budget);
      for i := |kept| downto 0
        invariant Selected(kept, i, places, packed, budget) && |packed| + dropped == |kept| - i
        invariant used == Chars(packed) && (packed == [] <==> i == |kept|) && clipped == LongOnes(kept, i)
      {
        var raw := Content(kept[i]);
        var content := ClipText(raw, perMessageChars, "conversation message");
        ClippedIffLong(raw);
        if content != raw {
          clipped := clipped + 1;
        }
        if packed == [] {
          content := ClipText(content, Min(perMessageChars, budget), "conversation history");
        } else if used + |content| > budget {
          DropOne(kept, i, places, packed, budget);
          dropped := dropped + 1;
          continue;
        }
        TakeOne(kept, i, places, packed, budget);
        var item := kept[i].(content := content);
        assert ([item] + packed)[1..] == packed;
        packed, places := [item] + packed, [i] + places;
        used := used + |content|;
      }
    }

    lemma ClippedIffLong(raw: string)
      requires Valid()
      ensures ClipText(raw, perMessageChars, "conversation message") != raw <==> |raw| > perMessageChars
    {
    }

    lemma NothingSelected(kept: seq<Note>, budget: int)
      requires budget >= 0
      ensures Selected(kept, |kept|, [], [], budget)
    {
    }

    function KernelNote(k: Kernel): Note { Note("context:kernel-pack", "user", k.content, true, "kernel_pack") }

    /** The last messages of the conversation that there are slots for. */
    function Kept(conversation: seq<Note>, slots: nat): seq<Note> {
      if |conversation| <= slots then conversation else conversation[|conversation| - slots..]
    }

    function KeptOf(messages: seq<Note>): seq<Note>
      requires Valid()
    {
      Kept(ConversationOf(messages), maxHistoryMessages - if DerivedOf(messages) == [] then 0 else 1)
    }

    /** What is kept of the conversation are its newest messages, one less if the system wrote any. */
    lemma KeptAreNewest(messages: seq<Note>) returns (places: seq<nat>)
      requires Valid()
      ensures Picked(messages, FromPeople, places)
      ensures var kept := KeptOf(messages);
              && |kept| == Min(|places|, maxHistoryMessages - if exists m :: m in messages && WrittenBySystem(m) then 1 else 0)
              && forall i :: 0 <= i < |kept| ==>
                   places[|places| - |kept| + i] < |messages| && kept[i] == messages[places[|places| - |kept| + i]]
    {
      hide DerivedOf, ConversationOf, WrittenBySystem, Picked;
      places := ConversationIs(messages);
      NoneDerivedIff(messages);
    }

    /** `pack`: at most the allowed number of messages, the newest of the conversation among them, each
      * within the limit for one message, the whole within the history budget or 1200 characters beside the
      * kernel, and every conversation message either kept or counted as dropped. */
    method Pack(messages: seq<Note>) returns (out: seq<Note>, t: Telemetry, ghost parts: seq<Part>, ghost places: seq<nat>)
      requires Valid()
      ensures |out| <= maxHistoryMessages && t.lastNSafe && 0 <= t.kept <= |out|
      ensures t.kept + t.dropped == |ConversationOf(messages)|
      ensures forall i :: 0 <= i < t.kept ==> |out[i].content| <= perMessageChars
      ensures t.outputChars == Total(out) <= Max(historyChars, t.kernelChars + 1200)
      ensures t.kernelChars <= kernelChars && (t.perMessageSafe <==> t.kernelChars <= perMessageChars)
      ensures LongestKernel() <= perMessageChars ==> t.perMessageSafe && forall m :: m in out ==> |Content(m)| <= perMessageChars
      ensures t.kernelChars == (if DerivedOf(messages) == [] then 0 else |Strip(Joined(parts))|)
      ensures out[t.kept..] == (if DerivedOf(messages) == [] then [] else [Note("context:kernel-pack", "user", Joined(parts), true, "kernel_pack")])
      ensures Selected(KeptOf(messages), 0, places, out[..t.kept], Max(1200, historyChars - t.kernelChars))
      ensures t.clipped == LongOnes(KeptOf(messages), 0)
      ensures DerivedOf(messages) != [] ==> IsKernel(DerivedOf(messages), parts)
    {
      hide Selected, Strip, Joined, Shortened, DerivedOf, ConversationOf, LongOnes, Item, Spoken, Bodies, Total, IsKernel, LongestKernel;
      var derived, conversation := DerivedOf(messages), ConversationOf(messages);
      var kernel;
      kernel, parts := KernelPack(derived);
      var slots := Max(1, maxHistoryMessages - if kernel.Some? then 1 else 0);
      var droppedForSlots := Max(0, |conversation| - slots);
      var kept := Kept(conversation, slots);
      var kernelLength := if kernel.Some? then |Content(KernelNote(kernel.value))| else 0;
      var budget := Max(1200, historyChars - kernelLength);
      var packed, used, dropped, clipped;
      packed, used, dropped, clipped, places := PackConversation(kept, budget);
      out := packed + (if kernel.Some? then [KernelNote(kernel.value)] else []);
      assert out[..|packed|] == packed;
      assert |packed| + dropped + droppedForSlots == |conversation|;
      SelectedSizes(kept, places, packed, budget);
      if kernel.Some? {
        StripNoLonger(kernel.value.content);
        KernelIsNoLonger(derived, parts);
      }
      TotalOfKernel(packed, kernel);
      assert Total(out) == Total(packed) + kernelLength;
      t := Telemetry(Total(out), kernelLength, |packed|, droppedForSlots + dropped, clipped,
                     |out| <= maxHistoryMessages, forall m :: m in out ==> |Content(m)| <= perMessageChars);
      forall m | m in packed ensures |Content(m)| <= perMessageChars {
        StripNoLonger(m.content);
      }
      if kernel.Some? {
        assert KernelNote(kernel.value) in out;
      }
    }

    lemma SelectedSizes(kept: seq<Note>, places: seq<nat>, packed: seq<Note>, budget: int)
      requires Valid() && budget >= 1 && Selected(kept, 0, places, packed, budget)
      ensures Total(packed) <= budget && |packed| <= |kept|
      ensures forall m :: m in packed ==> |m.content| <= perMessageChars
    {
      hide Strip, Item, Shortened;
      TotalNoMore(packed);
      forall m | m in packed ensures |m.content| <= perMessageChars {
        var j :| 0 <= j < |packed| && packed[j] == m;
        ItemSize(kept, places[j], budget);
      }
      IncreasingIsShort(places, 0, |kept|);
    }

    lemma TotalOfKernel(packed: seq<Note>, kernel: Option<Kernel>)
      ensures var out := packed + (if kernel.Some? then [KernelNote(kernel.value)] else []);
              Total(out) == Total(packed) + (if kernel.Some? then |Content(KernelNote(kernel.value))| else 0)
    {
      hide Strip;
      if kernel.Some? {
        assert (packed + [KernelNote(kernel.value)])[..|packed|] == packed;
      } else {
        assert packed + [] == packed;
      }
    }

    /* ---- Kernels that are too long for one message ---- */

    function Full(kind: Section): nat { Max(80, Desired(kind)) }

    function FullChars(kinds: seq<Section>): nat {
      if kinds == [] then 0
      else FullChars(kinds[..|kinds| - 1]) + 2 + |Heading(kinds[|kinds| - 1])| + Full(kinds[|kinds| - 1])
    }

    /** All sections at their full length, or the kernel budget. */
    function LongestKernel(): int { Min(kernelChars, |Preamble()| + FullChars(ORDER)) }

    lemma {:induction false} SpokenChars(derived: seq<Note>, n: nat)
      requires n <= |ORDER|
      ensures FullChars(Spoken(derived, ORDER[..n])) <= FullChars(ORDER[..n])
    {
      hide RowsOf, Heading, Full, FullChars, Spoken;
      if n == 0 {
        NoneSpoken(derived);
      } else {
        SpokenChars(derived, n - 1);
        SpokenOneMore(derived, ORDER, n - 1);
        FullOneMore(ORDER[..n - 1], ORDER[n - 1]);
        assert ORDER[..n] == ORDER[..n - 1] + [ORDER[n - 1]];
        FullOneMore(Spoken(derived, ORDER[..n - 1]), ORDER[n - 1]);
        assert Spoken(derived, ORDER[..n - 1]) + [] == Spoken(derived, ORDER[..n - 1]);
      }
    }

    lemma NoneSpoken(derived: seq<Note>)
      ensures FullChars(Spoken(derived, ORDER[..0])) <= FullChars(ORDER[..0])
    {
    }

    lemma FullOneMore(kinds: seq<Section>, kind: Section)
      ensures FullChars(kinds + [kind]) == FullChars(kinds) + 2 + |Heading(kind)| + Full(kind)
    {
      hide Heading, Full;
      assert (kinds + [kind])[..|kinds|] == kinds;
    }

    lemma {:induction false} FullGrows(kinds: seq<Section>, n: nat)
      requires n <= |kinds|
      ensures FullChars(kinds[..n]) <= FullChars(kinds)
      decreases |kinds|
    {
      hide Heading, Full;
      if n == |kinds| {
        assert kinds[..n] == kinds;
      } else {
        FullGrows(kinds[..|kinds| - 1], n);
        assert kinds[..|kinds| - 1][..n] == kinds[..n];
      }
    }

    lemma PartFits(derived: seq<Note>, used: nat, p: Part)
      requires kernelChars - used > 80 && BodyFits(derived, used, p)
      ensures |p.body| <= Full(p.kind) && used + 2 + |Heading(p.kind)| + |p.body| <= kernelChars
    {
      hide Heading, Label, Lines, RowsOf, ClipText, Desired;
    }

    lemma PartAt(derived: seq<Note>, parts: seq<Part>, i: nat)
      requires i < |parts| && Bodies(derived, parts) && Roomy(parts)
      ensures BodyFits(derived, |Joined(parts[..i])|, parts[i]) && kernelChars - |Joined(parts[..i])| > 80
    {
      hide Joined, BodyFits;
    }

    lemma {:induction false} KernelChars(derived: seq<Note>, parts: seq<Part>, n: nat)
      requires Valid() && n <= |parts| && Bodies(derived, parts) && Roomy(parts)
      ensures |Joined(parts[..n])| <= Min(kernelChars, |Preamble()| + FullChars(KindsOf(parts[..n])))
    {
      hide Heading, Preamble, BodyFits, Bodies, Roomy, Full, Joined, FullChars;
      if n == 0 {
        PreambleAlone();
        assert parts[..0] == [];
      } else {
        KernelChars(derived, parts, n - 1);
        PartAt(derived, parts, n - 1);
        PartFits(derived, |Joined(parts[..n - 1])|, parts[n - 1]);
        assert parts[..n] == parts[..n - 1] + [parts[n - 1]];
        JoinedOneMore(parts[..n - 1], parts[n - 1]);
        FullOneMore(KindsOf(parts[..n - 1]), parts[n - 1].kind);
        assert KindsOf(parts[..n]) == KindsOf(parts[..n - 1]) + [parts[n - 1].kind];
      }
    }

    /** No kernel is longer than that. */
    lemma KernelIsNoLonger(derived: seq<Note>, parts: seq<Part>)
      requires Valid() && IsKernel(derived, parts)
      ensures |Joined(parts)| <= LongestKernel()
    {
      hide Joined, Spoken, FullChars, Bodies, Roomy, Preamble;
      KernelChars(derived, parts, |parts|);
      assert parts[..|parts|] == parts && ORDER[..|ORDER|] == ORDER;
      SpokenChars(derived, |ORDER|);
      FullGrows(Spoken(derived, ORDER), |parts|);
      assert Spoken(derived, ORDER)[..|parts|] == KindsOf(parts);
    }

    lemma SamePart(derived: seq<Note>, used: nat, p: Part, q: Part)
      requires BodyFits(derived, used, p) && BodyFits(derived, used, q) && p.kind == q.kind
      ensures p == q
    {
      hide Heading, Label, Lines, RowsOf, ClipText, Desired;
    }

    lemma {:induction false} KernelsAgree(derived: seq<Note>, p: seq<Part>, q: seq<Part>, n: nat)
      requires IsKernel(derived, p) && IsKernel(derived, q) && n <= |p| && n <= |q|
      ensures p[..n] == q[..n]
    {
      hide Joined, Spoken, BodyFits, Bodies, Roomy;
      if n > 0 {
        KernelsAgree(derived, p, q, n - 1);
        PartAt(derived, p, n - 1);
        PartAt(derived, q, n - 1);
        assert KindsOf(p)[n - 1] == Spoken(derived, ORDER)[n - 1] == KindsOf(q)[n - 1];
        SamePart(derived, |Joined(p[..n - 1])|, p[n - 1], q[n - 1]);
        assert p[..n] == p[..n - 1] + [p[n - 1]] && q[..n] == q[..n - 1] + [q[n - 1]];
      }
    }

    lemma KernelEnds(derived: seq<Note>, p: seq<Part>, q: seq<Part>)
      requires IsKernel(derived, p) && IsKernel(derived, q) && |p| <= |q| && p == q[..|p|]
      ensures p == q
    {
      hide Joined, Spoken, BodyFits, Bodies, Roomy;
      if |p| < |q| {
        PartAt(derived, q, |p|);
      }
    }

    /** The messages determine the kernel. */
    lemma KernelIsUnique(derived: seq<Note>, p: seq<Part>, q: seq<Part>)
      requires IsKernel(derived, p) && IsKernel(derived, q)
      ensures p == q
    {
      hide IsKernel;
      KernelsAgree(derived, p, q, Min(|p|, |q|));
      assert p[..|p|] == p && q[..|q|] == q;
      if |p| <= |q| {
        KernelEnds(derived, p, q);
      } else {
        KernelEnds(derived, q, p);
      }
    }

    /** Bodies of these lengths fit their sections, with more than 80 characters left before each. */
    predicate Fillable(lens: seq<nat>) {
      |lens| <= |ORDER| && Size(lens) <= kernelChars && forall i :: 0 <= i < |lens| ==> FitsAt(lens, i)
    }

    predicate FitsAt(lens: seq<nat>, i: nat)
      requires i < |lens| <= |ORDER|
    {
      1 <= lens[i] <= Full(ORDER[i]) && kernelChars - Size(lens[..i]) > 80
    }

    lemma BodyOfOne(derived: seq<Note>, used: nat, kind: Section, text: string)
      requires RowsOf(derived, kind) == [text] && 1 <= |text| <= Full(kind) && used + 2 + |Heading(kind)| + |text| <= kernelChars
      ensures BodyFits(derived, used, Part(kind, text))
    {
      hide Heading, Label, RowsOf, Desired;
      assert Lines([text]) == text;
    }

    lemma FillableMeans(lens: seq<nat>)
      requires Fillable(lens)
      ensures forall i :: 0 <= i < |lens| ==> 1 <= lens[i] <= Full(ORDER[i]) && kernelChars - Size(lens[..i]) > 80
    {
      hide Size, Full;
      forall i | 0 <= i < |lens| ensures 1 <= lens[i] <= Full(ORDER[i]) && kernelChars - Size(lens[..i]) > 80 {
        assert FitsAt(lens, i);
      }
    }

    lemma FillableParts(lens: seq<nat>, i: nat)
      requires Fillable(lens) && i < |lens|
      ensures |Joined(Parts(lens)[..i])| == Size(lens[..i]) && BodyFits(Notes(lens), Size(lens[..i]), Parts(lens)[i])
    {
      hide Heading, BodyFits, RowsOf, Joined, Size, Full, Notes, FitsAt;
      FillableMeans(lens);
      assert Parts(lens)[..i] == Parts(lens[..i]);
      SizeIsLength(lens[..i]);
      RowsOfNotes(lens, i);
      SizeGrows(lens, i + 1);
      assert lens[..i + 1] == lens[..i] + [lens[i]];
      SizeOneMore(lens[..i], lens[i]);
      BodyOfOne(Notes(lens), Size(lens[..i]), ORDER[i], Xs(lens[i]));
    }

    /** There are messages with that kernel, and it has no white space at its ends. */
    lemma FillableIsKernel(lens: seq<nat>)
      requires Fillable(lens)
      ensures IsKernel(Notes(lens), Parts(lens)) && DerivedOf(Notes(lens)) == Notes(lens)
      ensures lens != [] ==> |Strip(Joined(Parts(lens)))| == Size(lens)
    {
      hide BodyFits, Joined, Size, Spoken, RowsOf, Strip, DerivedOf, Full, Label, FitsAt;
      FillableMeans(lens);
      SpokenByNotes(lens, |ORDER|);
      assert ORDER[..|ORDER|] == ORDER;
      assert KindsOf(Parts(lens)) == ORDER[..|lens|];
      NotesAreDerived(lens);
      SizeIsLength(lens);
      forall i | 0 <= i < |lens|
        ensures BodyFits(Notes(lens), |Joined(Parts(lens)[..i])|, Parts(lens)[i]) && kernelChars - |Joined(Parts(lens)[..i])| > 80
      {
        FillableParts(lens, i);
      }
      if lens != [] {
        XsAreTight(lens[|lens| - 1]);
        KernelIsTight(Parts(lens));
      }
    }

    /** The first `n` sections at their full length. */
    function Fulls(n: nat): (lens: seq<nat>)
      requires n <= |ORDER|
      ensures |lens| == n && forall i :: 0 <= i < n ==> lens[i] == Full(ORDER[i])
    {
      seq(n, i requires 0 <= i < n => Full(ORDER[i]))
    }

    lemma {:induction false} SizeOfFulls(n: nat)
      requires n <= |ORDER|
      ensures Size(Fulls(n)) == |Preamble()| + FullChars(ORDER[..n])
    {
      hide Heading, Preamble, Full;
      if n > 0 {
        SizeOfFulls(n - 1);
        assert Fulls(n)[..n - 1] == Fulls(n - 1);
        assert ORDER[..n] == ORDER[..n - 1] + [ORDER[n - 1]];
        FullOneMore(ORDER[..n - 1], ORDER[n - 1]);
      }
    }

    /** How long the next section may be. */
    function NextLength(lens: seq<nat>): int
      requires |lens| < |ORDER|
    {
      var kind := ORDER[|lens|];
      Min(Full(kind), kernelChars - Size(lens) - |Heading(kind)| - 2)
    }

    lemma NextFits(lens: seq<nat>)
      requires |lens| < |ORDER| && kernelChars - Size(lens) > 80
      ensures 1 <= NextLength(lens) <= Full(ORDER[|lens|])
      ensures Size(lens + [NextLength(lens)]) == Min(Size(lens) + 2 + |Heading(ORDER[|lens|])| + Full(ORDER[|lens|]), kernelChars)
    {
      hide Heading, Size, Desired;
      SizeOneMore(lens, NextLength(lens));
    }

    lemma FillOneMore(lens: seq<nat>, last: nat)
      requires |lens| < |ORDER| && 1 <= last <= Full(ORDER[|lens|]) && Size(lens + [last]) <= kernelChars
      requires kernelChars - Size(lens) > 80 && forall i :: 0 <= i < |lens| ==> 1 <= lens[i] <= Full(ORDER[i])
      ensures Fillable(lens + [last])
    {
      hide Size, Full, FitsAt;
      var all := lens + [last];
      forall i | 0 <= i < |all| ensures FitsAt(all, i) {
        assert all[..i] == lens[..i];
        FitsBefore(lens, all, i);
      }
    }

    lemma FitsBefore(lens: seq<nat>, all: seq<nat>, i: nat)
      requires i <= |lens| < |all| <= |ORDER| && all[..i] == lens[..i] && kernelChars - Size(lens) > 80
      requires 1 <= all[i] <= Full(ORDER[i])
      ensures FitsAt(all, i)
    {
      hide Size, Full;
      SizeGrows(lens, i);
    }

    /** Sections that fill much of the kernel leave one that can make room for the next. */
    lemma {:induction false} SomeSectionIsLong(n: nat) returns (e: nat)
      requires n <= |ORDER| && Size(Fulls(n)) > 117 + 120 * n
      ensures e < n && Full(ORDER[e]) > 81
    {
      hide Full;
      if n > 0 {
        assert Fulls(n)[..n - 1] == Fulls(n - 1);
        if Full(ORDER[n - 1]) > 81 {
          e := n - 1;
        } else {
          e := SomeSectionIsLong(n - 1);
        }
      }
    }

    /** The section with which full sections become too long for one message. */
    lemma {:induction false} FirstTooLong(m: nat) returns (n: nat)
      requires Valid() && m <= |ORDER| && Size(Fulls(m)) > perMessageChars
      ensures 1 <= n <= m && Size(Fulls(n - 1)) <= perMessageChars < Size(Fulls(n))
      ensures Size(Fulls(n)) == Size(Fulls(n - 1)) + 2 + |Heading(ORDER[n - 1])| + Full(ORDER[n - 1])
    {
      hide Heading, Full, Size, Fulls, Preamble;
      SizeOfFulls(0);
      assert ORDER[..0] == [];
      if Size(Fulls(m - 1)) > perMessageChars {
        n := FirstTooLong(m - 1);
      } else {
        n := m;
        FullsOneMore(n);
        SizeOneMore(Fulls(n - 1), Full(ORDER[n - 1]));
      }
    }

    lemma FullsOneMore(n: nat)
      requires 1 <= n <= |ORDER|
      ensures Fulls(n) == Fulls(n - 1) + [Full(ORDER[n - 1])]
    {
    }

    lemma FullsFit(n: nat)
      requires n <= |ORDER|
      ensures forall i :: 0 <= i < n ==> 80 <= Fulls(n)[i] == Full(ORDER[i])
    {
    }

    /** Lengths that make a kernel too long for one message. If the sections that come first leave too little for
      * the next one, one of them is shortened until the next one just fits. */
    lemma LongLengths() returns (lens: seq<nat>)
      requires Valid() && perMessageChars < LongestKernel()
      ensures lens != [] && Fillable(lens) && Size(lens) > perMessageChars
    {
      hide Size, Full, Heading, FullChars, Fillable, Fulls, Preamble, NextLength;
      SizeOfFulls(|ORDER|);
      assert ORDER[..|ORDER|] == ORDER;
      var n := FirstTooLong(|ORDER|);
      var front, kind := Fulls(n - 1), ORDER[n - 1];
      FullsFit(n - 1);
      var left := kernelChars - Size(front);
      if left <= 80 {
        var e := SomeSectionIsLong(n - 1);
        SizeOfShorter(front, e, 81 - left);
        front := front[e := front[e] - (81 - left)];
      }
      NextFits(front);
      FillOneMore(front, NextLength(front));
      AtLeast(kind);
      lens := front + [NextLength(front)];
    }

    lemma AtLeast(kind: Section)
      ensures Full(kind) >= 80
    {
    }

    /** If all sections together may be longer than one message, and the kernel budget too, there are messages
      * whose kernel is too long for one message. */
    lemma KernelMayBeTooLong() returns (messages: seq<Note>)
      requires Valid() && perMessageChars < LongestKernel()
      ensures DerivedOf(messages) != [] && exists parts :: IsKernel(DerivedOf(messages), parts)
      ensures forall parts :: IsKernel(DerivedOf(messages), parts) ==> |Strip(Joined(parts))| > perMessageChars
    {
      hide IsKernel, Fillable, Size, Strip, Joined, DerivedOf;
      var lens := LongLengths();
      FillableIsLimited(lens);
      FillableIsKernel(lens);
      messages := Notes(lens);
      forall parts | IsKernel(DerivedOf(messages), parts) ensures |Strip(Joined(parts))| > perMessageChars {
        KernelIsUnique(DerivedOf(messages), parts, Parts(lens));
      }
    }

    lemma FillableIsLimited(lens: seq<nat>)
      requires Fillable(lens)
      ensures |lens| <= |ORDER|
    {
    }

    /** Exactly which settings make every packet safe for a provider that cuts single messages: those under which
      * all sections at their full length, or else the kernel budget, fit into one message. */
    lemma PerMessageSafeIff()
      requires Valid()
      ensures (forall messages, parts :: IsKernel(DerivedOf(messages), parts) ==> |Strip(Joined(parts))| <= perMessageChars)
              <==> LongestKernel() <= perMessageChars
    {
      hide IsKernel, Strip, Joined, DerivedOf, LongestKernel;
      if LongestKernel() <= perMessageChars {
        forall messages, parts | IsKernel(DerivedOf(messages), parts) ensures |Strip(Joined(parts))| <= perMessageChars {
          KernelIsNoLonger(DerivedOf(messages), parts);
          StripNoLonger(Joined(parts));
        }
      } else {
        var messages := KernelMayBeTooLong();
        var parts :| IsKernel(DerivedOf(messages), parts);
        assert |Strip(Joined(parts))| > perMessageChars;
      }
    }
  }

  lemma KernelIsTight(parts: seq<Part>)
    requires parts != [] && Tight(parts[|parts| - 1].body)
    ensures Strip(Joined(parts)) == Joined(parts)
  {
    hide Heading, Preamble, Strip, IsSpace, Joined, Tight, PartText;
    var n := |parts| - 1;
    PreambleAlone();
    JoinedPrefix(parts, 0);
    assert parts == parts[..n] + [parts[n]] && parts[..0] == [];
    JoinedOneMore(parts[..n], parts[n]);
    TightEnds(Preamble(), Joined(parts), Joined(parts[..n]) + "\n\n", parts[n]);
    TightStays(Joined(parts));
  }

  lemma TightEnds(first: string, s: string, front: string, last: Part)
    requires first <= s && s == front + PartText(last) && first != "" && !IsSpace(first[0]) && Tight(last.body)
    ensures Tight(s)
  {
    hide Heading, IsSpace;
    LastOfTwo(front, Heading(last.kind), last.body);
    assert s[0] == first[0];
  }

  lemma LastOfTwo(x: string, h: string, body: string)
    requires body != ""
    ensures var s := x + (h + body); s != "" && s[|s| - 1] == body[|body| - 1]
  {
  }

  lemma PreambleAlone()
    ensures Joined([]) == Preamble() && |Preamble()| == 117 && !IsSpace(Preamble()[0])
  {
  }
}
/** Streaming a text file as overlapping chunks with exact character offsets, reading no more than one
  * chunk ahead. */
module TextChunks {
  import opened Basics

  datatype Chunk = Chunk(start: nat, end: nat, text: string)

  datatype Window = Window(start: nat, end: nat)

  function ChunkChars(chunkChars: int): nat { Max(1000, chunkChars) }

  function OverlapChars(chunkChars: int, overlapChars: int): (o: nat)
    ensures 2 * o <= ChunkChars(chunkChars)
  {
    Max(0, Min(overlapChars, ChunkChars(chunkChars) / 2))
  }

  function MaxChunks(maxChunks: int): nat { Max(1, maxChunks) }

  /** `s.rfind('\n', lo, hi)`. */
  function LastNewline(s: string, lo: nat, hi: nat): int
    requires lo <= hi <= |s|
    ensures var r := LastNewline(s, lo, hi); r == -1 || lo <= r < hi
    decreases hi
  {
    if hi == lo then -1 else if s[hi - 1] == '\n' then hi - 1 else LastNewline(s, lo, hi - 1)
  }

  /** Where a full buffer is cut: after the last line break near its end, if there is one. */
  function Cut(buffer: string): (cut: nat)
    requires |buffer| >= 1000
    ensures |buffer| < 2 * cut && cut <= |buffer|
  {
    var newline := LastNewline(buffer, Max(|buffer| / 2, |buffer| - 1200), |buffer|);
    if newline > 0 then newline + 1 else |buffer|
  }

  /** The windows from offset `s` on, with no limit on their number: a full window is cut and the next
    * one starts `o` characters before the cut; what does not fill a window is the last one. */
  function Windows(text: string, s: nat, c: nat, o: nat): seq<Window>
    requires s <= |text| && c >= 1000 && 2 * o <= c
    decreases |text| - s
  {
    if s == |text| then []
    else if |text| - s < c then [Window(s, |text|)]
    else
      var e := s + Cut(text[s..s + c]);
      [Window(s, e)] + Windows(text, e - o, c, o)
  }

  predicate Fits(text: string, ws: seq<Window>) {
    forall k :: 0 <= k < |ws| ==> ws[k].start < ws[k].end <= |text|
  }

  function ChunkOf(text: string, w: Window): Chunk
    requires w.start <= w.end <= |text|
  {
    Chunk(w.start, w.end, Strip(text[w.start..w.end]))
  }

  /** The first `left` windows that are not blank. */
  function Emit(text: string, ws: seq<Window>, left: nat): seq<Chunk>
    requires Fits(text, ws)
    decreases |ws|
  {
    if ws == [] || left == 0 then []
    else
      var chunk := ChunkOf(text, ws[0]);
      if chunk.text == "" then Emit(text, ws[1..], left) else [chunk] + Emit(text, ws[1..], left - 1)
  }

  /** The first window at `s`, and where the next one starts. */
  function First(text: string, s: nat, c: nat): Window
    requires s < |text| && c >= 1000
  {
    Window(s, if |text| - s < c then |text| else s + Cut(text[s..s + c]))
  }

  /** The chunks still to come at offset `s` when `left` more are allowed. */
  function ChunksFrom(text: string, s: nat, c: nat, o: nat, left: nat): seq<Chunk>
    requires s <= |text| && c >= 1000 && 2 * o <= c
    decreases |text| - s
  {
    if s == |text| || left == 0 then []
    else
      var w := First(text, s, c);
      var chunk := ChunkOf(text, w);
      if chunk.text == "" then
        if |text| - s < c then [] else ChunksFrom(text, w.end - o, c, o, left)
      else
        [chunk] + if |text| - s < c then [] else ChunksFrom(text, w.end - o, c, o, left - 1)
  }

  function Chunks(text: string, chunkChars: int, overlapChars: int, maxChunks: int): seq<Chunk> {
    ChunksFrom(text, 0, ChunkChars(chunkChars), OverlapChars(chunkChars, overlapChars), MaxChunks(maxChunks))
  }

  /* ---- The stream ---- */

  /** A decoded text stream. A read may come back short, but not empty before the end. */
  class Reader {
    const text: string
    var pos: nat

    constructor (text: string)
      ensures this.text == text && pos == 0
    {
      this.text := text;
      pos := 0;
    }

    method Read(n: nat) returns (piece: string)
      requires n > 0 && pos <= |text|
      modifies this
      ensures old(pos) <= pos <= |text| && piece == text[old(pos)..pos] && |piece| <= n
      ensures piece == "" <==> old(pos) == |text|
    {
      var most := Min(n, |text| - pos);
      var k :| 0 <= k <= most && (k == 0 <==> most == 0);
      piece := text[pos..pos + k];
      pos := pos + k;
    }
  }

  /** Top the buffer up to `c` characters, or to the end of the stream. */
  method Fill(reader: Reader, start: nat, buffer: string, c: nat) returns (full: string, eof: bool)
    requires start <= reader.pos <= |reader.text| && buffer == reader.text[start..reader.pos] && |buffer| <= c
    modifies reader
    ensures start <= reader.pos <= |reader.text| && full == reader.text[start..reader.pos]
    ensures eof <==> |reader.text| - start < c
    ensures |full| == (if eof then |reader.text| - start else c)
  {
    full, eof := buffer, false;
    while |full| < c && !eof
      invariant start <= reader.pos <= |reader.text| && full == reader.text[start..reader.pos] && |full| <= c
      invariant eof ==> reader.pos == |reader.text| && |full| < c
      decreases !eof, c - |full|
    {
      var piece := reader.Read(c - |full|);
      if piece != "" {
        full := full + piece;
      } else {
        eof := true;
      }
    }
  }

  /** The chunk at the front of a filled buffer, and where the buffer is cut. */
  method FrontChunk(ghost text: string, start: nat, buffer: string, eof: bool, c: nat) returns (cut: nat, chunk: Chunk)
    requires c >= 1000 && start < |text| && (eof <==> |text| - start < c)
    requires buffer == text[start..if eof then |text| else start + c]
    ensures chunk == ChunkOf(text, First(text, start, c)) && First(text, start, c).end == start + cut && cut <= |buffer|
  {
    cut := if eof then |buffer| else Cut(buffer);
    assert buffer[..cut] == text[start..start + cut];
    chunk := Chunk(start, start + cut, Strip(buffer[..cut]));
  }

  /** One turn of the stream: the chunk at offset `s`, then the chunks from the next offset. */
  lemma ChunksStep(text: string, s: nat, c: nat, o: nat, left: nat)
    requires s < |text| && c >= 1000 && 2 * o <= c && left > 0
    ensures var w := First(text, s, c);
            var chunk := ChunkOf(text, w);
            var now := if chunk.text == "" then [] else [chunk];
            && (|text| - s < c || s + o < w.end)
            && ChunksFrom(text, s, c, o, left) ==
                 if |text| - s < c then now else now + ChunksFrom(text, w.end - o, c, o, left - |now|)
  {
    hide Cut, Strip;
  }

  lemma ChunksEnd(text: string, s: nat, c: nat, o: nat, left: nat)
    requires s <= |text| && c >= 1000 && 2 * o <= c
    requires s == |text| || left == 0
    ensures ChunksFrom(text, s, c, o, left) == []
  {
  }

  method Stream(reader: Reader, c: nat, o: nat, most: nat) returns (out: seq<Chunk>)
    requires reader.pos == 0 && c >= 1000 && 2 * o <= c
    modifies reader
    ensures out == ChunksFrom(reader.text, 0, c, o, most)
  {
    hide ChunksFrom, First, Cut, ChunkOf, Strip;
    ghost var text := reader.text;
    var buffer, bufferStart, eof, emitted := "", 0, false, 0;
    out := [];
    while emitted < most
      invariant emitted <= most
      invariant bufferStart <= reader.pos <= |text| && buffer == text[bufferStart..reader.pos] && |buffer| <= c
      invariant ChunksFrom(text, 0, c, o, most) == out + ChunksFrom(text, bufferStart, c, o, most - emitted)
      decreases |text| - bufferStart
    {
      buffer, eof := Fill(reader, bufferStart, buffer, c);
      if buffer == "" {
        ChunksEnd(text, bufferStart, c, o, most - emitted);
        return;
      }
      ChunksStep(text, bufferStart, c, o, most - emitted);
      var cut, chunk := FrontChunk(text, bufferStart, buffer, eof, c);
      if chunk.text != "" {
        emitted := emitted + 1;
        out := out + [chunk];
      }
      if eof {
        return;
      }
      buffer := buffer[cut - o..];
      bufferStart := bufferStart + (cut - o);
    }
    ChunksEnd(text, bufferStart, c, o, most - emitted);
  }

  /** The chunks do not depend on how short the reads come back. */
  method StreamTextChunks(reader: Reader, chunkChars: int, overlapChars: int, maxChunks: int) returns (out: seq<Chunk>)
    requires reader.pos == 0
    modifies reader
    ensures out == Chunks(reader.text, chunkChars, overlapChars, maxChunks)
  {
    out := Stream(reader, ChunkChars(chunkChars), OverlapChars(chunkChars, overlapChars), MaxChunks(maxChunks));
  }

  /* ---- What the windows and the chunks are ---- */

  lemma {:induction false} WindowsFit(text: string, s: nat, c: nat, o: nat)
    requires s <= |text| && c >= 1000 && 2 * o <= c
    ensures Fits(text, Windows(text, s, c, o))
    decreases |text| - s
  {
    if s < |text| && |text| - s >= c { WindowsFit(text, s + Cut(text[s..s + c]) - o, c, o); }
  }

  lemma EmitSplits(text: string, w: Window, rest: seq<Window>, left: nat)
    requires Fits(text, [w] + rest) && Fits(text, rest) && w.start <= w.end <= |text| && left > 0
    ensures Emit(text, [w] + rest, left) ==
              (if ChunkOf(text, w).text == "" then Emit(text, rest, left) else [ChunkOf(text, w)] + Emit(text, rest, left - 1))
  {
    hide Strip;
    assert ([w] + rest)[1..] == rest;
  }

  lemma WindowsStep(text: string, s: nat, c: nat, o: nat)
    requires s < |text| && c >= 1000 && 2 * o <= c
    ensures var w := First(text, s, c);
            && s == w.start < w.end <= |text| && (|text| - s >= c ==> s < w.end - o <= s + c)
            && Windows(text, s, c, o) == if |text| - s < c then [w] + [] else [w] + Windows(text, w.end - o, c, o)
  {
    hide Cut;
  }

  /** Streaming is the same as taking the non-blank windows of the whole text. */
  lemma {:induction false} ChunksAreEmittedWindows(text: string, s: nat, c: nat, o: nat, left: nat)
    requires s <= |text| && c >= 1000 && 2 * o <= c
    ensures Fits(text, Windows(text, s, c, o))
    ensures ChunksFrom(text, s, c, o, left) == Emit(text, Windows(text, s, c, o), left)
    decreases |text| - s
  {
    hide Cut, Strip, ChunkOf, Windows, ChunksFrom, First, Fits;
    WindowsFit(text, s, c, o);
    if s == |text| || left == 0 {
      ChunksEnd(text, s, c, o, left);
      NoWindows(text, s, c, o);
    } else {
      var w := First(text, s, c);
      WindowsStep(text, s, c, o);
      ChunksStep(text, s, c, o, left);
      FitsNothing(text);
      if |text| - s < c {
        EmitSplits(text, w, [], left);
      } else {
        ChunksAreEmittedWindows(text, w.end - o, c, o, if ChunkOf(text, w).text == "" then left else left - 1);
        EmitSplits(text, w, Windows(text, w.end - o, c, o), left);
      }
    }
  }

  lemma NoWindows(text: string, s: nat, c: nat, o: nat)
    requires s <= |text| && c >= 1000 && 2 * o <= c
    ensures s == |text| ==> Windows(text, s, c, o) == []
  {
  }

  lemma FitsNothing(text: string)
    ensures Fits(text, [])
  {
  }

  lemma WindowSpeaks(text: string, w: Window)
    requires w.start < w.end <= |text| && forall i :: 0 <= i < |text| ==> !IsSpace(text[i])
    ensures ChunkOf(text, w).text != ""
  {
    hide Strip, IsSpace;
    StripKeeps(text[w.start..w.end], 0);
  }

  lemma RoomForOneLess(s: nat, next: nat, c: nat, n: nat, size: nat)
    requires n > 0 && s + n * c <= size && next <= s + c
    ensures next + (n - 1) * c <= size && c <= size - s
  {
    assert n * c == (n - 1) * c + c;
  }

  /** Where a text without white space is long enough for `n` windows, at least as many chunks are emitted. */
  lemma {:induction false} LongTextHasChunks(text: string, s: nat, c: nat, o: nat, n: nat, left: nat)
    requires c >= 1000 && 2 * o <= c && s + n * c <= |text| && forall i :: 0 <= i < |text| ==> !IsSpace(text[i])
    ensures Fits(text, Windows(text, s, c, o)) && |Emit(text, Windows(text, s, c, o), left)| >= Min(n, left)
    decreases n
  {
    hide Cut, IsSpace, ChunkOf, Emit, First, Windows;
    WindowsFit(text, s, c, o);
    if n > 0 && left > 0 {
      RoomForOneLess(s, s, c, n, |text|);
      var w := First(text, s, c);
      WindowsStep(text, s, c, o);
      RoomForOneLess(s, w.end - o, c, n, |text|);
      LongTextHasChunks(text, w.end - o, c, o, n - 1, left - 1);
      EmitSplits(text, w, Windows(text, w.end - o, c, o), left);
      WindowSpeaks(text, w);
    }
  }

  /** Windows no longer than `c`, each starting `o` before the end of the one before it, and after its start. */
  predicate Overlapping(ws: seq<Window>, c: nat, o: nat) {
    && (forall k :: 0 <= k < |ws| ==> ws[k].start < ws[k].end <= ws[k].start + c)
    && (forall k {:trigger ws[k].end} :: 0 <= k < |ws| - 1 ==> ws[k + 1].start == ws[k].end - o && ws[k].start < ws[k + 1].start)
  }

  lemma NoneOverlap(c: nat, o: nat)
    ensures Overlapping([], c, o)
  {
  }

  lemma OverlapPrepend(w: Window, rest: seq<Window>, c: nat, o: nat)
    requires Overlapping(rest, c, o) && w.start < w.end <= w.start + c
    requires rest != [] ==> rest[0].start == w.end - o && w.start < rest[0].start
    ensures Overlapping([w] + rest, c, o)
  {
    var ws := [w] + rest;
    forall k | 0 <= k < |ws| - 1 ensures ws[k + 1].start == ws[k].end - o && ws[k].start < ws[k + 1].start {
      if k > 0 { assert ws[k] == rest[k - 1] && ws[k + 1] == rest[k]; }
    }
  }

  /** Windows run from the start to the end of the text, never longer than a chunk, each overlapping
    * the one before by exactly the clamped overlap. */
  lemma {:induction false} WindowsOverlapExactly(text: string, s: nat, c: nat, o: nat)
    requires s < |text| && c >= 1000 && 2 * o <= c
    ensures var ws := Windows(text, s, c, o);
            && ws != [] && ws[0].start == s && ws[|ws| - 1].end == |text|
            && Overlapping(ws, c, o)
    decreases |text| - s
  {
    hide Cut, Overlapping;
    NoneOverlap(c, o);
    if |text| - s < c {
      OverlapPrepend(Window(s, |text|), [], c, o);
      assert Windows(text, s, c, o) == [Window(s, |text|)] + [];
    } else {
      var e := s + Cut(text[s..s + c]);
      var rest := Windows(text, e - o, c, o);
      assert Windows(text, s, c, o) == [Window(s, e)] + rest;
      if e - o < |text| { WindowsOverlapExactly(text, e - o, c, o); }
      hide Windows;
      OverlapPrepend(Window(s, e), rest, c, o);
    }
  }

  lemma {:induction false} LastNewlineIs(s: string, lo: nat, hi: nat)
    requires lo <= hi <= |s|
    ensures var r := LastNewline(s, lo, hi);
            && (r >= 0 ==> lo <= r < hi && s[r] == '\n') && (forall i :: lo <= i < hi && i > r ==> s[i] != '\n')
    decreases hi
  {
    if lo < hi && s[hi - 1] != '\n' {
      LastNewlineIs(s, lo, hi - 1);
    }
  }

  /** By how much each window overlaps the one before it, for any parameters. */
  lemma StreamOverlaps(text: string, chunkChars: int, overlapChars: int)
    requires text != ""
    ensures var ws := Windows(text, 0, ChunkChars(chunkChars), OverlapChars(chunkChars, overlapChars));
            var most := (if chunkChars < 1000 then 1000 else chunkChars) / 2;
            forall k {:trigger ws[k].end} :: 0 <= k < |ws| - 1 ==>
              ws[k].end - ws[k + 1].start == if overlapChars < 0 then 0 else if overlapChars > most then most else overlapChars
  {
    hide Windows;
    WindowsOverlapExactly(text, 0, ChunkChars(chunkChars), OverlapChars(chunkChars, overlapChars));
  }

  /** Where a window ends: at the end of the text if less than a full window is left, else after the last line break of
    * the full window's last 1200 characters or of its second half, whichever is shorter, or full if there is no line break. */
  predicate EndsRightly(text: string, w: Window, c: nat) {
    if |text| < w.start + c then w.end == |text|
    else
      && w.start < w.end <= w.start + c
      && (forall i :: Max(w.end, w.start + Max(c / 2, c - 1200)) <= i < w.start + c ==> text[i] != '\n')
      && (w.end == w.start + c || (text[w.end - 1] == '\n' && w.end - 1 >= w.start + Max(c / 2, c - 1200)))
  }

  lemma CutIsRight(text: string, s: nat, c: nat)
    requires c >= 1000 && s + c <= |text|
    ensures EndsRightly(text, Window(s, s + Cut(text[s..s + c])), c)
  {
    var buffer, lo := text[s..s + c], Max(c / 2, c - 1200);
    LastNewlineIs(buffer, lo, c);
    forall i | Max(s + Cut(buffer), s + lo) <= i < s + c ensures text[i] != '\n' {
      assert text[i] == buffer[i - s];
    }
  }

  lemma {:induction false} WindowsEndRightly(text: string, s: nat, c: nat, o: nat)
    requires s <= |text| && c >= 1000 && 2 * o <= c
    ensures forall k :: 0 <= k < |Windows(text, s, c, o)| ==> EndsRightly(text, Windows(text, s, c, o)[k], c)
    decreases |text| - s
  {
    hide EndsRightly;
    if s < |text| && |text| - s >= c {
      CutIsRight(text, s, c);
      hide Cut;
      var e := s + Cut(text[s..s + c]);
      WindowsEndRightly(text, e - o, c, o);
    } else if s < |text| {
      LastWindowEnds(text, s, c);
    }
  }

  lemma LastWindowEnds(text: string, s: nat, c: nat)
    requires s <= |text| < s + c
    ensures EndsRightly(text, Window(s, |text|), c)
  {
  }

  /** Every offset lies in a window. */
  lemma {:induction false} WindowsCover(text: string, s: nat, c: nat, o: nat, p: nat)
    requires c >= 1000 && 2 * o <= c && s <= p < |text|
    ensures exists w :: w in Windows(text, s, c, o) && w.start <= p < w.end
    decreases |text| - s
  {
    hide Cut;
    var ws := Windows(text, s, c, o);
    if |text| - s < c {
      assert ws[0] in ws;
    } else {
      var e := s + Cut(text[s..s + c]);
      if p < e {
        assert ws[0] in ws;
      } else {
        WindowsCover(text, e - o, c, o, p);
        var w :| w in Windows(text, e - o, c, o) && w.start <= p < w.end;
        assert w in ws;
      }
    }
  }

  predicate Ascending(ws: seq<Window>) { forall i, j :: 0 <= i < j < |ws| ==> ws[i].start < ws[j].start }

  ghost predicate FromWindow(text: string, ws: seq<Window>, chunk: Chunk)
    requires Fits(text, ws)
  {
    chunk.text != "" && exists k :: 0 <= k < |ws| && chunk == ChunkOf(text, ws[k])
  }

  lemma FromTail(text: string, ws: seq<Window>, chunk: Chunk)
    requires Fits(text, ws) && ws != [] && FromWindow(text, ws[1..], chunk)
    ensures FromWindow(text, ws, chunk)
    ensures Ascending(ws) ==> ws[0].start < chunk.start
  {
    var k :| 0 <= k < |ws[1..]| && chunk == ChunkOf(text, ws[1..][k]);
    assert chunk == ChunkOf(text, ws[k + 1]);
  }

  /** Chunks are non-blank windows, in order. */
  lemma {:induction false} EmitIsOrdered(text: string, ws: seq<Window>, left: nat)
    requires Fits(text, ws) && Ascending(ws)
    ensures var out := Emit(text, ws, left);
            && |out| <= left
            && (forall k :: 0 <= k < |out| ==> FromWindow(text, ws, out[k]))
            && (forall i, j :: 0 <= i < j < |out| ==> out[i].start < out[j].start)
    decreases |ws|
  {
    hide Strip;
    if ws != [] && left > 0 {
      var chunk := ChunkOf(text, ws[0]);
      var left' := if chunk.text == "" then left else left - 1;
      assert Ascending(ws[1..]);
      EmitIsOrdered(text, ws[1..], left');
      var rest := Emit(text, ws[1..], left');
      forall k | 0 <= k < |rest| ensures FromWindow(text, ws, rest[k]) && ws[0].start < rest[k].start {
        FromTail(text, ws, rest[k]);
      }
      if chunk.text != "" { assert chunk == ChunkOf(text, ws[0]); }
    }
  }

  /** Unless the limit is reached every non-blank window is emitted. */
  lemma {:induction false} EmitIsComplete(text: string, ws: seq<Window>, left: nat, k: nat)
    requires Fits(text, ws) && |Emit(text, ws, left)| < left
    requires k < |ws| && ChunkOf(text, ws[k]).text != ""
    ensures ChunkOf(text, ws[k]) in Emit(text, ws, left)
    decreases |ws|
  {
    hide Strip;
    if k > 0 {
      EmitIsComplete(text, ws[1..], if ChunkOf(text, ws[0]).text == "" then left else left - 1, k - 1);
      assert ws[1..][k - 1] == ws[k];
    }
  }

  lemma AscendingStarts(text: string, s: nat, c: nat, o: nat)
    requires s <= |text| && c >= 1000 && 2 * o <= c
    ensures Ascending(Windows(text, s, c, o))
  {
    var ws := Windows(text, s, c, o);
    if s < |text| {
      WindowsOverlapExactly(text, s, c, o);
      AscendingFromSteps(ws);
    }
  }

  lemma {:induction false} AscendingFromSteps(ws: seq<Window>)
    requires forall k :: 0 <= k < |ws| - 1 ==> ws[k].start < ws[k + 1].start
    ensures Ascending(ws)
    decreases |ws|
  {
    if |ws| > 1 {
      var init := ws[..|ws| - 1];
      forall k | 0 <= k < |init| - 1 ensures init[k].start < init[k + 1].start {
        assert ws[k].start < ws[k + 1].start;
      }
      AscendingFromSteps(init);
      forall i, j | 0 <= i < j < |ws| ensures ws[i].start < ws[j].start {
        if j < |init| { assert init[i].start < init[j].start; }
        else if i < j - 1 { assert init[i].start < init[j - 1].start && ws[j - 1].start < ws[j].start; }
      }
    }
  }

  lemma WindowsAreNoLonger(text: string, c: nat, o: nat)
    requires c >= 1000 && 2 * o <= c
    ensures forall w :: w in Windows(text, 0, c, o) ==> w.end <= w.start + c
  {
    hide Cut;
    if text != "" {
      WindowsOverlapExactly(text, 0, c, o);
    }
  }

  /** For every text and every parameter value: at most the allowed number of chunks, starting at
    * strictly increasing offsets, each the stripped text of its own range. */
  lemma ChunksAreExactRanges(text: string, chunkChars: int, overlapChars: int, maxChunks: int)
    ensures var out := Chunks(text, chunkChars, overlapChars, maxChunks);
            && |out| <= (if maxChunks < 1 then 1 else maxChunks)
            && (forall i, j :: 0 <= i < j < |out| ==> out[i].start < out[j].start)
            && (forall k :: 0 <= k < |out| ==> out[k].end - out[k].start <= if chunkChars < 1000 then 1000 else chunkChars)
            && (forall k :: 0 <= k < |out| ==>
                  out[k].start < out[k].end <= |text| && out[k].text == Strip(text[out[k].start..out[k].end]) && out[k].text != "")
  {
    hide Windows, Cut, Strip, Emit, ChunksFrom;
    var c, o := ChunkChars(chunkChars), OverlapChars(chunkChars, overlapChars);
    var ws, out := Windows(text, 0, c, o), Chunks(text, chunkChars, overlapChars, maxChunks);
    ChunksAreEmittedWindows(text, 0, c, o, MaxChunks(maxChunks));
    AscendingStarts(text, 0, c, o);
    EmitIsOrdered(text, ws, MaxChunks(maxChunks));
    forall k | 0 <= k < |out|
      ensures out[k].start < out[k].end <= |text| && out[k].text == Strip(text[out[k].start..out[k].end]) && out[k].text != ""
      ensures out[k].end - out[k].start <= c
    {
      assert FromWindow(text, ws, out[k]);
      WindowsAreNoLonger(text, c, o);
    }
  }

  /** Unless the limit was reached, every character that is not white space is inside a chunk. */
  lemma ChunksCoverTheText(text: string, chunkChars: int, overlapChars: int, maxChunks: int, p: nat)
    requires |Chunks(text, chunkChars, overlapChars, maxChunks)| < MaxChunks(maxChunks)
    requires p < |text| && !IsSpace(text[p])
    ensures exists chunk :: chunk in Chunks(text, chunkChars, overlapChars, maxChunks) && chunk.start <= p < chunk.end
  {
    hide Windows, Cut, Strip, Emit, ChunksFrom;
    var c, o := ChunkChars(chunkChars), OverlapChars(chunkChars, overlapChars);
    var ws := Windows(text, 0, c, o);
    ChunksAreEmittedWindows(text, 0, c, o, MaxChunks(maxChunks));
    WindowsCover(text, 0, c, o, p);
    var w :| w in ws && w.start <= p < w.end;
    var n :| 0 <= n < |ws| && ws[n] == w;
    StripKeeps(text[w.start..w.end], p - w.start);
    EmitIsComplete(text, ws, MaxChunks(maxChunks), n);
  }
}

/** Building the text index of one file under a build lease: the chunks are embedded in batches, a row is
  * written for each, and a completion marker records that the whole file was done. */
module TextIndex {
  import opened Basics
  import opened PrefixCache
  import opened TextChunks
  import opened VectorStore

  /* ---- Keys ---- */

  predicate IsDigit(c: char) { '0' <= c <= '9' }

  function Number(s: string): nat {
    if s == "" then 0
    else Number(s[..|s| - 1]) * 10 + if IsDigit(s[|s| - 1]) then s[|s| - 1] as nat - '0' as nat else 0
  }

  /** Decimal numerals read back, and contain no colon. */
  lemma {:induction false} NumberOfDigits(n: nat)
    ensures Number(Digits(n)) == n && Digits(n) != "" && forall c :: c in Digits(n) ==> IsDigit(c)
    decreases n
  {
    var front, last := if n < 10 then "" else Digits(n / 10), "0123456789"[n % 10];
    if n >= 10 {
      NumberOfDigits(n / 10);
    }
    DigitReads(n % 10);
    assert Digits(n) == front + [last];
    assert Digits(n)[..|Digits(n)| - 1] == front;
  }

  lemma DigitReads(d: nat)
    requires d < 10
    ensures IsDigit("0123456789"[d]) && "0123456789"[d] as nat == '0' as nat + d
  {
    assert d == 0 || d == 1 || d == 2 || d == 3 || d == 4 || d == 5 || d == 6 || d == 7 || d == 8 || d == 9;
  }

  function UnitKey(item: string, backend: string, c: Chunk): Key {
    Key("text-chunk:" + item + ":" + (Digits(c.start) + ":" + Digits(c.end)), backend)
  }

  /** The key of a chunk tells where it starts. */
  lemma UnitKeyTellsStart(item: string, backend: string, c: Chunk, d: Chunk)
    requires UnitKey(item, backend, c) == UnitKey(item, backend, d)
    ensures c.start == d.start
  {
    hide Digits;
    var p := "text-chunk:" + item + ":";
    var x, y := Digits(c.start) + ":" + Digits(c.end), Digits(d.start) + ":" + Digits(d.end);
    assert (p + x)[|p|..] == x && (p + y)[|p|..] == y;
    NumberOfDigits(c.start);
    NumberOfDigits(d.start);
    CutAtFirst(Digits(c.start), Digits(c.end), Digits(d.start), Digits(d.end), ':');
  }

  /** The number under a key, if it holds a decimal numeral. */
  function Recorded(meta: map<string, string>, key: string): Option<nat> {
    if key in meta && meta[key] != "" && forall c :: c in meta[key] ==> IsDigit(c) then Some(Number(meta[key])) else None
  }

  /** The count a marker is written with is the count that is read back, and no other marker changes. */
  lemma MarkerReadsBack(meta: map<string, string>, key: string, n: nat)
    ensures var after := meta[key := Digits(n)];
            Recorded(after, key) == Some(n) && forall k :: k != key ==> Recorded(after, k) == Recorded(meta, k)
  {
    hide Digits, Number;
    NumberOfDigits(n);
  }

  predicate Starts(cs: seq<Chunk>) { forall i, j :: 0 <= i < j < |cs| ==> cs[i].start < cs[j].start }

  function ChunkKeys(item: string, backend: string, cs: seq<Chunk>): set<Key> {
    if cs == [] then {} else ChunkKeys(item, backend, cs[..|cs| - 1]) + {UnitKey(item, backend, cs[|cs| - 1])}
  }

  lemma {:induction false} ChunkKeysIff(item: string, backend: string, cs: seq<Chunk>, k: Key)
    ensures k in ChunkKeys(item, backend, cs) <==> exists c :: c in cs && k == UnitKey(item, backend, c)
    decreases |cs|
  {
    hide UnitKey;
    if cs != [] {
      ChunkKeysIff(item, backend, cs[..|cs| - 1], k);
      assert cs == cs[..|cs| - 1] + [cs[|cs| - 1]];
    }
  }

  /** Chunks of one file have different keys, so counting chunks counts keys. */
  lemma {:induction false} CountIsKeys(item: string, backend: string, cs: seq<Chunk>)
    requires Starts(cs)
    ensures |ChunkKeys(item, backend, cs)| == |cs|
    decreases |cs|
  {
    hide UnitKey;
    if cs != [] {
      var front, last := cs[..|cs| - 1], cs[|cs| - 1];
      CountIsKeys(item, backend, front);
      ChunkKeysIff(item, backend, front, UnitKey(item, backend, last));
      forall c | c in front ensures UnitKey(item, backend, c) != UnitKey(item, backend, last) {
        if UnitKey(item, backend, c) == UnitKey(item, backend, last) {
          UnitKeyTellsStart(item, backend, c, last);
        }
      }
    }
  }

  /* ---- More chunks allowed ---- */

  lemma {:induction false} EmitMore(text: string, ws: seq<Window>, few: nat, many: nat)
    requires Fits(text, ws) && few <= many
    ensures Emit(text, ws, few) <= Emit(text, ws, many)
    ensures |Emit(text, ws, few)| < few ==> Emit(text, ws, few) == Emit(text, ws, many)
    decreases |ws|
  {
    hide Strip;
    if ws != [] && few > 0 {
      if ChunkOf(text, ws[0]).text == "" {
        EmitMore(text, ws[1..], few, many);
      } else {
        EmitMore(text, ws[1..], few - 1, many - 1);
      }
    }
  }

  /** With a larger limit the chunks begin the same, and are the same if the smaller limit cut none off. */
  lemma ChunksMore(text: string, chunkChars: int, overlapChars: int, few: int, many: int)
    requires few <= many
    ensures Chunks(text, chunkChars, overlapChars, few) <= Chunks(text, chunkChars, overlapChars, many)
    ensures |Chunks(text, chunkChars, overlapChars, few)| < MaxChunks(few) ==>
              Chunks(text, chunkChars, overlapChars, few) == Chunks(text, chunkChars, overlapChars, many)
  {
    hide Windows, Emit, ChunksFrom;
    var c, o := ChunkChars(chunkChars), OverlapChars(chunkChars, overlapChars);
    ChunksAreEmittedWindows(text, 0, c, o, MaxChunks(few));
    ChunksAreEmittedWindows(text, 0, c, o, MaxChunks(many));
    EmitMore(text, Windows(text, 0, c, o), MaxChunks(few), MaxChunks(many));
  }

  /* ---- Rows ---- */

  function UnitOf(item: string, sourceFp: string, c: Chunk, excerptChars: nat): Unit {
    Unit(item, sourceFp, "text", None, None, Some(c.start), Some(c.end), Take(c.text, excerptChars))
  }

  datatype Source = Source(item: string, fingerprint: string, backend: string, excerptChars: nat)

  predicate Indexed(src: Source, units: map<Key, Unit>, c: Chunk) {
    var k := UnitKey(src.item, src.backend, c);
    k in units && units[k] == UnitOf(src.item, src.fingerprint, c, src.excerptChars)
  }

  /** The row of a chunk names the file, its version and the chunk's place, and quotes the first characters of the chunk. */
  lemma IndexedIff(src: Source, units: map<Key, Unit>, c: Chunk)
    ensures Indexed(src, units, c) <==>
              exists k :: k in units && k == UnitKey(src.item, src.backend, c)
                && units[k].sourceKey == src.item && units[k].sourceFingerprint == src.fingerprint && units[k].modality == "text"
                && units[k].start == None && units[k].end == None && units[k].charStart == Some(c.start) && units[k].charEnd == Some(c.end)
                && units[k].excerpt <= c.text && |units[k].excerpt| == Min(src.excerptChars, |c.text|)
  {
  }

  predicate AllIndexed(src: Source, units: map<Key, Unit>, cs: seq<Chunk>) { forall c :: c in cs ==> Indexed(src, units, c) }

  ghost predicate RowOf(src: Source, k: Key, u: Unit, cs: seq<Chunk>) {
    exists c :: c in cs && k == UnitKey(src.item, src.backend, c) && u == UnitOf(src.item, src.fingerprint, c, src.excerptChars)
  }

  /** Rows are only added or rewritten, and only for the chunks `cs`. */
  ghost predicate Grew(src: Source, was: map<Key, Unit>, now: map<Key, Unit>, cs: seq<Chunk>) {
    && was.Keys <= now.Keys
    && forall k :: k in now ==> (k in was && now[k] == was[k]) || RowOf(src, k, now[k], cs)
  }

  lemma GrewNot(src: Source, was: map<Key, Unit>, cs: seq<Chunk>)
    ensures Grew(src, was, was, cs)
  {
  }

  lemma GrewTwice(src: Source, a: map<Key, Unit>, b: map<Key, Unit>, c: map<Key, Unit>, xs: seq<Chunk>, cs: seq<Chunk>)
    requires Grew(src, a, b, cs) && Grew(src, b, c, xs) && forall x :: x in xs ==> x in cs
    ensures Grew(src, a, c, cs)
  {
    hide UnitKey, UnitOf;
  }

  /** Writing the row of one chunk: it is indexed, and no chunk that was indexed stops being so. */
  lemma WriteOne(src: Source, was: map<Key, Unit>, units: map<Key, Unit>, cs: seq<Chunk>, n: nat)
    requires Grew(src, was, units, cs) && n < |cs| && Starts(cs)
    ensures var now := units[UnitKey(src.item, src.backend, cs[n]) := UnitOf(src.item, src.fingerprint, cs[n], src.excerptChars)];
            && Grew(src, was, now, cs) && Indexed(src, now, cs[n])
            && forall c :: c in cs && Indexed(src, units, c) ==> Indexed(src, now, c)
  {
    hide UnitKey, UnitOf;
    var key := UnitKey(src.item, src.backend, cs[n]);
    var now := units[key := UnitOf(src.item, src.fingerprint, cs[n], src.excerptChars)];
    forall c | c in cs && Indexed(src, units, c) ensures Indexed(src, now, c) {
      if UnitKey(src.item, src.backend, c) == key {
        UnitKeyTellsStart(src.item, src.backend, c, cs[n]);
        var m :| 0 <= m < |cs| && cs[m] == c;
      }
    }
    assert RowOf(src, key, now[key], cs);
  }

  /** Chunks that were indexed stay so while rows of this file are written. */
  lemma StillIndexed(src: Source, was: map<Key, Unit>, now: map<Key, Unit>, cs: seq<Chunk>, done: seq<Chunk>)
    requires Grew(src, was, now, cs) && Starts(cs) && AllIndexed(src, was, done) && forall c :: c in done ==> c in cs
    ensures AllIndexed(src, now, done)
  {
    hide UnitKey, UnitOf;
    forall c | c in done ensures Indexed(src, now, c) {
      var k := UnitKey(src.item, src.backend, c);
      assert Indexed(src, was, c);
      if RowOf(src, k, now[k], cs) {
        var d :| d in cs && k == UnitKey(src.item, src.backend, d) && now[k] == UnitOf(src.item, src.fingerprint, d, src.excerptChars);
        UnitKeyTellsStart(src.item, src.backend, c, d);
        var m, n :| 0 <= m < |cs| && 0 <= n < |cs| && cs[m] == c && cs[n] == d;
      }
    }
  }

  /* ---- Vectors ---- */

  type Memory = map<string, (string, seq<real>)>

  /** The store has the vector of the chunk's text. */
  predicate Stored(src: Source, fp: string -> string, vectors: map<Key, Vector>, c: Chunk) {
    var k := UnitKey(src.item, src.backend, c);
    k in vectors && vectors[k].fingerprint == fp(c.text)
  }

  /** Memory holds the vector of the chunk's text. */
  predicate Held(src: Source, fp: string -> string, memory: Memory, c: Chunk) {
    var k := UnitKey(src.item, src.backend, c).cacheKey;
    k in memory && memory[k].0 == fp(c.text)
  }

  predicate AllAtHand(src: Source, fp: string -> string, vectors: map<Key, Vector>, memory: Memory, cs: seq<Chunk>) {
    forall c :: c in cs ==> Stored(src, fp, vectors, c) || Held(src, fp, memory, c)
  }

  predicate WrittenFor(src: Source, fp: string -> string, k: Key, v: Vector, c: Chunk) {
    k == UnitKey(src.item, src.backend, c) && v.fingerprint == fp(c.text)
  }

  predicate HeldFor(src: Source, fp: string -> string, k: string, mark: string, c: Chunk) {
    k == UnitKey(src.item, src.backend, c).cacheKey && mark == fp(c.text)
  }

  /** Vectors change only by being computed for the chunks `cs`; none is removed. */
  ghost predicate VectorsKept(src: Source, fp: string -> string, was: map<Key, Vector>, now: map<Key, Vector>, cs: seq<Chunk>) {
    && was.Keys <= now.Keys
    && forall k :: k in now ==> (k in was && now[k] == was[k]) || exists c :: c in cs && WrittenFor(src, fp, k, now[k], c)
  }

  /** What is in memory was there before, or belongs to the chunks `cs`. */
  ghost predicate MemoryKept(src: Source, fp: string -> string, was: Memory, now: Memory, cs: seq<Chunk>) {
    forall k :: k in now ==> (k in was && now[k] == was[k]) || exists c :: c in cs && HeldFor(src, fp, k, now[k].0, c)
  }

  predicate Foreign(src: Source, k: string, cs: seq<Chunk>) { forall c :: c in cs ==> UnitKey(src.item, src.backend, c).cacheKey != k }

  /** What is in memory for anything but the chunks `cs` stays. */
  ghost predicate Untouched(src: Source, was: Memory, now: Memory, cs: seq<Chunk>) {
    forall k :: k in was && Foreign(src, k, cs) ==> k in now && now[k] == was[k]
  }

  /** A vector that memory held is not written to the store. */
  predicate HeldUnwritten(src: Source, fp: string -> string, memory: Memory, was: map<Key, Vector>, now: map<Key, Vector>, cs: seq<Chunk>) {
    forall c :: c in cs && Held(src, fp, memory, c) && UnitKey(src.item, src.backend, c) in now ==> UnitKey(src.item, src.backend, c) in was
  }

  /** Memory grows by one entry for a chunk at most. */
  lemma {:induction false} MemorySize(src: Source, fp: string -> string, was: Memory, now: Memory, cs: seq<Chunk>)
    requires MemoryKept(src, fp, was, now, cs)
    ensures |now| <= |was| + |cs| && forall c :: c in cs ==> |now.Keys + {UnitKey(src.item, src.backend, c).cacheKey}| <= |was| + |cs|
  {
    hide UnitKey;
    var ks := CacheKeys(src, cs);
    CacheKeysIff(src, cs);
    assert forall k :: k in now.Keys ==> k in was.Keys + ks;
    SubsetSize(now.Keys, was.Keys + ks);
    forall c | c in cs ensures |now.Keys + {UnitKey(src.item, src.backend, c).cacheKey}| <= |was| + |cs| {
      SubsetSize(now.Keys + {UnitKey(src.item, src.backend, c).cacheKey}, was.Keys + ks);
    }
  }

  function CacheKeys(src: Source, cs: seq<Chunk>): (ks: set<string>)
    ensures |ks| <= |cs|
  {
    if cs == [] then {} else CacheKeys(src, cs[..|cs| - 1]) + {UnitKey(src.item, src.backend, cs[|cs| - 1]).cacheKey}
  }

  lemma {:induction false} CacheKeysIff(src: Source, cs: seq<Chunk>)
    ensures forall c :: c in cs ==> UnitKey(src.item, src.backend, c).cacheKey in CacheKeys(src, cs)
    decreases |cs|
  {
    hide UnitKey;
    if cs != [] {
      CacheKeysIff(src, cs[..|cs| - 1]);
      assert cs == cs[..|cs| - 1] + [cs[|cs| - 1]];
    }
  }

  lemma UntouchedTwice(src: Source, a: Memory, b: Memory, c: Memory, xs: seq<Chunk>, ys: seq<Chunk>, cs: seq<Chunk>)
    requires Untouched(src, a, b, xs) && Untouched(src, b, c, ys) && forall x :: x in xs || x in ys ==> x in cs
    ensures Untouched(src, a, c, cs)
  {
    hide UnitKey;
    forall k | k in a && Foreign(src, k, cs) ensures k in c && c[k] == a[k] {
      assert Foreign(src, k, xs) && Foreign(src, k, ys);
    }
  }

  lemma LaterIsForeign(src: Source, cs: seq<Chunk>, n: nat)
    requires n < |cs| && Starts(cs)
    ensures Foreign(src, UnitKey(src.item, src.backend, cs[n]).cacheKey, cs[..n])
  {
    hide UnitKey, Starts;
    forall d | d in cs[..n] ensures UnitKey(src.item, src.backend, d).cacheKey != UnitKey(src.item, src.backend, cs[n]).cacheKey {
      if UnitKey(src.item, src.backend, d).cacheKey == UnitKey(src.item, src.backend, cs[n]).cacheKey {
        SameBackend(src, cs[n], d);
        EarlierStart(cs, n, d);
        UnitKeyTellsStart(src.item, src.backend, cs[n], d);
      }
    }
  }

  /** What was in memory for a chunk that is not done yet still is. */
  lemma HeldStays(src: Source, fp: string -> string, was: Memory, now: Memory, cs: seq<Chunk>, n: nat)
    requires n < |cs| && Starts(cs) && Untouched(src, was, now, cs[..n]) && Held(src, fp, was, cs[n])
    ensures Held(src, fp, now, cs[n])
  {
    hide UnitKey, Starts, Foreign;
    LaterIsForeign(src, cs, n);
  }

  /** A chunk that is not done yet has no vector that it did not have. */
  lemma NotYetWritten(src: Source, fp: string -> string, was: map<Key, Vector>, now: map<Key, Vector>, cs: seq<Chunk>, n: nat)
    requires n < |cs| && Starts(cs) && VectorsKept(src, fp, was, now, cs[..n]) && UnitKey(src.item, src.backend, cs[n]) in now
    ensures UnitKey(src.item, src.backend, cs[n]) in was
  {
    hide UnitKey, Starts;
    LaterIsForeign(src, cs, n);
  }

  lemma SameChunk(src: Source, cs: seq<Chunk>, c: Chunk, d: Chunk)
    requires Starts(cs) && c in cs && d in cs && UnitKey(src.item, src.backend, c) == UnitKey(src.item, src.backend, d)
    ensures c == d
  {
    hide UnitKey;
    UnitKeyTellsStart(src.item, src.backend, c, d);
    var m, n :| 0 <= m < |cs| && 0 <= n < |cs| && cs[m] == c && cs[n] == d;
  }

  lemma StoredStays(src: Source, fp: string -> string, was: map<Key, Vector>, now: map<Key, Vector>, cs: seq<Chunk>, c: Chunk)
    requires VectorsKept(src, fp, was, now, cs) && Starts(cs) && c in cs && Stored(src, fp, was, c)
    ensures Stored(src, fp, now, c)
  {
    hide UnitKey, Starts;
    var k := UnitKey(src.item, src.backend, c);
    if now[k] != was[k] {
      var d :| d in cs && WrittenFor(src, fp, k, now[k], d);
      SameChunk(src, cs, c, d);
    }
  }

  /** A vector in memory that does not belong to the chunks done was there before. */
  lemma HeldBefore(src: Source, fp: string -> string, was: Memory, now: Memory, cs: seq<Chunk>, n: nat)
    requires n < |cs| && Starts(cs) && MemoryKept(src, fp, was, now, cs[..n]) && Held(src, fp, now, cs[n])
    ensures Held(src, fp, was, cs[n])
  {
    hide UnitKey, Starts;
    var k := UnitKey(src.item, src.backend, cs[n]);
    if !(k.cacheKey in was && now[k.cacheKey] == was[k.cacheKey]) {
      var d :| d in cs[..n] && HeldFor(src, fp, k.cacheKey, now[k.cacheKey].0, d);
      SameBackend(src, cs[n], d);
      EarlierStart(cs, n, d);
      UnitKeyTellsStart(src.item, src.backend, cs[n], d);
    }
  }

  lemma SameBackend(src: Source, c: Chunk, d: Chunk)
    requires UnitKey(src.item, src.backend, c).cacheKey == UnitKey(src.item, src.backend, d).cacheKey
    ensures UnitKey(src.item, src.backend, c) == UnitKey(src.item, src.backend, d)
  {
  }

  lemma EarlierStart(cs: seq<Chunk>, n: nat, d: Chunk)
    requires n < |cs| && Starts(cs) && d in cs[..n]
    ensures d.start < cs[n].start
  {
    var m :| 0 <= m < n && cs[m] == d;
  }

  lemma VectorsKeptTwice(src: Source, fp: string -> string, a: map<Key, Vector>, b: map<Key, Vector>, c: map<Key, Vector>,
                         xs: seq<Chunk>, cs: seq<Chunk>)
    requires VectorsKept(src, fp, a, b, cs) && VectorsKept(src, fp, b, c, xs) && forall x :: x in xs ==> x in cs
    ensures VectorsKept(src, fp, a, c, cs)
  {
    hide WrittenFor;
  }

  lemma MemoryKeptTwice(src: Source, fp: string -> string, a: Memory, b: Memory, c: Memory, xs: seq<Chunk>, ys: seq<Chunk>, cs: seq<Chunk>)
    requires MemoryKept(src, fp, a, b, xs) && MemoryKept(src, fp, b, c, ys)
    requires forall x :: x in xs || x in ys ==> x in cs
    ensures MemoryKept(src, fp, a, c, cs)
  {
    hide HeldFor;
  }

  lemma NothingWritten(src: Source, fp: string -> string, vectors: map<Key, Vector>, memory: Memory, cs: seq<Chunk>)
    ensures VectorsKept(src, fp, vectors, vectors, cs) && MemoryKept(src, fp, memory, memory, cs)
    ensures AllAtHand(src, fp, vectors, memory, []) && Untouched(src, memory, memory, cs) && HeldUnwritten(src, fp, memory, vectors, vectors, cs)
  {
  }

  lemma RememberedOne(src: Source, fp: string -> string, was: Memory, now: Memory, c: Chunk)
    requires forall k :: k in now ==> (k in was && now[k] == was[k]) || HeldFor(src, fp, k, now[k].0, c)
    ensures MemoryKept(src, fp, was, now, [c])
    ensures (forall k :: k in was && k != UnitKey(src.item, src.backend, c).cacheKey ==> k in now && now[k] == was[k]) ==> Untouched(src, was, now, [c])
  {
    hide UnitKey;
    assert c in [c];
  }

  lemma WroteOne(src: Source, fp: string -> string, was: map<Key, Vector>, now: map<Key, Vector>, c: Chunk)
    requires UnitKey(src.item, src.backend, c) in now && now == was[UnitKey(src.item, src.backend, c) := now[UnitKey(src.item, src.backend, c)]]
    requires now[UnitKey(src.item, src.backend, c)].fingerprint == fp(c.text)
    ensures VectorsKept(src, fp, was, now, [c]) && Stored(src, fp, now, c)
  {
    hide UnitKey;
    assert c in [c] && WrittenFor(src, fp, UnitKey(src.item, src.backend, c), now[UnitKey(src.item, src.backend, c)], c);
  }

  /* ---- The worker ---- */

  /** A clock that does not go back. */
  class Clock {
    var now: real

    method Read() returns (t: real)
      modifies this
      ensures t == now >= old(now)
    {
      var passed: real :| passed >= 0.0;
      now := now + passed;
      return now;
    }
  }

  datatype Outcome = Cached | Partial | Busy | Built | Failed

  class Worker {
    const store: Store
    const clock: Clock
    const backend: string
    const owner: string
    const leaseSeconds: real
    const chunkChars: int
    const overlapChars: int
    const maxChunks: int
    const onlineMaxChunks: int
    const indexBatch: int
    const batchSize: int
    const excerptChars: nat
    const fingerprint: string -> string
    const capacity: nat
    /** The vectors kept in memory, by cache key, with the fingerprint of their text. */
    var memory: Memory

    constructor (store: Store, clock: Clock, backend: string, owner: string, leaseSeconds: real, chunkChars: int, overlapChars: int,
                 maxChunks: int, onlineMaxChunks: int, indexBatch: int, batchSize: int, excerptChars: int, fingerprint: string -> string, capacity: int)
      ensures this.store == store && this.clock == clock && this.maxChunks == Max(32, maxChunks) && this.onlineMaxChunks == Max(1, onlineMaxChunks)
      ensures Valid()
    {
      this.store, this.clock, this.backend, this.owner := store, clock, backend, owner;
      this.leaseSeconds := MaxReal(30.0, leaseSeconds);
      this.chunkChars, this.overlapChars := Max(1000, chunkChars), Max(0, overlapChars);
      this.maxChunks, this.onlineMaxChunks := Max(32, maxChunks), Max(1, onlineMaxChunks);
      this.indexBatch, this.batchSize, this.excerptChars := Max(1, indexBatch), Max(1, batchSize), Max(400, excerptChars);
      this.fingerprint, this.memory, this.capacity := fingerprint, map[], Max(16, capacity);
    }

    predicate Valid() { indexBatch >= 1 && batchSize >= 1 && maxChunks >= 1 && onlineMaxChunks >= 1 }

    /** Keep a vector in memory. Over capacity others are dropped; which ones is left open. */
    method Remember(k: string, mark: string, data: seq<real>)
      modifies this`memory
      ensures forall j :: j in memory ==> (j in old(memory) && memory[j] == old(memory)[j]) || (j == k && memory[j].0 == mark)
      ensures |old(memory).Keys + {k}| <= capacity ==> forall j :: j in old(memory) && j != k ==> j in memory && memory[j] == old(memory)[j]
    {
      memory := memory[k := (mark, data)];
      assert memory.Keys == old(memory).Keys + {k};
      if |memory| > capacity {
        var kept :| kept <= memory.Keys && k in kept;
        memory := map j | j in kept :: memory[j];
      }
    }

    /** Whether the vector of the chunk is in memory or in the store. */
    method GetCachedVector(src: Source, c: Chunk) returns (found: bool)
      requires src.backend == backend
      modifies this`memory
      ensures found <==> Held(src, fingerprint, old(memory), c) || Stored(src, fingerprint, store.vectors, c)
      ensures MemoryKept(src, fingerprint, old(memory), memory, [c])
      ensures |old(memory).Keys + {UnitKey(src.item, backend, c).cacheKey}| <= capacity ==> Untouched(src, old(memory), memory, [c])
    {
      hide UnitKey, Untouched;
      var key := UnitKey(src.item, backend, c);
      if key.cacheKey in memory && memory[key.cacheKey].0 == fingerprint(c.text) {
        NothingWritten(src, fingerprint, store.vectors, memory, [c]);
        return true;
      }
      assert (memory.Keys - {key.cacheKey}) + {key.cacheKey} == memory.Keys + {key.cacheKey};
      memory := memory - {key.cacheKey};
      var stored := store.Get(key, fingerprint(c.text));
      if stored.Some? {
        Remember(key.cacheKey, fingerprint(c.text), stored.value);
      }
      RememberedOne(src, fingerprint, old(memory), memory, c);
      return stored.Some?;
    }

    method PutCachedVector(src: Source, c: Chunk, data: seq<real>)
      requires src.backend == backend && data != []
      modifies this`memory, store`vectors
      ensures VectorsKept(src, fingerprint, old(store.vectors), store.vectors, [c]) && Stored(src, fingerprint, store.vectors, c)
      ensures MemoryKept(src, fingerprint, old(memory), memory, [c])
      ensures |old(memory).Keys + {UnitKey(src.item, backend, c).cacheKey}| <= capacity ==> Untouched(src, old(memory), memory, [c])
    {
      hide UnitKey, VectorsKept, Stored, Untouched;
      var key := UnitKey(src.item, backend, c);
      Remember(key.cacheKey, fingerprint(c.text), data);
      RememberedOne(src, fingerprint, old(memory), memory, c);
      var now: real := *;
      store.Put(key, fingerprint(c.text), data, now);
      WroteOne(src, fingerprint, old(store.vectors), store.vectors, c);
    }

    /** The model: it may fail, and nothing is known of the vectors but that they have components. */
    method Encode(texts: seq<string>) returns (vectors: Option<seq<seq<real>>>)
      ensures vectors.Some? ==> [] !in vectors.value
    {
      vectors := *;
      if vectors.Some? && [] in vectors.value {
        return None;
      }
    }

    method DeadlineExhausted(deadline: Option<real>) returns (exhausted: bool)
      modifies clock
      ensures clock.now >= old(clock.now)
      ensures exhausted <==> deadline.Some? && clock.now >= deadline.value
    {
      if deadline.None? {
        return false;
      }
      var t := clock.Read();
      return t >= deadline.value;
    }

    method PutUnitOf(src: Source, c: Chunk)
      requires src.backend == backend && src.excerptChars == excerptChars
      modifies store`units
      ensures store.units == old(store.units)[UnitKey(src.item, src.backend, c) := UnitOf(src.item, src.fingerprint, c, src.excerptChars)]
    {
      store.PutUnit(UnitKey(src.item, backend, c), UnitOf(src.item, src.fingerprint, c, excerptChars));
    }

    /** The first loop: rows for the chunks whose vector is at hand; the places of the others. */
    method WriteKnown(src: Source, batch: seq<Chunk>) returns (missing: seq<nat>)
      requires src.backend == backend && src.excerptChars == excerptChars && Starts(batch)
      modifies this`memory, store`units
      ensures Grew(src, old(store.units), store.units, batch) && MemoryKept(src, fingerprint, old(memory), memory, batch)
      ensures forall m :: m in missing ==> m < |batch|
      ensures forall i :: 0 <= i < |batch| && i !in missing ==>
                Indexed(src, store.units, batch[i])
                && (Stored(src, fingerprint, store.vectors, batch[i]) || Held(src, fingerprint, old(memory), batch[i]))
      ensures |old(memory)| + |batch| <= capacity ==>
                Untouched(src, old(memory), memory, batch) && forall m :: m in missing ==> !Held(src, fingerprint, old(memory), batch[m])
    {
      hide UnitKey, UnitOf, Indexed, Grew, MemoryKept, Stored, Held, Starts, Untouched, Looked;
      ghost var start := Progress(store.units, store.vectors, memory);
      NothingLooked(src, fingerprint, start, batch);
      missing := [];
      for n := 0 to |batch|
        invariant Looked(src, fingerprint, capacity, start, Progress(store.units, store.vectors, memory), batch, n, missing)
      {
        ghost var now := Progress(store.units, store.vectors, memory);
        var found := GetCachedVector(src, batch[n]);
        LookedMore(src, fingerprint, now, memory, start, batch, n, missing, found);
        if found {
          PutUnitOf(src, batch[n]);
        } else {
          missing := missing + [n];
        }
      }
      LookedAll(src, fingerprint, start, Progress(store.units, store.vectors, memory), batch, missing);
    }

    lemma NothingLooked(src: Source, fp: string -> string, a: Progress, batch: seq<Chunk>)
      ensures Looked(src, fp, capacity, a, a, batch, 0, [])
    {
      hide UnitKey, UnitOf;
      GrewNot(src, a.units, batch);
      NothingWritten(src, fp, a.vectors, a.memory, batch[..0]);
    }

    lemma LookedAll(src: Source, fp: string -> string, a: Progress, b: Progress, batch: seq<Chunk>, missing: seq<nat>)
      requires Looked(src, fp, capacity, a, b, batch, |batch|, missing)
      ensures Grew(src, a.units, b.units, batch) && MemoryKept(src, fp, a.memory, b.memory, batch) && forall m :: m in missing ==> m < |batch|
      ensures forall i :: 0 <= i < |batch| && i !in missing ==>
                Indexed(src, b.units, batch[i]) && (Stored(src, fp, b.vectors, batch[i]) || Held(src, fp, a.memory, batch[i]))
      ensures |a.memory| + |batch| <= capacity ==>
                Untouched(src, a.memory, b.memory, batch) && forall m :: m in missing ==> !Held(src, fp, a.memory, batch[m])
    {
      hide Grew, MemoryKept, Indexed, Stored, Held, Untouched;
      assert batch[..|batch|] == batch;
      forall i | 0 <= i < |batch| && i !in missing ensures Ready(src, fp, b.units, b.vectors, a.memory, batch[i]) {}
    }

    /** One chunk more was looked at; its row is written if its vector was found. */
    lemma LookedMore(src: Source, fp: string -> string, b: Progress, memory: Memory, a: Progress, batch: seq<Chunk>, n: nat, missing: seq<nat>, found: bool)
      requires n < |batch| && Starts(batch) && Looked(src, fp, capacity, a, b, batch, n, missing) && MemoryKept(src, fp, b.memory, memory, [batch[n]])
      requires |b.memory.Keys + {UnitKey(src.item, src.backend, batch[n]).cacheKey}| <= capacity ==> Untouched(src, b.memory, memory, [batch[n]])
      requires found <==> Held(src, fp, b.memory, batch[n]) || Stored(src, fp, b.vectors, batch[n])
      ensures var units := if found then b.units[UnitKey(src.item, src.backend, batch[n]) := UnitOf(src.item, src.fingerprint, batch[n], src.excerptChars)]
                           else b.units;
              Looked(src, fp, capacity, a, Progress(units, b.vectors, memory), batch, n + 1, if found then missing else missing + [n])
    {
      hide UnitKey, UnitOf, Indexed, Grew, MemoryKept, Stored, Held, Starts, Untouched, Ready;
      KnownStep(src, fp, a.memory, b.memory, memory, batch, n, capacity);
      assert batch[..n + 1] == batch[..n] + [batch[n]];
      MemoryKeptTwice(src, fp, a.memory, b.memory, memory, batch[..n], [batch[n]], batch[..n + 1]);
      assert forall m :: m in missing + [n] <==> m in missing || m == n;
      if found {
        ReadyMore(src, fp, b, a, batch, n);
      }
    }

    /** Writing the row of a chunk whose vector was found. */
    lemma ReadyMore(src: Source, fp: string -> string, b: Progress, a: Progress, batch: seq<Chunk>, n: nat)
      requires n < |batch| && Starts(batch) && Grew(src, a.units, b.units, batch) && MemoryKept(src, fp, a.memory, b.memory, batch[..n])
      requires Held(src, fp, b.memory, batch[n]) || Stored(src, fp, b.vectors, batch[n])
      ensures var units := b.units[UnitKey(src.item, src.backend, batch[n]) := UnitOf(src.item, src.fingerprint, batch[n], src.excerptChars)];
              && Grew(src, a.units, units, batch) && Ready(src, fp, units, b.vectors, a.memory, batch[n])
              && forall i :: 0 <= i < |batch| && Ready(src, fp, b.units, b.vectors, a.memory, batch[i]) ==>
                   Ready(src, fp, units, b.vectors, a.memory, batch[i])
    {
      hide UnitKey, UnitOf, Indexed, Grew, MemoryKept, Stored, Held, Starts;
      if Held(src, fp, b.memory, batch[n]) {
        HeldBefore(src, fp, a.memory, b.memory, batch, n);
      }
      WriteOne(src, a.units, b.units, batch, n);
    }

    lemma KnownStep(src: Source, fp: string -> string, was: Memory, held: Memory, now: Memory, batch: seq<Chunk>, n: nat, capacity: nat)
      requires n < |batch| && Starts(batch) && MemoryKept(src, fp, was, held, batch[..n])
      requires |held.Keys + {UnitKey(src.item, src.backend, batch[n]).cacheKey}| <= capacity ==> Untouched(src, held, now, [batch[n]])
      ensures |was| + |batch| <= capacity && Untouched(src, was, held, batch[..n]) ==>
                && Untouched(src, was, now, batch[..n + 1])
                && (Held(src, fp, was, batch[n]) ==> Held(src, fp, held, batch[n]))
    {
      hide UnitKey, MemoryKept, Untouched, Held, Starts;
      if |was| + |batch| <= capacity && Untouched(src, was, held, batch[..n]) {
        MemorySize(src, fp, was, held, batch[..n]);
        var k := UnitKey(src.item, src.backend, batch[n]).cacheKey;
        assert |held.Keys + {k}| <= |held.Keys| + 1;
        assert batch[..n + 1] == batch[..n] + [batch[n]];
        UntouchedTwice(src, was, held, now, batch[..n], [batch[n]], batch[..n + 1]);
        if Held(src, fp, was, batch[n]) {
          HeldStays(src, fp, was, held, batch, n);
        }
      }
    }

    /** The second loop: vectors and rows for the chunks that were encoded. It succeeds only if there is
      * one vector for each. */
    method WriteEncoded(src: Source, ghost memoryWas: Memory, batch: seq<Chunk>, missing: seq<nat>, encoded: seq<seq<real>>) returns (ok: bool)
      requires src.backend == backend && src.excerptChars == excerptChars && Starts(batch) && [] !in encoded
      requires forall m :: m in missing ==> m < |batch|
      requires forall i :: 0 <= i < |batch| && i !in missing ==>
                 Indexed(src, store.units, batch[i])
                 && (Stored(src, fingerprint, store.vectors, batch[i]) || Held(src, fingerprint, memoryWas, batch[i]))
      requires MemoryKept(src, fingerprint, memoryWas, memory, batch)
      modifies this`memory, store`vectors, store`units
      ensures Grew(src, old(store.units), store.units, batch)
      ensures VectorsKept(src, fingerprint, old(store.vectors), store.vectors, batch)
      ensures MemoryKept(src, fingerprint, memoryWas, memory, batch)
      ensures ok ==> AllIndexed(src, store.units, batch) && AllAtHand(src, fingerprint, store.vectors, memoryWas, batch)
      ensures |memoryWas| + |batch| <= capacity && Untouched(src, memoryWas, old(memory), batch) ==> Untouched(src, memoryWas, memory, batch)
      ensures NewFor(src, old(store.vectors), store.vectors, batch, missing)
    {
      hide UnitKey, UnitOf, Indexed, Grew, VectorsKept, MemoryKept, Stored, Held, AllAtHand, AllIndexed, Starts, Untouched, NewFor;
      NothingNew(src, store.vectors, batch, missing);
      GrewNot(src, store.units, batch);
      NothingWritten(src, fingerprint, store.vectors, memory, batch);
      assert forall i :: 0 <= i < |missing| ==> missing[i] in missing;
      for n := 0 to Min(|missing|, |encoded|)
        invariant Grew(src, old(store.units), store.units, batch)
        invariant VectorsKept(src, fingerprint, old(store.vectors), store.vectors, batch)
        invariant MemoryKept(src, fingerprint, memoryWas, memory, batch)
        invariant forall i :: 0 <= i < |batch| && i !in missing[n..] ==>
                    Indexed(src, store.units, batch[i])
                    && (Stored(src, fingerprint, store.vectors, batch[i]) || Held(src, fingerprint, memoryWas, batch[i]))
        invariant |memoryWas| + |batch| <= capacity && Untouched(src, memoryWas, old(memory), batch) ==> Untouched(src, memoryWas, memory, batch)
        invariant NewFor(src, old(store.vectors), store.vectors, batch, missing)
      {
        var i := missing[n];
        assert missing[n..] == [i] + missing[n + 1..];
        assert encoded[n] in encoded;
        ghost var vectors, held := store.vectors, memory;
        MemorySize(src, fingerprint, memoryWas, held, batch);
        PutCachedVector(src, batch[i], encoded[n]);
        if |memoryWas| + |batch| <= capacity && Untouched(src, memoryWas, old(memory), batch) {
          UntouchedTwice(src, memoryWas, held, memory, batch, [batch[i]], batch);
        }
        NewForMissing(src, fingerprint, old(store.vectors), vectors, store.vectors, batch, missing, i);
        StoredStillAll(src, fingerprint, vectors, store.vectors, batch, i);
        VectorsKeptTwice(src, fingerprint, old(store.vectors), vectors, store.vectors, [batch[i]], batch);
        MemoryKeptTwice(src, fingerprint, memoryWas, held, memory, batch, [batch[i]], batch);
        WriteOne(src, old(store.units), store.units, batch, i);
        PutUnitOf(src, batch[i]);
      }
      ok := |missing| == |encoded|;
      if ok {
        assert missing[|missing|..] == [];
        AtHandAll(src, fingerprint, store.vectors, memoryWas, batch, []);
        IndexedAll(src, store.units, batch, []);
      }
    }

    /** Write a row for each chunk of the batch, and a vector for those whose vector is not at hand. A
      * vector that is in memory is not written again. */
    method IndexTextBatch(src: Source, batch: seq<Chunk>) returns (ok: bool)
      requires src.backend == backend && src.excerptChars == excerptChars && Starts(batch)
      modifies this`memory, store`vectors, store`units
      ensures Grew(src, old(store.units), store.units, batch)
      ensures VectorsKept(src, fingerprint, old(store.vectors), store.vectors, batch)
      ensures MemoryKept(src, fingerprint, old(memory), memory, batch)
      ensures ok ==> AllIndexed(src, store.units, batch) && AllAtHand(src, fingerprint, store.vectors, old(memory), batch)
      ensures |old(memory)| + |batch| <= capacity ==>
                && Untouched(src, old(memory), memory, batch)
                && HeldUnwritten(src, fingerprint, old(memory), old(store.vectors), store.vectors, batch)
    {
      hide UnitKey, UnitOf, Indexed, Grew, VectorsKept, MemoryKept, Stored, Held, AllAtHand, Starts, Untouched, HeldUnwritten, NewFor;
      NothingWritten(src, fingerprint, store.vectors, old(memory), batch);
      var missing := WriteKnown(src, batch);
      NothingWritten(src, fingerprint, store.vectors, memory, batch);
      if missing == [] {
        AtHandAll(src, fingerprint, store.vectors, old(memory), batch, missing);
        IndexedAll(src, store.units, batch, missing);
        return true;
      }
      assert forall i :: 0 <= i < |missing| ==> missing[i] in missing;
      var texts := seq(|missing|, i requires 0 <= i < |missing| && missing[i] < |batch| => batch[missing[i]].text);
      var encoded := Encode(texts);
      if encoded.None? {
        return false;
      }
      ghost var units := store.units;
      ok := WriteEncoded(src, old(memory), batch, missing, encoded.value);
      if |old(memory)| + |batch| <= capacity {
        NewIsNotHeld(src, fingerprint, old(memory), old(store.vectors), store.vectors, batch, missing);
      }
      GrewTwice(src, old(store.units), units, store.units, batch, batch);
    }

    function Config(): string { Digits(Max(0, chunkChars)) + ":" + Digits(Max(0, overlapChars)) + ":" + Digits(Max(0, maxChunks)) }

    function CompleteKey(src: Source): string {
      "complete:" + backend + ":text:" + src.item + ":" + src.fingerprint + ":" + Config()
    }

    function LeaseKey(src: Source): Key {
      Key("build:text:" + src.item + ":" + src.fingerprint + ":" + Config(), backend)
    }

    /** Two versions of a file have different markers and different leases. */
    lemma VersionsAreApart(a: Source, b: Source)
      requires a.item == b.item && a.fingerprint != b.fingerprint
      ensures CompleteKey(a) != CompleteKey(b) && LeaseKey(a) != LeaseKey(b)
    {
      hide Config;
      var marker, build, rest := "complete:" + backend + ":text:" + a.item + ":", "build:text:" + a.item + ":", ":" + Config();
      assert CompleteKey(a) == marker + a.fingerprint + rest && CompleteKey(b) == marker + b.fingerprint + rest;
      assert LeaseKey(a).cacheKey == build + a.fingerprint + rest && LeaseKey(b).cacheKey == build + b.fingerprint + rest;
      if marker + a.fingerprint + rest == marker + b.fingerprint + rest {
        SamePrefix(marker, a.fingerprint, b.fingerprint, rest);
      }
      if build + a.fingerprint + rest == build + b.fingerprint + rest {
        SamePrefix(build, a.fingerprint, b.fingerprint, rest);
      }
    }

    /** The other versions of the file have the markers they had. */
    ghost predicate OthersMarked(src: Source, was: map<string, string>, now: map<string, string>) {
      forall other: Source :: other.item == src.item && other.fingerprint != src.fingerprint ==>
        var key := CompleteKey(other);
        (key in now <==> key in was) && (key in now ==> now[key] == was[key]) && Recorded(now, key) == Recorded(was, key)
    }

    lemma OthersStayMarked(src: Source, was: map<string, string>, mark: string)
      ensures OthersMarked(src, was, was) && OthersMarked(src, was, was[CompleteKey(src) := mark])
    {
      hide CompleteKey;
      forall other: Source | other.item == src.item && other.fingerprint != src.fingerprint ensures CompleteKey(other) != CompleteKey(src) {
        VersionsAreApart(other, src);
      }
    }

    /** The number a completion marker records. */
    function Expected(src: Source): (n: Option<nat>)
      reads store
    {
      Recorded(store.meta, CompleteKey(src))
    }

    function Located(src: Source): set<Key>
      reads store
    {
      store.Located(src.item, src.fingerprint, backend, "text")
    }

    function ChunksOf(text: string, full: bool): seq<Chunk> {
      Chunks(text, chunkChars, overlapChars, if full then maxChunks else onlineMaxChunks)
    }

    /** Index the chunks batch by batch until they are done, the model fails, or the deadline passes. */
    method IndexAll(src: Source, all: seq<Chunk>, full: bool, deadline: Option<real>) returns (ok: bool, count: nat)
      requires Valid() && src.backend == backend && src.excerptChars == excerptChars && Starts(all)
      modifies this`memory, store`vectors, store`units, store`leases, clock
      ensures Grew(src, old(store.units), store.units, all)
      ensures VectorsKept(src, fingerprint, old(store.vectors), store.vectors, all)
      ensures clock.now >= old(clock.now)
      ensures OnlyLease(LeaseKey(src), old(store.leases), store.leases)
      ensures ok && (full || deadline.None? || clock.now < deadline.value) ==>
                && count == |all| && AllIndexed(src, store.units, all) && AllAtHand(src, fingerprint, store.vectors, old(memory), all)
                && (|old(memory)| + |all| <= capacity ==>
                      HeldUnwritten(src, fingerprint, old(memory), old(store.vectors), store.vectors, all))
    {
      hide UnitKey, UnitOf, Indexed, Grew, AllIndexed, Starts, LeaseKey, VectorsKept, MemoryKept, AllAtHand, Made, HeldUnwritten, OnlyLease;
      var batchLimit := if full then indexBatch else Min(indexBatch, batchSize);
      ghost var start := Progress(store.units, store.vectors, memory);
      NoOtherLease(LeaseKey(src), store.leases);
      NoProgress(src, fingerprint, capacity, start, all);
      var batch: seq<Chunk> := [];
      count, ok := 0, true;
      while count < |all|
        invariant count <= |all| && |batch| <= count && |batch| < batchLimit
        invariant batch == all[count - |batch|..count]
        invariant Made(src, fingerprint, capacity, start, Progress(store.units, store.vectors, memory), all, count - |batch|)
        invariant clock.now >= old(clock.now)
        invariant OnlyLease(LeaseKey(src), old(store.leases), store.leases)
        decreases |all| - count
      {
        if !full {
          var exhausted := DeadlineExhausted(deadline);
          if exhausted {
            break;
          }
        }
        BatchGrows(all, batch, count);
        batch := batch + [all[count]];
        count := count + 1;
        if |batch| >= batchLimit {
          if !full {
            var exhausted := DeadlineExhausted(deadline);
            if exhausted {
              break;
            }
          }
          ok := IndexRange(src, start, all, batch, count);
          if !ok {
            return;
          }
          batch := [];
          var now: real := *;
          RefreshIsOnly(old(store.leases), store.leases, LeaseKey(src), owner, leaseSeconds, now);
          var refreshed := store.RefreshBuildLease(LeaseKey(src), owner, leaseSeconds, now);
        }
      }
      if batch != [] {
        var exhausted := false;
        if !full {
          exhausted := DeadlineExhausted(deadline);
        }
        if !exhausted {
          ok := IndexRange(src, start, all, batch, count);
          if !ok {
            return;
          }
          MadeParts(src, fingerprint, start, Progress(store.units, store.vectors, memory), all, count);
          return;
        }
      }
      MadeParts(src, fingerprint, start, Progress(store.units, store.vectors, memory), all, count - |batch|);
    }

    lemma MadeParts(src: Source, fp: string -> string, a: Progress, b: Progress, all: seq<Chunk>, n: nat)
      requires n <= |all| && Made(src, fp, capacity, a, b, all, n)
      ensures Grew(src, a.units, b.units, all) && VectorsKept(src, fp, a.vectors, b.vectors, all)
      ensures n == |all| ==>
                && AllIndexed(src, b.units, all) && AllAtHand(src, fp, b.vectors, a.memory, all)
                && (|a.memory| + |all| <= capacity ==> HeldUnwritten(src, fp, a.memory, a.vectors, b.vectors, all))
    {
      hide Grew, VectorsKept, MemoryKept, AllIndexed, AllAtHand, Untouched, HeldUnwritten;
      VectorsKeptMore(src, fp, a.vectors, b.vectors, all[..n], all);
      assert n == |all| ==> all[..n] == all;
    }

    /** `_ensure_text_index`: use what is there, or build what is missing under a lease. */
    method EnsureTextIndex(item: string, sourceFp: string, reader: Reader, full: bool, deadline: Option<real>)
      returns (rows: seq<Hit>, outcome: Outcome, ghost marked: bool)
      requires Valid() && reader.pos == 0
      modifies this`memory, store`vectors, store`units, store`leases, store`meta, clock, reader
      ensures var src, all := Source(item, sourceFp, backend, excerptChars), ChunksOf(reader.text, full);
              && Grew(src, old(store.units), store.units, all)
              && store.meta == (if marked then old(store.meta)[CompleteKey(src) := Digits(|all|)] else old(store.meta))
              && VectorsKept(src, fingerprint, old(store.vectors), store.vectors, all)
              && (marked ==> outcome.Built? && AllIndexed(src, store.units, all) && (full || |all| < onlineMaxChunks))
              && (outcome.Built? && (full || deadline.None?) ==> AllIndexed(src, store.units, all))
              && (marked || (outcome.Built? && deadline.None?) ==> AllAtHand(src, fingerprint, store.vectors, old(memory), all))
              && (marked && |old(memory)| + |all| <= capacity ==>
                    HeldUnwritten(src, fingerprint, old(memory), old(store.vectors), store.vectors, all))
              && (outcome.Built? && full ==> marked)
              && (outcome.Built? && deadline.None? && |all| < onlineMaxChunks ==> marked)
              && (outcome.Cached? <==> old(Expected(src)) == Some(|old(Located(src))|))
              && (outcome.Cached? || outcome.Partial? || outcome.Busy? ==>
                    store.units == old(store.units) && store.vectors == old(store.vectors) && store.leases == old(store.leases))
              && (outcome.Built? || outcome.Failed? ==>
                    !(LeaseKey(src) in store.leases && store.leases[LeaseKey(src)].owner == owner))
              && (!outcome.Failed? ==> Listed(rows, Located(src), store.units, store.vectors))
      ensures OthersMarked(Source(item, sourceFp, backend, excerptChars), old(store.meta), store.meta)
      ensures OnlyLease(LeaseKey(Source(item, sourceFp, backend, excerptChars)), old(store.leases), store.leases)
    {
      hide Grew, AllIndexed, Listed, Chunks, LeaseKey, CompleteKey, VectorsKept, MemoryKept, AllAtHand, HeldUnwritten, Made, OnlyLease, OthersMarked;
      var src := Source(item, sourceFp, backend, excerptChars);
      ghost var all := ChunksOf(reader.text, full);
      NoProgress(src, fingerprint, capacity, Progress(store.units, store.vectors, memory), all);
      ghost var leases := store.leases;
      NoOtherLease(LeaseKey(src), leases);
      OthersStayMarked(src, store.meta, Digits(|all|));
      marked := false;
      var expected := Expected(src);
      rows := store.ListSourceVectors(item, sourceFp, backend, "text");
      ListedCount(rows, Located(src), store.units, store.vectors);
      if expected == Some(|rows|) {
        return rows, Cached, marked;
      }
      if rows != [] && !full {
        return rows, Partial, marked;
      }
      var now: real := *;
      var claimed := store.TryClaimBuild(LeaseKey(src), owner, leaseSeconds, now);
      if !claimed {
        return rows, Busy, marked;
      }
      ClaimIsOnly(leases, LeaseKey(src), owner, leaseSeconds, now);
      ghost var taken := store.leases;
      outcome, marked := Build(src, reader, full, deadline);
      OnlyLeaseTwice(LeaseKey(src), leases, taken, store.leases);
      now := *;
      ReleaseIsOnly(leases, store.leases, LeaseKey(src), owner, now);
      store.ReleaseBuild(LeaseKey(src), owner, now);
      rows := store.ListSourceVectors(item, sourceFp, backend, "text");
    }

    /** What happens while the lease is held. */
    method Build(src: Source, reader: Reader, full: bool, deadline: Option<real>) returns (outcome: Outcome, ghost marked: bool)
      requires Valid() && reader.pos == 0 && src.backend == backend && src.excerptChars == excerptChars
      modifies this`memory, store`vectors, store`units, store`leases, store`meta, clock, reader
      ensures outcome.Built? || outcome.Failed?
      ensures OnlyLease(LeaseKey(src), old(store.leases), store.leases)
      ensures Grew(src, old(store.units), store.units, ChunksOf(reader.text, full))
      ensures VectorsKept(src, fingerprint, old(store.vectors), store.vectors, ChunksOf(reader.text, full))
      ensures outcome.Built? && (full || deadline.None?) ==> AllIndexed(src, store.units, ChunksOf(reader.text, full))
      ensures marked || (outcome.Built? && deadline.None?) ==> AllAtHand(src, fingerprint, store.vectors, old(memory), ChunksOf(reader.text, full))
      ensures marked && |old(memory)| + |ChunksOf(reader.text, full)| <= capacity ==>
                HeldUnwritten(src, fingerprint, old(memory), old(store.vectors), store.vectors, ChunksOf(reader.text, full))
      ensures store.meta == if marked then old(store.meta)[CompleteKey(src) := Digits(|ChunksOf(reader.text, full)|)] else old(store.meta)
      ensures marked ==> outcome.Built? && AllIndexed(src, store.units, ChunksOf(reader.text, full))
      ensures marked ==> full || |ChunksOf(reader.text, full)| < onlineMaxChunks
      ensures outcome.Built? && (full || (deadline.None? && |ChunksOf(reader.text, full)| < onlineMaxChunks)) ==> marked
    {
      hide Grew, AllIndexed, Chunks, CompleteKey, LeaseKey, VectorsKept, AllAtHand, HeldUnwritten;
      NoOtherLease(LeaseKey(src), store.leases);
      marked := false;
      var most := if full then maxChunks else onlineMaxChunks;
      var all := StreamTextChunks(reader, chunkChars, overlapChars, most);
      ChunksStart(reader.text, chunkChars, overlapChars, most);
      var ok, count := IndexAll(src, all, full, deadline);
      if !ok {
        return Failed, marked;
      }
      var finished := full;
      if !full && count < most {
        var exhausted := DeadlineExhausted(deadline);
        finished := !exhausted;
      }
      if finished {
        store.SetMeta(CompleteKey(src), Digits(count));
        marked := true;
      }
      return Built, marked;
    }

    /** One batch of the chunks: those before it stay done. */
    method IndexRange(src: Source, ghost start: Progress, ghost all: seq<Chunk>, batch: seq<Chunk>, ghost count: nat) returns (ok: bool)
      requires src.backend == backend && src.excerptChars == excerptChars && Starts(all)
      requires |batch| <= count <= |all| && batch == all[count - |batch|..count]
      requires Made(src, fingerprint, capacity, start, Progress(store.units, store.vectors, memory), all, count - |batch|)
      modifies this`memory, store`vectors, store`units
      ensures ok ==> Made(src, fingerprint, capacity, start, Progress(store.units, store.vectors, memory), all, count)
      ensures !ok ==> Grew(src, start.units, store.units, all) && VectorsKept(src, fingerprint, start.vectors, store.vectors, all)
    {
      hide UnitKey, UnitOf, Indexed, Grew, VectorsKept, MemoryKept, Stored, Held, AllAtHand, AllIndexed, Untouched, HeldUnwritten;
      ghost var before := Progress(store.units, store.vectors, memory);
      ok := IndexTextBatch(src, batch);
      MadeMore(src, fingerprint, capacity, start, before, Progress(store.units, store.vectors, memory), all, count - |batch|, batch, ok);
    }
  }

  lemma SamePrefix(front: string, x: string, y: string, rest: string)
    requires front + x + rest == front + y + rest
    ensures x == y
  {
    var s := front + x + rest;
    assert |s| == |front| + |x| + |rest| == |front| + |y| + |rest|;
    assert x == s[|front|..|front| + |x|] == y;
  }

  lemma CutNumber(x: string, n: nat, y: string, m: nat)
    requires x + ":" + Digits(n) == y + ":" + Digits(m)
    ensures x == y && n == m
  {
    hide Digits;
    NumberOfDigits(n);
    NumberOfDigits(m);
    assert ":" == [':'] && !IsDigit(':');
    CutAtLast(x, Digits(n), y, Digits(m), ':');
  }

  /** A marker tells the file, its version and the configuration, if versions are named by two numbers. */
  lemma MarkersTellAll(u: Worker, w: Worker, a: Source, b: Source, na: nat, ma: nat, nb: nat, mb: nat)
    requires u.backend == w.backend && u.CompleteKey(a) == w.CompleteKey(b)
    requires a.fingerprint == Digits(na) + ":" + Digits(ma) && b.fingerprint == Digits(nb) + ":" + Digits(mb)
    ensures a.item == b.item && a.fingerprint == b.fingerprint
    ensures Max(0, u.chunkChars) == Max(0, w.chunkChars) && Max(0, u.overlapChars) == Max(0, w.overlapChars)
            && Max(0, u.maxChunks) == Max(0, w.maxChunks)
  {
    hide Digits, Numbered, Worker.CompleteKey;
    var front := "complete:" + u.backend + ":text:";
    var us, ws := [na, ma, Max(0, u.chunkChars), Max(0, u.overlapChars), Max(0, u.maxChunks)],
                  [nb, mb, Max(0, w.chunkChars), Max(0, w.overlapChars), Max(0, w.maxChunks)];
    KeyIsNumbered(u, a, na, ma);
    KeyIsNumbered(w, b, nb, mb);
    NumbersTell(front + a.item, us, front + b.item, ws);
    assert us[0] == ws[0] && us[1] == ws[1] && us[2] == ws[2] && us[3] == ws[3] && us[4] == ws[4];
    SameBehind(front, a.item, b.item);
  }

  lemma SameBehind(front: string, x: string, y: string)
    requires front + x == front + y
    ensures x == y
  {
    assert x == (front + x)[|front|..] && y == (front + y)[|front|..];
  }

  /** The text, and the numbers behind it, each after a colon. */
  function Numbered(front: string, ns: seq<nat>): string {
    if ns == [] then front else Numbered(front, ns[..|ns| - 1]) + ":" + Digits(ns[|ns| - 1])
  }

  lemma {:induction false} NumbersTell(x: string, ns: seq<nat>, y: string, ms: seq<nat>)
    requires |ns| == |ms| && Numbered(x, ns) == Numbered(y, ms)
    ensures x == y && ns == ms
    decreases |ns|
  {
    hide Digits;
    if ns != [] {
      var n := |ns| - 1;
      CutNumber(Numbered(x, ns[..n]), ns[n], Numbered(y, ms[..n]), ms[n]);
      NumbersTell(x, ns[..n], y, ms[..n]);
      assert ns == ns[..n] + [ns[n]] && ms == ms[..n] + [ms[n]];
    }
  }

  lemma OneMoreNumber(front: string, ns: seq<nat>, n: nat)
    ensures Numbered(front, ns + [n]) == Numbered(front, ns) + ":" + Digits(n)
  {
    hide Digits;
    assert (ns + [n])[..|ns|] == ns;
  }

  lemma KeyIsNumbered(w: Worker, src: Source, n: nat, m: nat)
    requires src.fingerprint == Digits(n) + ":" + Digits(m)
    ensures w.CompleteKey(src) ==
              Numbered("complete:" + w.backend + ":text:" + src.item, [n, m, Max(0, w.chunkChars), Max(0, w.overlapChars), Max(0, w.maxChunks)])
  {
    hide Digits, Numbered;
    var front, c, o, k := "complete:" + w.backend + ":text:" + src.item, Max(0, w.chunkChars), Max(0, w.overlapChars), Max(0, w.maxChunks);
    NoNumbers(front);
    OneMoreNumber(front, [], n);
    OneMoreNumber(front, [n], m);
    OneMoreNumber(front, [n, m], c);
    OneMoreNumber(front, [n, m, c], o);
    OneMoreNumber(front, [n, m, c, o], k);
    assert [] + [n] == [n] && [n] + [m] == [n, m] && [n, m] + [c] == [n, m, c] && [n, m, c] + [o] == [n, m, c, o];
    assert [n, m, c, o] + [k] == [n, m, c, o, k];
    Regroup(front, Digits(n), Digits(m), Digits(c), Digits(o), Digits(k));
  }

  lemma NoNumbers(front: string)
    ensures Numbered(front, []) == front
  {
  }

  lemma Regroup(front: string, n: string, m: string, c: string, o: string, k: string)
    ensures front + ":" + (n + ":" + m) + ":" + (c + ":" + o + ":" + k) == front + ":" + n + ":" + m + ":" + c + ":" + o + ":" + k
  {
    var x := front + ":" + n + ":" + m + ":";
    assert front + ":" + (n + ":" + m) + ":" == x;
    assert x + (c + ":" + o + ":" + k) == x + c + ":" + o + ":" + k;
  }

  /** What a build has written and what its worker has in memory. */
  datatype Progress = Progress(units: map<Key, Unit>, vectors: map<Key, Vector>, memory: Memory)

  /** The chunk has its row, and its vector is stored or was in memory. */
  predicate Ready(src: Source, fp: string -> string, units: map<Key, Unit>, vectors: map<Key, Vector>, memory: Memory, c: Chunk) {
    Indexed(src, units, c) && (Stored(src, fp, vectors, c) || Held(src, fp, memory, c))
  }

  /** The first `n` chunks of a batch were looked at: those that are not `missing` have their row, and their
    * vector is at hand. If memory has room for all, what it held was found. */
  ghost predicate Looked(src: Source, fp: string -> string, capacity: nat, a: Progress, b: Progress, batch: seq<Chunk>, n: nat, missing: seq<nat>)
    requires n <= |batch|
  {
    && Grew(src, a.units, b.units, batch) && b.vectors == a.vectors && MemoryKept(src, fp, a.memory, b.memory, batch[..n])
    && (forall m :: m in missing ==> m < n)
    && (forall i :: 0 <= i < n && i !in missing ==> Ready(src, fp, b.units, b.vectors, a.memory, batch[i]))
    && (|a.memory| + |batch| <= capacity ==>
          Untouched(src, a.memory, b.memory, batch[..n]) && forall m :: m in missing ==> !Held(src, fp, a.memory, batch[m]))
  }

  /** From `a` to `b` only rows and vectors of the chunks were written, and the first `n` chunks are done:
    * each has its row, and its vector is stored unless the worker had it in memory to begin with. If memory
    * has room for all, no vector is written that was held there. */
  ghost predicate Made(src: Source, fp: string -> string, capacity: nat, a: Progress, b: Progress, all: seq<Chunk>, n: nat)
    requires n <= |all|
  {
    && Grew(src, a.units, b.units, all) && VectorsKept(src, fp, a.vectors, b.vectors, all[..n]) && MemoryKept(src, fp, a.memory, b.memory, all[..n])
    && AllIndexed(src, b.units, all[..n]) && AllAtHand(src, fp, b.vectors, a.memory, all[..n])
    && (|a.memory| + |all| <= capacity ==>
          Untouched(src, a.memory, b.memory, all[..n]) && HeldUnwritten(src, fp, a.memory, a.vectors, b.vectors, all[..n]))
  }

  /** No lease but one changes. */
  ghost predicate OnlyLease(key: Key, was: map<Key, Lease>, now: map<Key, Lease>) {
    forall k :: k != key ==> (k in now <==> k in was) && (k in now ==> now[k] == was[k])
  }

  lemma NoOtherLease(key: Key, leases: map<Key, Lease>)
    ensures OnlyLease(key, leases, leases)
  {
  }

  lemma RefreshIsOnly(was: map<Key, Lease>, now: map<Key, Lease>, key: Key, owner: string, seconds: real, time: real)
    requires OnlyLease(key, was, now)
    ensures OnlyLease(key, was, Step(now, Refresh(key, owner, seconds, time)))
  {
  }

  lemma ClaimIsOnly(was: map<Key, Lease>, key: Key, owner: string, seconds: real, time: real)
    ensures OnlyLease(key, was, Step(was, Claim(key, owner, seconds, time)))
  {
  }

  lemma ReleaseIsOnly(was: map<Key, Lease>, now: map<Key, Lease>, key: Key, owner: string, time: real)
    requires OnlyLease(key, was, now)
    ensures OnlyLease(key, was, Step(now, Release(key, owner, time)))
  {
  }

  lemma OnlyLeaseTwice(key: Key, a: map<Key, Lease>, b: map<Key, Lease>, c: map<Key, Lease>)
    requires OnlyLease(key, a, b) && OnlyLease(key, b, c)
    ensures OnlyLease(key, a, c)
  {
  }

  lemma BatchGrows(all: seq<Chunk>, batch: seq<Chunk>, count: nat)
    requires |batch| <= count < |all| && batch == all[count - |batch|..count]
    ensures batch + [all[count]] == all[count - |batch|..count + 1]
  {
  }

  lemma NoProgress(src: Source, fp: string -> string, capacity: nat, a: Progress, all: seq<Chunk>)
    ensures Made(src, fp, capacity, a, a, all, 0) && Grew(src, a.units, a.units, all) && VectorsKept(src, fp, a.vectors, a.vectors, all)
  {
    hide UnitKey, UnitOf;
    GrewNot(src, a.units, all);
    NothingWritten(src, fp, a.vectors, a.memory, all);
    NothingWritten(src, fp, a.vectors, a.memory, all[..0]);
  }

  lemma MadeMore(src: Source, fp: string -> string, capacity: nat, a: Progress, b: Progress, c: Progress, all: seq<Chunk>, n: nat, batch: seq<Chunk>, ok: bool)
    requires n + |batch| <= |all| && batch == all[n..n + |batch|] && Starts(all) && Made(src, fp, capacity, a, b, all, n)
    requires Grew(src, b.units, c.units, batch) && VectorsKept(src, fp, b.vectors, c.vectors, batch) && MemoryKept(src, fp, b.memory, c.memory, batch)
    requires ok ==> AllIndexed(src, c.units, batch) && AllAtHand(src, fp, c.vectors, b.memory, batch)
    requires |b.memory| + |batch| <= capacity ==>
               Untouched(src, b.memory, c.memory, batch) && HeldUnwritten(src, fp, b.memory, b.vectors, c.vectors, batch)
    ensures Grew(src, a.units, c.units, all) && VectorsKept(src, fp, a.vectors, c.vectors, all)
    ensures ok ==> Made(src, fp, capacity, a, c, all, n + |batch|)
  {
    hide UnitKey, UnitOf, Indexed, Grew, VectorsKept, MemoryKept, AllAtHand, AllIndexed, Starts, Untouched, HeldUnwritten;
    var done := all[..n];
    assert all[..n + |batch|] == done + batch;
    assert forall x :: x in batch ==> x in all;
    assert forall x :: x in done ==> x in all;
    GrewTwice(src, a.units, b.units, c.units, batch, all);
    GrewMore(src, b.units, c.units, batch, all);
    VectorsKeptMore(src, fp, a.vectors, b.vectors, done, done + batch);
    VectorsKeptTwice(src, fp, a.vectors, b.vectors, c.vectors, batch, done + batch);
    VectorsKeptMore(src, fp, a.vectors, c.vectors, done + batch, all);
    if ok {
      MemoryKeptTwice(src, fp, a.memory, b.memory, c.memory, done, batch, done + batch);
      StillIndexed(src, b.units, c.units, all, done);
      IndexedBoth(src, c.units, done, batch);
      AtHandBoth(src, fp, a, b, c, all, n, batch);
      if |a.memory| + |all| <= capacity {
        MemorySize(src, fp, a.memory, b.memory, done);
        UntouchedTwice(src, a.memory, b.memory, c.memory, done, batch, done + batch);
        UnwrittenBoth(src, fp, a, b, c, all, n, batch);
      }
    }
  }

  lemma UnwrittenBoth(src: Source, fp: string -> string, a: Progress, b: Progress, c: Progress, all: seq<Chunk>, n: nat, batch: seq<Chunk>)
    requires n + |batch| <= |all| && batch == all[n..n + |batch|] && Starts(all)
    requires VectorsKept(src, fp, a.vectors, b.vectors, all[..n]) && VectorsKept(src, fp, b.vectors, c.vectors, batch)
    requires Untouched(src, a.memory, b.memory, all[..n])
    requires HeldUnwritten(src, fp, a.memory, a.vectors, b.vectors, all[..n]) && HeldUnwritten(src, fp, b.memory, b.vectors, c.vectors, batch)
    ensures HeldUnwritten(src, fp, a.memory, a.vectors, c.vectors, all[..n] + batch)
  {
    hide UnitKey, VectorsKept, Held, Starts, Untouched;
    forall x | x in all[..n] && Held(src, fp, a.memory, x) && UnitKey(src.item, src.backend, x) in c.vectors
      ensures UnitKey(src.item, src.backend, x) in a.vectors
    {
      EarlierUnwritten(src, fp, b.vectors, c.vectors, all, n, batch, x);
    }
    forall x | x in batch && Held(src, fp, a.memory, x) && UnitKey(src.item, src.backend, x) in c.vectors
      ensures UnitKey(src.item, src.backend, x) in a.vectors
    {
      var m :| 0 <= m < |batch| && batch[m] == x;
      assert all[n + m] == x;
      LaterHeld(src, fp, a, b, all, n, n + m);
    }
  }

  /** A chunk before the batch gets no vector from it. */
  lemma EarlierUnwritten(src: Source, fp: string -> string, was: map<Key, Vector>, now: map<Key, Vector>, all: seq<Chunk>, n: nat, batch: seq<Chunk>, x: Chunk)
    requires n + |batch| <= |all| && batch == all[n..n + |batch|] && Starts(all) && x in all[..n]
    requires VectorsKept(src, fp, was, now, batch) && UnitKey(src.item, src.backend, x) in now
    ensures UnitKey(src.item, src.backend, x) in was
  {
    hide UnitKey, Starts;
    var k := UnitKey(src.item, src.backend, x);
    if k !in was {
      var d :| d in batch && WrittenFor(src, fp, k, now[k], d);
      var m :| 0 <= m < |batch| && batch[m] == d;
      assert all[n + m] == d;
      EarlierThan(all, n, n + m, x);
      UnitKeyTellsStart(src.item, src.backend, x, d);
    }
  }

  lemma EarlierThan(cs: seq<Chunk>, n: nat, m: nat, d: Chunk)
    requires n <= m < |cs| && Starts(cs) && d in cs[..n]
    ensures d.start < cs[m].start
  {
    var i :| 0 <= i < n && cs[i] == d;
  }

  /** A chunk after those done is held, and without a vector, as it was. */
  lemma LaterHeld(src: Source, fp: string -> string, a: Progress, b: Progress, all: seq<Chunk>, n: nat, m: nat)
    requires n <= m < |all| && Starts(all) && Held(src, fp, a.memory, all[m])
    requires VectorsKept(src, fp, a.vectors, b.vectors, all[..n]) && Untouched(src, a.memory, b.memory, all[..n])
    ensures Held(src, fp, b.memory, all[m])
    ensures UnitKey(src.item, src.backend, all[m]) in b.vectors ==> UnitKey(src.item, src.backend, all[m]) in a.vectors
  {
    hide UnitKey, Starts, Held, WrittenFor;
    assert forall x :: x in all[..n] ==> x in all[..m];
    VectorsKeptMore(src, fp, a.vectors, b.vectors, all[..n], all[..m]);
    UntouchedMore(src, a.memory, b.memory, all[..n], all[..m]);
    HeldStays(src, fp, a.memory, b.memory, all, m);
    if UnitKey(src.item, src.backend, all[m]) in b.vectors {
      NotYetWritten(src, fp, a.vectors, b.vectors, all, m);
    }
  }

  lemma UntouchedMore(src: Source, was: Memory, now: Memory, xs: seq<Chunk>, cs: seq<Chunk>)
    requires Untouched(src, was, now, xs) && forall x :: x in xs ==> x in cs
    ensures Untouched(src, was, now, cs)
  {
    hide UnitKey;
    forall k | k in was && Foreign(src, k, cs) ensures Foreign(src, k, xs) {}
  }

  lemma IndexedBoth(src: Source, units: map<Key, Unit>, xs: seq<Chunk>, ys: seq<Chunk>)
    requires AllIndexed(src, units, xs) && AllIndexed(src, units, ys)
    ensures AllIndexed(src, units, xs + ys)
  {
    hide Indexed;
  }

  lemma AtHandBoth(src: Source, fp: string -> string, a: Progress, b: Progress, c: Progress, all: seq<Chunk>, n: nat, batch: seq<Chunk>)
    requires n + |batch| <= |all| && batch == all[n..n + |batch|] && Starts(all)
    requires MemoryKept(src, fp, a.memory, b.memory, all[..n]) && AllAtHand(src, fp, b.vectors, a.memory, all[..n])
    requires VectorsKept(src, fp, b.vectors, c.vectors, batch) && AllAtHand(src, fp, c.vectors, b.memory, batch)
    ensures AllAtHand(src, fp, c.vectors, a.memory, all[..n] + batch)
  {
    hide UnitKey, VectorsKept, MemoryKept, Stored, Held, Starts;
    VectorsKeptMore(src, fp, b.vectors, c.vectors, batch, all);
    forall x | x in all[..n] ensures Stored(src, fp, c.vectors, x) || Held(src, fp, a.memory, x) {
      assert x in all;
      if Stored(src, fp, b.vectors, x) {
        StoredStays(src, fp, b.vectors, c.vectors, all, x);
      }
    }
    forall x | x in batch ensures Stored(src, fp, c.vectors, x) || Held(src, fp, a.memory, x) {
      var m :| 0 <= m < |batch| && batch[m] == x;
      assert all[n + m] == x;
      if Held(src, fp, b.memory, x) {
        MemoryKeptMore(src, fp, a.memory, b.memory, all[..n], all[..n + m]);
        HeldBefore(src, fp, a.memory, b.memory, all, n + m);
      }
    }
  }

  lemma VectorsKeptMore(src: Source, fp: string -> string, was: map<Key, Vector>, now: map<Key, Vector>, xs: seq<Chunk>, cs: seq<Chunk>)
    requires VectorsKept(src, fp, was, now, xs) && forall x :: x in xs ==> x in cs
    ensures VectorsKept(src, fp, was, now, cs)
  {
    hide WrittenFor;
  }

  lemma MemoryKeptMore(src: Source, fp: string -> string, was: Memory, now: Memory, xs: seq<Chunk>, cs: seq<Chunk>)
    requires MemoryKept(src, fp, was, now, xs) && xs <= cs
    ensures MemoryKept(src, fp, was, now, cs)
  {
    hide HeldFor;
    assert forall x :: x in xs ==> x in cs;
  }

  /** Only chunks at the places `missing` get a vector where there was none. */
  predicate NewFor(src: Source, was: map<Key, Vector>, now: map<Key, Vector>, batch: seq<Chunk>, missing: seq<nat>) {
    forall i :: 0 <= i < |batch| && i !in missing && UnitKey(src.item, src.backend, batch[i]) in now ==> UnitKey(src.item, src.backend, batch[i]) in was
  }

  lemma NothingNew(src: Source, vectors: map<Key, Vector>, batch: seq<Chunk>, missing: seq<nat>)
    ensures NewFor(src, vectors, vectors, batch, missing)
  {
  }

  lemma NewForMissing(src: Source, fp: string -> string, a: map<Key, Vector>, b: map<Key, Vector>, c: map<Key, Vector>, batch: seq<Chunk>,
                      missing: seq<nat>, i: nat)
    requires i < |batch| && i in missing && Starts(batch) && NewFor(src, a, b, batch, missing) && VectorsKept(src, fp, b, c, [batch[i]])
    ensures NewFor(src, a, c, batch, missing)
  {
    hide UnitKey;
    forall j | 0 <= j < |batch| && j !in missing && UnitKey(src.item, src.backend, batch[j]) in c
      ensures UnitKey(src.item, src.backend, batch[j]) in b
    {
      if UnitKey(src.item, src.backend, batch[j]) == UnitKey(src.item, src.backend, batch[i]) {
        UnitKeyTellsStart(src.item, src.backend, batch[j], batch[i]);
      }
    }
  }

  lemma NewIsNotHeld(src: Source, fp: string -> string, memory: Memory, was: map<Key, Vector>, now: map<Key, Vector>, batch: seq<Chunk>, missing: seq<nat>)
    requires NewFor(src, was, now, batch, missing)
    requires forall m :: m in missing ==> m < |batch| && !Held(src, fp, memory, batch[m])
    ensures HeldUnwritten(src, fp, memory, was, now, batch)
  {
    hide UnitKey, Held;
    forall c | c in batch && Held(src, fp, memory, c) && UnitKey(src.item, src.backend, c) in now ensures UnitKey(src.item, src.backend, c) in was {
      var i :| 0 <= i < |batch| && batch[i] == c;
      assert i !in missing;
    }
  }

  lemma AtHandAll(src: Source, fp: string -> string, vectors: map<Key, Vector>, memory: Memory, batch: seq<Chunk>, missing: seq<nat>)
    requires missing == []
    requires forall i :: 0 <= i < |batch| && i !in missing ==> Stored(src, fp, vectors, batch[i]) || Held(src, fp, memory, batch[i])
    ensures AllAtHand(src, fp, vectors, memory, batch)
  {
    hide Stored, Held;
    forall c | c in batch ensures Stored(src, fp, vectors, c) || Held(src, fp, memory, c) {
      var i :| 0 <= i < |batch| && batch[i] == c;
    }
  }

  lemma IndexedAll(src: Source, units: map<Key, Unit>, batch: seq<Chunk>, missing: seq<nat>)
    requires missing == [] && forall i :: 0 <= i < |batch| && i !in missing ==> Indexed(src, units, batch[i])
    ensures AllIndexed(src, units, batch)
  {
    hide Indexed;
    forall c | c in batch ensures Indexed(src, units, c) {
      var i :| 0 <= i < |batch| && batch[i] == c;
    }
  }

  lemma StoredStillAll(src: Source, fp: string -> string, was: map<Key, Vector>, now: map<Key, Vector>, batch: seq<Chunk>, i: nat)
    requires i < |batch| && Starts(batch) && VectorsKept(src, fp, was, now, [batch[i]])
    ensures forall j :: 0 <= j < |batch| && Stored(src, fp, was, batch[j]) ==> Stored(src, fp, now, batch[j])
  {
    hide Stored, Starts, WrittenFor;
    assert VectorsKept(src, fp, was, now, batch);
    forall j | 0 <= j < |batch| && Stored(src, fp, was, batch[j]) ensures Stored(src, fp, now, batch[j]) {
      StoredStays(src, fp, was, now, batch, batch[j]);
    }
  }

  lemma ListedCount(rows: seq<Hit>, ks: set<Key>, units: map<Key, Unit>, vectors: map<Key, Vector>)
    requires Listed(rows, ks, units, vectors)
    ensures |rows| == |ks|
  {
  }

  lemma ChunksStart(text: string, chunkChars: int, overlapChars: int, maxChunks: int)
    ensures Starts(Chunks(text, chunkChars, overlapChars, maxChunks))
  {
    ChunksAreExactRanges(text, chunkChars, overlapChars, maxChunks);
  }

  lemma GrewMore(src: Source, was: map<Key, Unit>, now: map<Key, Unit>, xs: seq<Chunk>, cs: seq<Chunk>)
    requires Grew(src, was, now, xs) && forall x :: x in xs ==> x in cs
    ensures Grew(src, was, now, cs)
  {
    hide UnitKey, UnitOf;
  }

  /* ---- What a completion marker is worth ---- */

  /** Every row of this file belongs to one of its chunks. */
  predicate SoundRows(src: Source, units: map<Key, Unit>, full: seq<Chunk>) {
    forall k :: k in units && k.backend == src.backend && units[k].sourceKey == src.item
                && units[k].sourceFingerprint == src.fingerprint && units[k].modality == "text"
                ==> k in ChunkKeys(src.item, src.backend, full)
  }

  lemma GrewIsSound(src: Source, was: map<Key, Unit>, now: map<Key, Unit>, cs: seq<Chunk>, full: seq<Chunk>)
    requires SoundRows(src, was, full) && Grew(src, was, now, cs) && cs <= full
    ensures SoundRows(src, now, full)
  {
    hide UnitKey, UnitOf, ChunkKeys;
    forall k | k in now && RowOf(src, k, now[k], cs) ensures k in ChunkKeys(src.item, src.backend, full) {
      var c :| c in cs && k == UnitKey(src.item, src.backend, c);
      ChunkKeysIff(src.item, src.backend, full, k);
    }
  }

  /** The online limit lets in no more chunks of this text than the full one. */
  predicate OnlineIsPart(w: Worker, text: string) { |w.ChunksOf(text, false)| <= |w.ChunksOf(text, true)| }

  /** That is so for every text under an online limit not above the full one, and then an online build indexes
    * the first chunks of a full one, or all of them if the limit cuts none off. */
  lemma OnlineIsPrefix(w: Worker, text: string)
    requires w.Valid()
    ensures w.onlineMaxChunks <= w.maxChunks ==> OnlineIsPart(w, text)
    ensures OnlineIsPart(w, text) ==> w.ChunksOf(text, false) <= w.ChunksOf(text, true)
    ensures OnlineIsPart(w, text) && |w.ChunksOf(text, false)| < w.onlineMaxChunks ==> w.ChunksOf(text, false) == w.ChunksOf(text, true)
  {
    hide Chunks;
    if w.onlineMaxChunks <= w.maxChunks {
      ChunksMore(text, w.chunkChars, w.overlapChars, w.onlineMaxChunks, w.maxChunks);
    } else {
      ChunksMore(text, w.chunkChars, w.overlapChars, w.maxChunks, w.onlineMaxChunks);
    }
  }

  /** Under a larger online limit some text has more chunks for an online build than for a full one. */
  lemma OnlineIsPartForAllIff(w: Worker)
    requires w.Valid()
    ensures (forall text :: OnlineIsPart(w, text)) <==> w.onlineMaxChunks <= w.maxChunks
  {
    hide Chunks, OnlineIsPart;
    forall text | w.onlineMaxChunks <= w.maxChunks ensures OnlineIsPart(w, text) {
      OnlineIsPrefix(w, text);
    }
    if w.onlineMaxChunks > w.maxChunks {
      var text := LongText(w);
    }
  }

  lemma LongText(w: Worker) returns (text: string)
    requires w.Valid() && w.onlineMaxChunks > w.maxChunks
    ensures !OnlineIsPart(w, text)
  {
    hide Windows, Emit, ChunksFrom;
    var c, o, n: nat := ChunkChars(w.chunkChars), OverlapChars(w.chunkChars, w.overlapChars), w.onlineMaxChunks;
    text := seq(n * c, i => 'x');
    LongTextHasChunks(text, 0, c, o, n, n);
    ChunksAreEmittedWindows(text, 0, c, o, n);
    ChunksAreExactRanges(text, w.chunkChars, w.overlapChars, w.maxChunks);
  }

  /** All chunks of the text that a build may index: those of a full build, or those of an online build if these
    * are more. */
  function AllChunks(w: Worker, text: string): seq<Chunk> { w.ChunksOf(text, OnlineIsPart(w, text)) }

  lemma PartsOfAll(w: Worker, text: string)
    requires w.Valid()
    ensures w.ChunksOf(text, true) <= AllChunks(w, text) && w.ChunksOf(text, false) <= AllChunks(w, text)
    ensures Starts(AllChunks(w, text)) && Starts(w.ChunksOf(text, true)) && Starts(w.ChunksOf(text, false))
    ensures OnlineIsPart(w, text) && |w.ChunksOf(text, false)| < w.onlineMaxChunks ==> w.ChunksOf(text, false) == w.ChunksOf(text, true)
    ensures !OnlineIsPart(w, text) ==> w.ChunksOf(text, true) != [] && |w.ChunksOf(text, true)| < |w.ChunksOf(text, false)|
    ensures |w.ChunksOf(text, false)| <= w.onlineMaxChunks
  {
    hide Chunks, Starts;
    ChunksStart(text, w.chunkChars, w.overlapChars, w.maxChunks);
    ChunksStart(text, w.chunkChars, w.overlapChars, w.onlineMaxChunks);
    ChunksAreExactRanges(text, w.chunkChars, w.overlapChars, w.onlineMaxChunks);
    OnlineIsPrefix(w, text);
    if w.onlineMaxChunks <= w.maxChunks {
      ChunksMore(text, w.chunkChars, w.overlapChars, w.onlineMaxChunks, w.maxChunks);
    } else {
      ChunksMore(text, w.chunkChars, w.overlapChars, w.maxChunks, w.onlineMaxChunks);
    }
  }

  /** The marker and the state of the rows, for one file and configuration. */
  ghost predicate Sound(w: Worker, src: Source, text: string)
    reads w.store
  {
    && SoundRows(src, w.store.units, AllChunks(w, text))
    && (w.CompleteKey(src) in w.store.meta ==> IsMarker(w, text, w.store.meta[w.CompleteKey(src)]))
  }

  /** A marker tells the number of chunks of a full build, or of an online build that its limit did not cut. */
  predicate IsMarker(w: Worker, text: string, mark: string) {
    || mark == Digits(|w.ChunksOf(text, true)|)
    || (mark == Digits(|w.ChunksOf(text, false)|) && |w.ChunksOf(text, false)| < w.onlineMaxChunks)
  }

  /** What an answer on the strength of the marker may be: some chunks of the text, as many as a full build has; or
    * all those of an online build that its limit did not cut. */
  predicate MarkerAnswer(w: Worker, src: Source, text: string, keys: set<Key>) {
    && keys <= ChunkKeys(src.item, src.backend, AllChunks(w, text))
    && (|keys| == |w.ChunksOf(text, true)|
        || (|w.ChunksOf(text, false)| < w.onlineMaxChunks && keys == ChunkKeys(src.item, src.backend, w.ChunksOf(text, false))))
  }

  /** If there are as many rows as the marker says, they are such an answer; and unless an online build indexes more
    * chunks than a full one, they are the rows of all chunks of a full build. */
  lemma MarkerMeansComplete(w: Worker, src: Source, text: string)
    requires w.Valid() && Sound(w, src, text) && src.backend == w.backend
    requires w.Expected(src) == Some(|w.Located(src)|)
    ensures MarkerAnswer(w, src, text, w.Located(src))
    ensures OnlineIsPart(w, text) ==> w.Located(src) == ChunkKeys(src.item, src.backend, w.ChunksOf(text, true))
  {
    hide Digits, Chunks, ChunkKeys, Starts;
    var full, online, all := w.ChunksOf(text, true), w.ChunksOf(text, false), AllChunks(w, text);
    NumberOfDigits(|full|);
    NumberOfDigits(|online|);
    PartsOfAll(w, text);
    CountIsKeys(src.item, src.backend, all);
    SubsetSize(w.Located(src), ChunkKeys(src.item, src.backend, all));
  }

  datatype Call = Index(version: string, full: bool, deadline: Option<real>) | Evict(maxRows: int)

  datatype Answer = Answer(outcome: Outcome, keys: set<Key>)

  /** The version of the file with this fingerprint. */
  function Version(w: Worker, item: string, version: string): Source { Source(item, version, w.backend, w.excerptChars) }

  /** Marker and rows of every version of the file. */
  ghost predicate AllSound(w: Worker, item: string, texts: string -> string)
    reads w.store
  {
    forall v: string {:trigger Version(w, item, v)} :: Sound(w, Version(w, item, v), texts(v))
  }

  /** Among the first `n` calls one has built this version. */
  predicate BuiltBefore(calls: seq<Call>, answers: seq<Option<Answer>>, n: nat, version: string)
    requires n <= |calls| && n <= |answers|
  {
    exists j :: 0 <= j < n && calls[j].Index? && calls[j].version == version && answers[j].Some? && answers[j].value.outcome.Built?
  }

  /** An answer on the strength of the marker of this version. */
  predicate AnswersVersion(w: Worker, src: Source, text: string, keys: set<Key>) {
    && MarkerAnswer(w, src, text, keys)
    && (OnlineIsPart(w, text) ==> keys == ChunkKeys(src.item, src.backend, w.ChunksOf(text, true)))
  }

  /** Call `i` was answered: if on the strength of a marker, with the chunks of its version, and if that version had
    * no marker at the start, after a build of it. */
  ghost predicate WellAnswered(w: Worker, item: string, texts: string -> string, start: map<string, string>,
                               calls: seq<Call>, answers: seq<Option<Answer>>, i: nat)
    requires i < |answers| <= |calls|
  {
    calls[i].Index? ==>
      && answers[i].Some?
      && (answers[i].value.outcome.Cached? ==>
            var src := Version(w, item, calls[i].version);
            && AnswersVersion(w, src, texts(calls[i].version), answers[i].value.keys)
            && (Recorded(start, w.CompleteKey(src)).None? ==> BuiltBefore(calls, answers, i, calls[i].version)))
  }

  /** Any sequence of index calls, online or full, with any deadlines and failures, and of evictions in between,
    * whatever the limits, while the file changes: `texts` gives the text of each version, named by its
    * fingerprint. Whenever the marker lets a call answer from what is there, the answer is of the form above for
    * the text of that version; unless an online build indexes more chunks than a full one, it has every chunk of a
    * full build and no other. And a version without a marker is answered so only after a build of its own. */
  method Serve(w: Worker, item: string, texts: string -> string, calls: seq<Call>) returns (answers: seq<Option<Answer>>)
    requires w.Valid() && AllSound(w, item, texts)
    modifies w`memory, w.store, w.clock
    ensures |answers| == |calls| && forall i :: 0 <= i < |calls| ==> WellAnswered(w, item, texts, old(w.store.meta), calls, answers, i)
  {
    hide AllSound, WellAnswered, MarkersAreBuilt;
    ghost var start := w.store.meta;
    answers := [];
    NoneBuilt(w, item, start, calls);
    for n := 0 to |calls|
      invariant AllSound(w, item, texts) && |answers| == n && MarkersAreBuilt(w, item, start, w.store.meta, calls, answers)
      invariant forall i :: 0 <= i < n ==> WellAnswered(w, item, texts, start, calls, answers, i)
    {
      ghost var before, meta := answers, w.store.meta;
      match calls[n] {
        case Evict(maxRows) =>
          EvictSome(w, item, texts, maxRows);
          answers := answers + [None];
        case Index(version, full, deadline) =>
          var answer := ServeVersion(w, item, texts, version, full, deadline);
          answers := answers + [Some(answer)];
      }
      MarkersAreStillBuilt(w, item, start, meta, w.store.meta, calls, before, answers);
      AnsweredNow(w, item, texts, start, meta, calls, before, answers);
      forall i | 0 <= i < n ensures WellAnswered(w, item, texts, start, calls, answers, i) {
        StillAnswered(w, item, texts, start, calls, before, answers, i);
      }
    }
  }

  /** A version with a marker had one at the start or was built. */
  ghost predicate MarkersAreBuilt(w: Worker, item: string, start: map<string, string>, now: map<string, string>, calls: seq<Call>, answers: seq<Option<Answer>>)
    requires |answers| <= |calls|
  {
    forall v: string {:trigger Version(w, item, v)} ::
      Recorded(start, w.CompleteKey(Version(w, item, v))).None? && Recorded(now, w.CompleteKey(Version(w, item, v))).Some? ==>
        BuiltBefore(calls, answers, |answers|, v)
  }

  lemma NoneBuilt(w: Worker, item: string, start: map<string, string>, calls: seq<Call>)
    ensures MarkersAreBuilt(w, item, start, start, calls, [])
  {
  }

  lemma BuiltMore(calls: seq<Call>, before: seq<Option<Answer>>, answers: seq<Option<Answer>>, n: nat, m: nat, version: string)
    requires n <= |before| <= |answers| <= |calls| && n <= m <= |answers| && before <= answers && BuiltBefore(calls, before, n, version)
    ensures BuiltBefore(calls, answers, m, version)
  {
    var j :| 0 <= j < n && calls[j].Index? && calls[j].version == version && before[j].Some? && before[j].value.outcome.Built?;
    assert answers[j] == before[j];
  }

  lemma MarkersAreStillBuilt(w: Worker, item: string, start: map<string, string>, was: map<string, string>, now: map<string, string>,
                             calls: seq<Call>, before: seq<Option<Answer>>, answers: seq<Option<Answer>>)
    requires |answers| == |before| + 1 <= |calls| && before <= answers && MarkersAreBuilt(w, item, start, was, calls, before)
    requires var n := |before|;
             forall v: string {:trigger Version(w, item, v)} ::
               !(calls[n].Index? && calls[n].version == v && answers[n].Some? && answers[n].value.outcome.Built?) ==>
                 Recorded(now, w.CompleteKey(Version(w, item, v))) == Recorded(was, w.CompleteKey(Version(w, item, v)))
    ensures MarkersAreBuilt(w, item, start, now, calls, answers)
  {
    hide Recorded, Version, BuiltBefore;
    var n := |before|;
    forall v: string | Recorded(start, w.CompleteKey(Version(w, item, v))).None? && Recorded(now, w.CompleteKey(Version(w, item, v))).Some?
      ensures BuiltBefore(calls, answers, |answers|, v)
    {
      if calls[n].Index? && calls[n].version == v && answers[n].Some? && answers[n].value.outcome.Built? {
        BuiltNow(calls, answers, n);
      } else {
        BuiltMore(calls, before, answers, n, n + 1, v);
      }
    }
  }

  lemma BuiltNow(calls: seq<Call>, answers: seq<Option<Answer>>, n: nat)
    requires n < |calls| && n < |answers| && calls[n].Index? && answers[n].Some? && answers[n].value.outcome.Built?
    ensures BuiltBefore(calls, answers, n + 1, calls[n].version)
  {
  }

  lemma AnsweredNow(w: Worker, item: string, texts: string -> string, start: map<string, string>, was: map<string, string>,
                    calls: seq<Call>, before: seq<Option<Answer>>, answers: seq<Option<Answer>>)
    requires |answers| == |before| + 1 <= |calls| && before <= answers && MarkersAreBuilt(w, item, start, was, calls, before)
    requires var n := |before|;
             calls[n].Index? ==>
               && answers[n].Some?
               && (answers[n].value.outcome.Cached? ==>
                     var src := Version(w, item, calls[n].version);
                     AnswersVersion(w, src, texts(calls[n].version), answers[n].value.keys) && Recorded(was, w.CompleteKey(src)).Some?)
    ensures WellAnswered(w, item, texts, start, calls, answers, |before|)
  {
    hide Recorded, Version, BuiltBefore, AnswersVersion;
    var n := |before|;
    if calls[n].Index? && answers[n].value.outcome.Cached? && Recorded(start, w.CompleteKey(Version(w, item, calls[n].version))).None? {
      BuiltMore(calls, before, answers, n, n, calls[n].version);
    }
  }

  lemma StillAnswered(w: Worker, item: string, texts: string -> string, start: map<string, string>,
                      calls: seq<Call>, before: seq<Option<Answer>>, answers: seq<Option<Answer>>, i: nat)
    requires i < |before| <= |answers| <= |calls| && before <= answers && WellAnswered(w, item, texts, start, calls, before, i)
    ensures WellAnswered(w, item, texts, start, calls, answers, i)
  {
    hide Recorded, Version, BuiltBefore, AnswersVersion;
    assert answers[i] == before[i];
    if calls[i].Index? && BuiltBefore(calls, before, i, calls[i].version) {
      BuiltMore(calls, before, answers, i, i, calls[i].version);
    }
  }

  /** Evictions take rows away, and no marker. */
  method EvictSome(w: Worker, item: string, texts: string -> string, maxRows: int)
    requires AllSound(w, item, texts)
    modifies w.store
    ensures AllSound(w, item, texts) && w.store.meta == old(w.store.meta)
  {
    hide SoundRows, AllChunks, IsMarker, Version;
    ghost var was := w.store.units;
    var now: real := *;
    var _ := w.store.PruneRows(maxRows, now);
    forall v: string ensures Sound(w, Version(w, item, v), texts(v)) {
      FewerAreSound(Version(w, item, v), was, w.store.units, AllChunks(w, texts(v)));
    }
  }

  /** One call for one version leaves the others sound. */
  method ServeVersion(w: Worker, item: string, texts: string -> string, version: string, full: bool, deadline: Option<real>) returns (answer: Answer)
    requires w.Valid() && AllSound(w, item, texts)
    modifies w`memory, w.store, w.clock
    ensures AllSound(w, item, texts)
    ensures answer.outcome.Cached? ==>
              Recorded(old(w.store.meta), w.CompleteKey(Version(w, item, version))).Some?
              && AnswersVersion(w, Version(w, item, version), texts(version), answer.keys)
    ensures forall v: string {:trigger Version(w, item, v)} :: (v != version || !answer.outcome.Built?) ==>
              Recorded(w.store.meta, w.CompleteKey(Version(w, item, v))) == Recorded(old(w.store.meta), w.CompleteKey(Version(w, item, v)))
  {
    hide SoundRows, AllChunks, IsMarker, MarkerAnswer, Grew, Chunks, ChunkKeys, OnlineIsPart;
    var src := Version(w, item, version);
    ghost var units, meta := w.store.units, w.store.meta;
    assert Sound(w, src, texts(version));
    answer := ServeOne(w, src, texts(version), full, deadline);
    forall v: string ensures Sound(w, Version(w, item, v), texts(v)) {
      if v != version {
        OthersStaySound(Version(w, item, v), src, units, w.store.units, w.ChunksOf(texts(version), full), AllChunks(w, texts(v)));
      }
    }
  }

  /** Rows written for one version are no rows of another. */
  lemma OthersStaySound(other: Source, src: Source, was: map<Key, Unit>, now: map<Key, Unit>, cs: seq<Chunk>, all: seq<Chunk>)
    requires other.fingerprint != src.fingerprint && Grew(src, was, now, cs) && SoundRows(other, was, all)
    ensures SoundRows(other, now, all)
  {
    hide UnitKey, ChunkKeys;
  }

  lemma FewerAreSound(src: Source, was: map<Key, Unit>, now: map<Key, Unit>, full: seq<Chunk>)
    requires SoundRows(src, was, full) && forall k :: k in now ==> k in was && now[k] == was[k]
    ensures SoundRows(src, now, full)
  {
  }

  method ServeOne(w: Worker, src: Source, text: string, full: bool, deadline: Option<real>) returns (answer: Answer)
    requires w.Valid() && Sound(w, src, text)
    requires src.backend == w.backend && src.excerptChars == w.excerptChars
    modifies w`memory, w.store, w.clock
    ensures Sound(w, src, text)
    ensures Grew(src, old(w.store.units), w.store.units, w.ChunksOf(text, full)) && w.OthersMarked(src, old(w.store.meta), w.store.meta)
    ensures !answer.outcome.Built? ==> w.store.meta == old(w.store.meta)
    ensures answer.outcome.Cached? <==> old(w.Expected(src)) == Some(|old(w.Located(src))|)
    ensures answer.outcome.Cached? ==>
              answer.keys == old(w.Located(src)) && MarkerAnswer(w, src, text, answer.keys)
              && (OnlineIsPart(w, text) ==> answer.keys == ChunkKeys(src.item, src.backend, w.ChunksOf(text, true)))
  {
    hide Grew, AllIndexed, SoundRows, Chunks, ChunkKeys, KeysOf, MarkerAnswer, OnlineIsPart, AllAtHand, VectorsKept, HeldUnwritten, Starts;
    var reader := new Reader(text);
    ghost var was := w.store.units;
    if w.Expected(src) == Some(|w.Located(src)|) {
      MarkerMeansComplete(w, src, text);
    }
    var rows, outcome;
    ghost var marked;
    rows, outcome, marked := w.EnsureTextIndex(src.item, src.fingerprint, reader, full, deadline);
    PartsOfAll(w, text);
    GrewIsSound(src, was, w.store.units, w.ChunksOf(text, full), AllChunks(w, text));
    return Answer(outcome, KeysOf(rows));
  }

  predicate Keyed(src: Source, vectors: map<Key, Vector>, all: seq<Chunk>) {
    forall c :: c in all ==> UnitKey(src.item, src.backend, c) in vectors
  }

  /** With every row written, every chunk is listed exactly if every chunk has a vector. */
  lemma AllListedIff(w: Worker, src: Source, all: seq<Chunk>)
    requires src.backend == w.backend && SoundRows(src, w.store.units, all) && AllIndexed(src, w.store.units, all) && Starts(all)
    ensures |w.Located(src)| == |all| <==> Keyed(src, w.store.vectors, all)
    ensures Keyed(src, w.store.vectors, all) ==> w.Located(src) == ChunkKeys(src.item, src.backend, all)
  {
    hide UnitKey, ChunkKeys, UnitOf;
    var located, keys := w.Located(src), ChunkKeys(src.item, src.backend, all);
    CountIsKeys(src.item, src.backend, all);
    forall k ensures k in located <==> k in keys && k in w.store.vectors {
      ChunkKeysIff(src.item, src.backend, all, k);
      if k in keys {
        var c :| c in all && k == UnitKey(src.item, src.backend, c);
        assert Indexed(src, w.store.units, c);
        RowsAreOfSource(src, w.store.units, c);
      }
    }
    SubsetSize(located, keys);
    if Keyed(src, w.store.vectors, all) {
      forall k | k in keys ensures k in w.store.vectors { ChunkKeysIff(src.item, src.backend, all, k); }
      assert located == keys;
    }
    if located == keys {
      forall c | c in all ensures UnitKey(src.item, src.backend, c) in w.store.vectors {
        ChunkKeysIff(src.item, src.backend, all, UnitKey(src.item, src.backend, c));
      }
    }
  }

  lemma RowsAreOfSource(src: Source, units: map<Key, Unit>, c: Chunk)
    requires Indexed(src, units, c)
    ensures var k := UnitKey(src.item, src.backend, c);
            k.backend == src.backend && units[k].sourceKey == src.item && units[k].sourceFingerprint == src.fingerprint && units[k].modality == "text"
  {
  }

  /** A chunk whose vector memory holds and the store does not have: the build will not write it. */
  predicate OnlyHeld(src: Source, fp: string -> string, memory: Memory, vectors: map<Key, Vector>, all: seq<Chunk>) {
    exists c :: c in all && Held(src, fp, memory, c) && UnitKey(src.item, src.backend, c) !in vectors
  }

  lemma KeyedAfterBuild(src: Source, fp: string -> string, memory: Memory, was: map<Key, Vector>, now: map<Key, Vector>, all: seq<Chunk>)
    requires VectorsKept(src, fp, was, now, all) && AllAtHand(src, fp, now, memory, all)
    ensures !OnlyHeld(src, fp, memory, was, all) ==> Keyed(src, now, all)
    ensures HeldUnwritten(src, fp, memory, was, now, all) && Keyed(src, now, all) ==> !OnlyHeld(src, fp, memory, was, all)
  {
    hide UnitKey, Held;
    if !OnlyHeld(src, fp, memory, was, all) {
      forall c | c in all ensures UnitKey(src.item, src.backend, c) in now {
        if Held(src, fp, memory, c) {
          assert UnitKey(src.item, src.backend, c) in was;
        } else {
          assert Stored(src, fp, now, c);
        }
      }
    }
  }

  predicate IsListed(src: Source, units: map<Key, Unit>, vectors: map<Key, Vector>, k: Key) {
    k in units && k in vectors && k.backend == src.backend && OfSource(units[k], src.item, src.fingerprint, "text")
  }

  /** A finished build lists its own chunks that have a vector, and leaves alone what is listed beside them. */
  lemma ListedAfterBuild(src: Source, fp: string -> string, units: map<Key, Unit>, vectors: map<Key, Vector>,
                         units': map<Key, Unit>, vectors': map<Key, Vector>, cs: seq<Chunk>, k: Key)
    requires Grew(src, units, units', cs) && VectorsKept(src, fp, vectors, vectors', cs) && AllIndexed(src, units', cs)
    ensures IsListed(src, units', vectors', k) <==>
              if k in ChunkKeys(src.item, src.backend, cs) then k in vectors' else IsListed(src, units, vectors, k)
  {
    hide UnitKey, UnitOf, ChunkKeys, Indexed;
    ChunkKeysIff(src.item, src.backend, cs, k);
    if k in ChunkKeys(src.item, src.backend, cs) {
      var c :| c in cs && k == UnitKey(src.item, src.backend, c);
      assert Indexed(src, units', c);
      IndexedIsThere(src, units', c);
      RowsAreOfSource(src, units', c);
    }
  }

  lemma IndexedIsThere(src: Source, units: map<Key, Unit>, c: Chunk)
    requires Indexed(src, units, c)
    ensures UnitKey(src.item, src.backend, c) in units
  {
  }

  lemma KeyedIff(src: Source, vectors: map<Key, Vector>, cs: seq<Chunk>)
    ensures Keyed(src, vectors, cs) <==> forall k :: k in ChunkKeys(src.item, src.backend, cs) ==> k in vectors
  {
    hide UnitKey, ChunkKeys;
    forall k ensures k in ChunkKeys(src.item, src.backend, cs) <==> exists c :: c in cs && k == UnitKey(src.item, src.backend, c) {
      ChunkKeysIff(src.item, src.backend, cs, k);
    }
  }

  /** Exactly the chunks of a finished build are listed if and only if they all have vectors and nothing was listed
    * beside them. */
  lemma ListedExactlyIff(src: Source, fp: string -> string, units: map<Key, Unit>, vectors: map<Key, Vector>,
                         units': map<Key, Unit>, vectors': map<Key, Vector>, cs: seq<Chunk>, was: set<Key>, now: set<Key>)
    requires Grew(src, units, units', cs) && VectorsKept(src, fp, vectors, vectors', cs) && AllIndexed(src, units', cs) && Starts(cs)
    requires forall k :: (k in was <==> IsListed(src, units, vectors, k)) && (k in now <==> IsListed(src, units', vectors', k))
    ensures now == ChunkKeys(src.item, src.backend, cs) <==> Keyed(src, vectors', cs) && was <= ChunkKeys(src.item, src.backend, cs)
    ensures was <= ChunkKeys(src.item, src.backend, cs) ==> now <= ChunkKeys(src.item, src.backend, cs) && (|now| == |cs| <==> Keyed(src, vectors', cs))
  {
    hide Grew, VectorsKept, AllIndexed, ChunkKeys, IsListed, Keyed;
    var keys := ChunkKeys(src.item, src.backend, cs);
    forall k ensures k in now <==> if k in keys then k in vectors' else k in was {
      ListedAfterBuild(src, fp, units, vectors, units', vectors', cs, k);
    }
    KeyedIff(src, vectors', cs);
    CountIsKeys(src.item, src.backend, cs);
    if was <= keys {
      SubsetSize(now, keys);
    }
  }

  lemma LocatedIsListed(w: Worker, src: Source)
    requires src.backend == w.backend
    ensures forall k :: k in w.Located(src) <==> IsListed(src, w.store.units, w.store.vectors, k)
  {
  }

  /** What a full build is worth to the next call, of either kind and whatever the limits. If no chunk's vector was
    * only in memory, and no row was listed beyond the chunks of a full build, the next call answers on the strength
    * of the marker, with every chunk of a full build and no other. If memory has room for all chunks that is exactly
    * when: a vector that is held in memory and was pruned from the store is not written again, and the marker counts
    * a row that is not listed. */
  method BuildThenServe(w: Worker, src: Source, text: string, full: bool, deadline: Option<real>) returns (built: bool, answer: Answer)
    requires w.Valid() && Sound(w, src, text)
    requires src.backend == w.backend && src.excerptChars == w.excerptChars
    modifies w`memory, w.store, w.clock
    ensures built && !OnlyHeld(src, w.fingerprint, old(w.memory), old(w.store.vectors), w.ChunksOf(text, true))
            && old(w.Located(src)) <= ChunkKeys(src.item, src.backend, w.ChunksOf(text, true)) ==>
              answer.outcome.Cached? && answer.keys == ChunkKeys(src.item, src.backend, w.ChunksOf(text, true))
    ensures built && |old(w.memory)| + |w.ChunksOf(text, true)| <= w.capacity ==>
              (answer.outcome.Cached? && answer.keys == ChunkKeys(src.item, src.backend, w.ChunksOf(text, true))
               <==> !OnlyHeld(src, w.fingerprint, old(w.memory), old(w.store.vectors), w.ChunksOf(text, true))
                    && old(w.Located(src)) <= ChunkKeys(src.item, src.backend, w.ChunksOf(text, true)))
  {
    hide Grew, AllIndexed, SoundRows, Chunks, ChunkKeys, KeysOf, AllAtHand, VectorsKept, Digits, HeldUnwritten, OnlyHeld, Keyed, IsListed, OnlineIsPart;
    var reader := new Reader(text);
    ghost var units, vectors, was := w.store.units, w.store.vectors, w.Located(src);
    LocatedIsListed(w, src);
    var rows, outcome;
    ghost var marked;
    rows, outcome, marked := w.EnsureTextIndex(src.item, src.fingerprint, reader, true, deadline);
    built := outcome.Built?;
    ghost var chunks := w.ChunksOf(text, true);
    PartsOfAll(w, text);
    GrewIsSound(src, units, w.store.units, chunks, AllChunks(w, text));
    ghost var now := w.Located(src);
    LocatedIsListed(w, src);
    if built {
      ListedExactlyIff(src, w.fingerprint, units, vectors, w.store.units, w.store.vectors, chunks, was, now);
      CountIsKeys(src.item, src.backend, chunks);
      NumberOfDigits(|chunks|);
      KeyedAfterBuild(src, w.fingerprint, old(w.memory), vectors, w.store.vectors, chunks);
    }
    answer := ServeOne(w, src, text, full, deadline);
  }

  /** Unless an online build indexes more chunks than a full one, no row is listed beyond a full build's. */
  lemma NothingBeyond(w: Worker, src: Source, text: string)
    requires w.Valid() && Sound(w, src, text) && src.backend == w.backend && OnlineIsPart(w, text)
    ensures w.Located(src) <= ChunkKeys(src.item, src.backend, w.ChunksOf(text, true))
  {
    hide Chunks, ChunkKeys;
  }

  /* ---- An online limit above the full one ---- */

  /** The vector of the first chunk is older than those of the others, as it is when the clock moves between two
    * writes. */
  predicate FirstIsOldest(src: Source, vectors: map<Key, Vector>, cs: seq<Chunk>) {
    cs != [] && UnitKey(src.item, src.backend, cs[0]) in vectors
    && forall k :: k in vectors && k != UnitKey(src.item, src.backend, cs[0]) ==>
         vectors[UnitKey(src.item, src.backend, cs[0])].updatedAt < vectors[k].updatedAt
  }

  lemma FewerKeys(item: string, backend: string, few: seq<Chunk>, many: seq<Chunk>)
    requires few <= many && |few| < |many| && Starts(many) && Starts(few)
    ensures ChunkKeys(item, backend, few) <= ChunkKeys(item, backend, many) && ChunkKeys(item, backend, few) != ChunkKeys(item, backend, many)
  {
    hide UnitKey, Starts, ChunkKeys;
    CountIsKeys(item, backend, few);
    CountIsKeys(item, backend, many);
    forall k | k in ChunkKeys(item, backend, few) ensures k in ChunkKeys(item, backend, many) {
      ChunkKeysIff(item, backend, few, k);
      ChunkKeysIff(item, backend, many, k);
    }
  }

  /** The vectors left when all but as many as a full build has chunks are dropped, the oldest first. */
  lemma OldestIsDropped(src: Source, vectors: map<Key, Vector>, left: map<Key, Vector>, few: seq<Chunk>, many: seq<Chunk>)
    requires few != [] && few <= many && FirstIsOldest(src, vectors, many) && |left| < |vectors|
    requires forall k :: k in left ==> k in vectors && left[k] == vectors[k]
    requires forall k, j :: k in left && j in vectors && j !in left ==> vectors[j].updatedAt <= left[k].updatedAt
    ensures left.Keys != ChunkKeys(src.item, src.backend, few)
  {
    hide UnitKey, ChunkKeys;
    var first := UnitKey(src.item, src.backend, many[0]);
    ChunkKeysIff(src.item, src.backend, few, first);
    assert few[0] == many[0] && few[0] in few;
    var j := OneDropped(vectors, left);
  }

  lemma OneDropped(vectors: map<Key, Vector>, left: map<Key, Vector>) returns (j: Key)
    requires |left| < |vectors|
    ensures j in vectors && j !in left
  {
    if vectors.Keys <= left.Keys {
      SubsetSize(vectors.Keys, left.Keys);
    }
    j :| j in vectors && j !in left;
  }

  /** Vectors written to an empty store are those of the chunks. */
  lemma OnlyTheirVectors(src: Source, fp: string -> string, was: map<Key, Vector>, now: map<Key, Vector>, cs: seq<Chunk>, all: seq<Chunk>)
    requires VectorsKept(src, fp, was, now, cs) && cs <= all && was.Keys <= ChunkKeys(src.item, src.backend, all)
    ensures now.Keys <= ChunkKeys(src.item, src.backend, all)
  {
    hide UnitKey, ChunkKeys;
    forall k | k in now ensures k in ChunkKeys(src.item, src.backend, all) {
      if k !in was {
        var c :| c in cs && WrittenFor(src, fp, k, now[k], c);
        ChunkKeysIff(src.item, src.backend, all, k);
      }
    }
  }

  /** Rows and vectors are those of the chunks `cs`, each with both. */
  predicate Shelved(w: Worker, src: Source, cs: seq<Chunk>)
    reads w.store
  {
    w.Located(src) == ChunkKeys(src.item, src.backend, cs) == w.store.vectors.Keys
  }

  method IndexOnline(w: Worker, src: Source, text: string) returns (answer: Answer)
    requires w.Valid() && src.backend == w.backend && src.excerptChars == w.excerptChars
    requires w.memory == map[] && w.store.vectors == map[] && w.store.units == map[] && w.CompleteKey(src) !in w.store.meta
    modifies w`memory, w.store, w.clock
    ensures Sound(w, src, text)
    ensures answer.outcome.Built? ==>
              && Shelved(w, src, w.ChunksOf(text, false))
              && w.Expected(src) == if |w.ChunksOf(text, false)| < w.onlineMaxChunks then Some(|w.ChunksOf(text, false)|) else None
  {
    hide Grew, AllIndexed, Chunks, ChunkKeys, KeysOf, AllAtHand, VectorsKept, Digits, HeldUnwritten, Keyed, IsListed, Starts, OnlineIsPart;
    ghost var chunks := w.ChunksOf(text, false);
    PartsOfAll(w, text);
    var reader := new Reader(text);
    LocatedIsListed(w, src);
    ghost var was := w.Located(src);
    var rows, outcome;
    ghost var marked;
    rows, outcome, marked := w.EnsureTextIndex(src.item, src.fingerprint, reader, false, None);
    GrewIsSound(src, map[], w.store.units, chunks, AllChunks(w, text));
    NumberOfDigits(|chunks|);
    ghost var now := w.Located(src);
    LocatedIsListed(w, src);
    if outcome.Built? {
      ListedExactlyIff(src, w.fingerprint, map[], map[], w.store.units, w.store.vectors, chunks, was, now);
      NothingHeld(src, w.fingerprint, map[], chunks);
      KeyedAfterBuild(src, w.fingerprint, map[], map[], w.store.vectors, chunks);
      OnlyTheirVectors(src, w.fingerprint, map[], w.store.vectors, chunks, chunks);
      KeyedIff(src, w.store.vectors, chunks);
    }
    return Answer(outcome, KeysOf(rows));
  }

  lemma NothingHeld(src: Source, fp: string -> string, vectors: map<Key, Vector>, cs: seq<Chunk>)
    ensures !OnlyHeld(src, fp, map[], vectors, cs)
  {
  }

  method IndexFull(w: Worker, src: Source, text: string) returns (answer: Answer)
    requires w.Valid() && Sound(w, src, text) && src.backend == w.backend && src.excerptChars == w.excerptChars && !OnlineIsPart(w, text)
    modifies w`memory, w.store, w.clock
    ensures Sound(w, src, text)
    ensures answer.outcome.Cached? <==> old(w.Expected(src)) == Some(|old(w.Located(src))|)
    ensures answer.outcome.Cached? ==> answer.keys == old(w.Located(src))
    ensures answer.outcome.Built? && old(Shelved(w, src, w.ChunksOf(text, false))) ==>
              Shelved(w, src, w.ChunksOf(text, false)) && w.Expected(src) == Some(|w.ChunksOf(text, true)|)
  {
    hide Grew, AllIndexed, Chunks, ChunkKeys, KeysOf, AllAtHand, VectorsKept, Digits, HeldUnwritten, Keyed, IsListed, Starts;
    ghost var few, many := w.ChunksOf(text, true), w.ChunksOf(text, false);
    PartsOfAll(w, text);
    var reader := new Reader(text);
    LocatedIsListed(w, src);
    ghost var units, vectors, was := w.store.units, w.store.vectors, w.Located(src);
    var rows, outcome;
    ghost var marked;
    rows, outcome, marked := w.EnsureTextIndex(src.item, src.fingerprint, reader, true, None);
    GrewIsSound(src, units, w.store.units, few, AllChunks(w, text));
    NumberOfDigits(|few|);
    ghost var now := w.Located(src);
    LocatedIsListed(w, src);
    if outcome.Built? && was == ChunkKeys(src.item, src.backend, many) == vectors.Keys {
      StillShelved(src, w.fingerprint, units, vectors, w.store.units, w.store.vectors, few, many, was, now);
    }
    return Answer(outcome, KeysOf(rows));
  }

  lemma StillShelved(src: Source, fp: string -> string, units: map<Key, Unit>, vectors: map<Key, Vector>,
                     units': map<Key, Unit>, vectors': map<Key, Vector>, few: seq<Chunk>, many: seq<Chunk>, was: set<Key>, now: set<Key>)
    requires Grew(src, units, units', few) && VectorsKept(src, fp, vectors, vectors', few) && AllIndexed(src, units', few)
    requires few <= many && |few| < |many| && Starts(few) && Starts(many) && was == ChunkKeys(src.item, src.backend, many) == vectors.Keys
    requires forall k :: (k in was <==> IsListed(src, units, vectors, k)) && (k in now <==> IsListed(src, units', vectors', k))
    ensures now == ChunkKeys(src.item, src.backend, many) == vectors'.Keys
  {
    hide Grew, AllIndexed, ChunkKeys, IsListed, Starts;
    FewerKeys(src.item, src.backend, few, many);
    OnlyTheirVectors(src, fp, vectors, vectors', few, many);
    forall k ensures k in now <==> if k in ChunkKeys(src.item, src.backend, few) then k in vectors' else k in was {
      ListedAfterBuild(src, fp, units, vectors, units', vectors', few, k);
    }
  }

  lemma ListedAfterPrune(src: Source, units: map<Key, Unit>, vectors: map<Key, Vector>, left: map<Key, Vector>)
    requires left.Keys <= vectors.Keys && forall k :: k in vectors <==> IsListed(src, units, vectors, k)
    ensures forall k :: k in left <==> IsListed(src, map k | k in units && k in left :: units[k], left, k)
  {
    forall k ensures k in left <==> IsListed(src, map k | k in units && k in left :: units[k], left, k) {
      assert k in left ==> IsListed(src, units, vectors, k);
    }
  }

  /** Evict all vectors but `n`, and look at what is listed. */
  method EvictAll(w: Worker, src: Source, text: string, n: nat)
    requires Sound(w, src, text) && src.backend == w.backend
    modifies w.store
    ensures Sound(w, src, text) && w.Expected(src) == old(w.Expected(src))
    ensures forall k :: k in w.store.vectors ==> k in old(w.store.vectors) && w.store.vectors[k] == old(w.store.vectors)[k]
    ensures forall k, j :: k in w.store.vectors && j in old(w.store.vectors) && j !in w.store.vectors ==>
              old(w.store.vectors)[j].updatedAt <= w.store.vectors[k].updatedAt
    ensures n < |old(w.store.vectors)| ==> |w.store.vectors| == n
    ensures n < |old(w.store.vectors)| && old(w.Located(src)) == old(w.store.vectors).Keys ==> w.Located(src) == w.store.vectors.Keys
  {
    hide IsListed, IsMarker, SoundRows, AllChunks;
    ghost var units, vectors := w.store.units, w.store.vectors;
    LocatedIsListed(w, src);
    ghost var was := w.Located(src);
    var now: real := *;
    var excess := w.store.PruneRows(n, now);
    FewerAreSound(src, units, w.store.units, AllChunks(w, text));
    LocatedIsListed(w, src);
    if n < |vectors| && was == vectors.Keys {
      ListedAfterPrune(src, units, vectors, w.store.vectors);
    }
  }

  /** Whenever an online build of a text indexes more chunks than a full one, answers can be wrong. On a store
    * without rows the text is indexed online and then in full. If its limit did not cut the online build, the full
    * call already answers on the strength of the marker, with more chunks than a full build has. If it did, the
    * marker is that of the full build; evict as many vectors as there are too many, and the next call answers on
    * the strength of the marker, without the first chunk. */
  method WideOnlineLimitMisleads(w: Worker, src: Source, text: string) returns (online: Answer, second: Answer, third: Answer, ghost stored: map<Key, Vector>)
    requires w.Valid() && !OnlineIsPart(w, text) && src.backend == w.backend && src.excerptChars == w.excerptChars
    requires w.memory == map[] && w.store.vectors == map[] && w.store.units == map[] && w.CompleteKey(src) !in w.store.meta
    modifies w`memory, w.store, w.clock
    ensures online.outcome.Built? && |w.ChunksOf(text, false)| < w.onlineMaxChunks ==>
              second.outcome.Cached? && second.keys != ChunkKeys(src.item, src.backend, w.ChunksOf(text, true))
    ensures online.outcome.Built? && second.outcome.Built? && FirstIsOldest(src, stored, w.ChunksOf(text, false)) ==>
              third.outcome.Cached? && third.keys != ChunkKeys(src.item, src.backend, w.ChunksOf(text, true))
  {
    hide Sound, Chunks, ChunkKeys, FirstIsOldest, Starts, MarkerAnswer, UnitKey;
    ghost var few, many := w.ChunksOf(text, true), w.ChunksOf(text, false);
    PartsOfAll(w, text);
    FewerKeys(src.item, src.backend, few, many);
    CountIsKeys(src.item, src.backend, many);
    online := IndexOnline(w, src, text);
    second := IndexFull(w, src, text);
    stored := w.store.vectors;
    EvictAll(w, src, text, |w.ChunksOf(text, true)|);
    if online.outcome.Built? && second.outcome.Built? && FirstIsOldest(src, stored, many) {
      OldestIsDropped(src, stored, w.store.vectors, few, many);
    }
    third := ServeOne(w, src, text, false, None);
  }

  /** The rows of these chunks. */
  function UnitsFor(src: Source, cs: seq<Chunk>): map<Key, Unit> {
    if cs == [] then map[]
    else
      var n := |cs| - 1;
      UnitsFor(src, cs[..n])[UnitKey(src.item, src.backend, cs[n]) := UnitOf(src.item, src.fingerprint, cs[n], src.excerptChars)]
  }

  /** Their vectors, written one after the other. */
  function VectorsFor(src: Source, fp: string -> string, cs: seq<Chunk>): map<Key, Vector> {
    if cs == [] then map[]
    else
      var n := |cs| - 1;
      VectorsFor(src, fp, cs[..n])[UnitKey(src.item, src.backend, cs[n]) := Vector(fp(cs[n].text), [1.0], n as real)]
  }

  lemma {:induction false} ListedFor(src: Source, fp: string -> string, cs: seq<Chunk>)
    ensures UnitsFor(src, cs).Keys == VectorsFor(src, fp, cs).Keys == ChunkKeys(src.item, src.backend, cs)
    ensures forall k :: k in UnitsFor(src, cs) ==> k.backend == src.backend && OfSource(UnitsFor(src, cs)[k], src.item, src.fingerprint, "text")
    decreases |cs|
  {
    hide Digits;
    if cs != [] {
      ListedFor(src, fp, cs[..|cs| - 1]);
    }
  }

  /** The chunks of an online build after the first, as many as a full build has. */
  function Leftover(w: Worker, text: string): seq<Chunk>
    requires w.Valid() && !OnlineIsPart(w, text)
  {
    w.ChunksOf(text, false)[1..|w.ChunksOf(text, true)| + 1]
  }

  lemma LeftoverKeys(w: Worker, src: Source, text: string)
    requires w.Valid() && !OnlineIsPart(w, text)
    ensures var keys := ChunkKeys(src.item, src.backend, Leftover(w, text));
            && |keys| == |w.ChunksOf(text, true)| && keys != ChunkKeys(src.item, src.backend, w.ChunksOf(text, true))
            && keys <= ChunkKeys(src.item, src.backend, AllChunks(w, text))
  {
    hide Chunks, UnitKey, ChunkKeys, Starts;
    PartsOfAll(w, text);
    var online, full, left := w.ChunksOf(text, false), w.ChunksOf(text, true), Leftover(w, text);
    PartStarts(online, 1, |full| + 1);
    CountIsKeys(src.item, src.backend, left);
    var first := UnitKey(src.item, src.backend, online[0]);
    ChunkKeysIff(src.item, src.backend, full, first);
    assert full[0] == online[0] && full[0] in full;
    ChunkKeysIff(src.item, src.backend, left, first);
    forall c | c in left ensures UnitKey(src.item, src.backend, c) != first {
      var m :| 0 <= m < |left| && left[m] == c;
      LaterStart(online, 0, m + 1);
      if UnitKey(src.item, src.backend, c) == first {
        UnitKeyTellsStart(src.item, src.backend, c, online[0]);
      }
    }
    forall k | k in ChunkKeys(src.item, src.backend, left) ensures k in ChunkKeys(src.item, src.backend, AllChunks(w, text)) {
      ChunkKeysIff(src.item, src.backend, left, k);
      ChunkKeysIff(src.item, src.backend, AllChunks(w, text), k);
    }
  }

  lemma PartStarts(cs: seq<Chunk>, from: nat, upto: nat)
    requires from <= upto <= |cs| && Starts(cs)
    ensures Starts(cs[from..upto])
  {
  }

  lemma LaterStart(cs: seq<Chunk>, i: nat, j: nat)
    requires i < j < |cs| && Starts(cs)
    ensures cs[i].start < cs[j].start
  {
  }

  /** The store that this run leaves, and the answer it gives, with nothing left open: the rows of a full build's
    * number of chunks without the first, and a full build's marker. */
  method LeftoverMisleads(w: Worker, src: Source, text: string) returns (answer: Answer)
    requires w.Valid() && !OnlineIsPart(w, text) && src.backend == w.backend && src.excerptChars == w.excerptChars
    modifies w`memory, w.store, w.clock
    ensures answer.outcome.Cached? && answer.keys != ChunkKeys(src.item, src.backend, w.ChunksOf(text, true))
  {
    hide Chunks, ChunkKeys, MarkerAnswer, Leftover, OnlineIsPart, UnitsFor, VectorsFor, AllChunks;
    LeftoverKeys(w, src, text);
    ListedFor(src, w.fingerprint, Leftover(w, text));
    NumberOfDigits(|w.ChunksOf(text, true)|);
    w.store.units, w.store.vectors := UnitsFor(src, Leftover(w, text)), VectorsFor(src, w.fingerprint, Leftover(w, text));
    w.store.meta := map[w.CompleteKey(src) := Digits(|w.ChunksOf(text, true)|)];
    assert w.Located(src) == ChunkKeys(src.item, src.backend, Leftover(w, text));
    answer := ServeOne(w, src, text, true, None);
  }
}

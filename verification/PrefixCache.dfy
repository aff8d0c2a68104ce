/** Conversation histories, and the bounded least-recently-used caches that keep one derived value per
  * conversation for the prefix of the history seen so far. */
module PrefixCache {
  import opened Basics

  datatype Message = Message(id: string, role: string, content: string)

  function Digits(n: nat): string {
    (if n < 10 then "" else Digits(n / 10)) + [("0123456789")[n % 10]]
  }

  function SourceId(m: Message, index: nat): string {
    if m.id != "" then m.id else "history:" + Digits(index)
  }

  function CacheKey(h: seq<Message>): string { if h == [] then "" else h[0].id }

  /** The whole test a cached entry is put to: the message at its boundary has the recorded id. */
  predicate PrefixValid(processed: nat, last: string, h: seq<Message>) {
    0 < processed <= |h| && SourceId(h[processed - 1], processed - 1) == last
  }

  /** What that test relies on. Two histories of one conversation that carry the same message id at
    * some place agree up to that place: histories only grow at the end, and ids are not reused. */
  ghost predicate Coherent(a: seq<Message>, b: seq<Message>) {
    CacheKey(a) == CacheKey(b) ==>
      forall p :: 0 < p <= |a| && p <= |b| && SourceId(a[p - 1], p - 1) == SourceId(b[p - 1], p - 1) ==> a[..p] == b[..p]
  }

  /** Two histories that a cached entry cannot be told apart by: as long, under the same key, with the
    * same id at the end. */
  ghost predicate SameBoundary(a: seq<Message>, b: seq<Message>) {
    |a| == |b| && CacheKey(a) == CacheKey(b) && (a != [] ==> SourceId(a[|a| - 1], |a| - 1) == SourceId(b[|b| - 1], |b| - 1))
  }

  /** What a value cached for `was` is right for after the messages of `h` beyond `was` were added: the
    * old messages below the boundary, and the new ones above it. */
  function Spliced(was: seq<Message>, h: seq<Message>): seq<Message>
    requires |was| <= |h|
  {
    was + h[|was|..]
  }

  lemma SplicedBoundary(was: seq<Message>, h: seq<Message>)
    requires was != [] && CacheKey(was) == CacheKey(h) && PrefixValid(|was|, SourceId(was[|was| - 1], |was| - 1), h)
    ensures SameBoundary(Spliced(was, h), h)
  {
  }

  /** Of coherent histories the splice is the new one. */
  lemma CoherentSplice(was: seq<Message>, h: seq<Message>)
    requires was != [] && CacheKey(was) == CacheKey(h) && Coherent(was, h) && PrefixValid(|was|, SourceId(was[|was| - 1], |was| - 1), h)
    ensures was <= h && Spliced(was, h) == h
  {
    assert was[..|was|] == was;
  }

  datatype Entry<+V> = Entry(processed: nat, last: string, value: V)

  /** What was recorded of a history passes for every continuation of it. */
  lemma ContinuationPasses(h: seq<Message>, more: seq<Message>)
    requires h != []
    ensures PrefixValid(|h|, SourceId(h[|h| - 1], |h| - 1), h + more) && CacheKey(h + more) == CacheKey(h)
  {
    assert (h + more)[|h| - 1] == h[|h| - 1] && (h + more)[0] == h[0];
  }

  function IndexOf(s: seq<string>, k: string): (i: nat)
    requires k in s
    ensures i < |s| && s[i] == k
  {
    if s[0] == k then 0 else 1 + IndexOf(s[1..], k)
  }

  predicate NoDuplicates(s: seq<string>) { forall i, j :: 0 <= i < j < |s| ==> s[i] != s[j] }

  /** `s` without the first `k`, in the same order. */
  function Without(s: seq<string>, k: string): (r: seq<string>)
    requires NoDuplicates(s)
    ensures NoDuplicates(r) && k !in r && forall x :: x in r <==> x in s && x != k
    ensures |r| == |s| - (if k in s then 1 else 0)
  {
    if k in s then
      var i := IndexOf(s, k);
      var r := s[..i] + s[i + 1..];
      assert forall j :: 0 <= j < |r| ==> r[j] == s[if j < i then j else j + 1];
      assert forall j :: 0 <= j < |s| && j != i ==> s[j] == r[if j < i then j else j - 1];
      r
    else s
  }

  lemma MovedToEnd(s: seq<string>, k: string)
    requires NoDuplicates(s)
    ensures NoDuplicates(Without(s, k) + [k]) && forall x :: x in Without(s, k) + [k] <==> x in s || x == k
  {
    hide Without;
  }

  /** The last `limit` keys. */
  function Newest(s: seq<string>, limit: nat): seq<string> { if |s| <= limit then s else s[|s| - limit..] }

  lemma NewestStays(s: seq<string>, limit: nat)
    ensures |s| <= limit ==> Newest(s, limit) == s
  {
  }

  lemma NewestEnds(s: seq<string>, limit: nat)
    requires s != [] && limit >= 1
    ensures var r := Newest(s, limit); r != [] && r[|r| - 1] == s[|s| - 1]
  {
  }

  lemma NewestOfRest(s: seq<string>, limit: nat)
    requires |s| > limit
    ensures Newest(s[1..], limit) == Newest(s, limit)
  {
  }

  /** Python's `OrderedDict` with a bound: `order` runs from the least to the most recently used key. */
  class Cache<V(0)> {
    var entries: map<string, Entry<V>>
    var order: seq<string>
    const limit: nat
    /** The history each entry was stored for. */
    ghost var built: map<string, seq<Message>>

    ghost predicate EntryFits(k: string)
      requires k in entries && k in built
      reads this
    {
      && k != "" && built[k] != [] && CacheKey(built[k]) == k
      && entries[k].processed == |built[k]|
      && entries[k].last == SourceId(built[k][|built[k]| - 1], |built[k]| - 1)
    }

    /** Everything but the bound. */
    ghost predicate Sound()
      reads this
    {
      && NoDuplicates(order)
      && (forall k :: k in order <==> k in entries)
      && built.Keys == entries.Keys
      && (forall k {:trigger EntryFits(k)} :: k in entries ==> EntryFits(k))
    }

    ghost predicate Valid()
      reads this
    {
      Sound() && limit >= 1 && |order| <= limit
    }

    /** The history that an answer over the entry for `h` is an answer for: `h` itself if there is no valid
      * entry, and otherwise the one with the messages below the boundary that the entry was made from. */
    ghost function Effective(h: seq<Message>): seq<Message>
      requires Valid()
      reads this
    {
      var key := CacheKey(h);
      if key in entries && PrefixValid(entries[key].processed, entries[key].last, h)
      then assert EntryFits(key); Spliced(built[key], h)
      else h
    }

    lemma EffectiveFits(h: seq<Message>)
      requires Valid() && CacheKey(h) != ""
      ensures SameBoundary(Effective(h), h)
    {
      var key := CacheKey(h);
      if key in entries && PrefixValid(entries[key].processed, entries[key].last, h) {
        assert EntryFits(key);
        SplicedBoundary(built[key], h);
      }
    }

    /** For coherent histories it is the history asked about. */
    lemma CoherentEffective(h: seq<Message>)
      requires Valid() && (CacheKey(h) in built ==> Coherent(built[CacheKey(h)], h))
      ensures Effective(h) == h
    {
      var key := CacheKey(h);
      if key in entries && PrefixValid(entries[key].processed, entries[key].last, h) {
        assert EntryFits(key);
        CoherentSplice(built[key], h);
      }
    }

    constructor (cacheLimit: int)
      ensures Valid() && entries == map[] && limit == Max(8, cacheLimit)
    {
      entries, order, built := map[], [], map[];
      limit := Max(8, cacheLimit);
    }

    /** The entry for this history, now the most recently used; one that fails the test is dropped. */
    method Lookup(h: seq<Message>) returns (hit: Option<Entry<V>>)
      requires Valid() && CacheKey(h) != ""
      modifies this
      ensures Valid()
      ensures hit.Some? <==>
                (CacheKey(h) in old(entries) && PrefixValid(old(entries)[CacheKey(h)].processed, old(entries)[CacheKey(h)].last, h))
      ensures hit.Some? ==> hit.value == old(entries)[CacheKey(h)] && entries == old(entries) && built == old(built)
      ensures hit.None? ==> entries == old(entries) - {CacheKey(h)} && built == old(built) - {CacheKey(h)}
      ensures order == Without(old(order), CacheKey(h)) + (if hit.Some? then [CacheKey(h)] else [])
    {
      var key := CacheKey(h);
      if key in entries && PrefixValid(entries[key].processed, entries[key].last, h) {
        order := Without(order, key) + [key];
        forall k | k in entries ensures EntryFits(k) { assert old(EntryFits(k)); }
        return Some(entries[key]);
      }
      entries, order, built := entries - {key}, Without(order, key), built - {key};
      forall k | k in entries ensures EntryFits(k) { assert old(EntryFits(k)); }
      return None;
    }

    /** `_trim_cache`: drop the least recently used keys, and no more of them than the bound demands. */
    method Trim()
      requires Sound() && limit >= 1
      modifies this
      ensures Valid() && order == Newest(old(order), limit)
      ensures forall k :: k in entries ==> k in old(entries) && entries[k] == old(entries)[k] && built[k] == old(built)[k]
    {
      NewestStays(order, limit);
      while |order| > limit
        invariant Sound() && Newest(order, limit) == Newest(old(order), limit)
        invariant forall k :: k in entries ==> k in old(entries) && entries[k] == old(entries)[k] && built[k] == old(built)[k]
        decreases |order|
      {
        NewestOfRest(order, limit);
        DropOldest();
      }
    }

    method DropOldest()
      requires Sound() && order != []
      modifies this
      ensures Sound() && order == old(order)[1..]
      ensures forall k :: k in entries ==> k in old(entries) && entries[k] == old(entries)[k] && built[k] == old(built)[k]
    {
      var oldest := order[0];
      assert forall k :: k in order[1..] <==> k in order && k != oldest;
      entries, order, built := entries - {oldest}, order[1..], built - {oldest};
      forall k | k in entries ensures EntryFits(k) { assert old(EntryFits(k)); }
    }

    /** Remember `value` for the whole of `h`, as the most recently used entry, within the bound.
      * `effective` is the history the value is right for; the boundary test cannot tell it from `h`. */
    method Store(h: seq<Message>, value: V, ghost effective: seq<Message>)
      requires Valid() && CacheKey(h) != "" && SameBoundary(effective, h)
      modifies this
      ensures Valid() && order == Newest(Without(old(order), CacheKey(h)) + [CacheKey(h)], limit)
      ensures CacheKey(h) in entries && entries[CacheKey(h)] == Entry(|h|, SourceId(h[|h| - 1], |h| - 1), value)
      ensures built[CacheKey(h)] == effective
      ensures forall k :: k in entries && k != CacheKey(h) ==> k in old(entries) && entries[k] == old(entries)[k] && built[k] == old(built)[k]
    {
      hide Without, SourceId, Newest, NoDuplicates;
      Put(h, value, effective);
      NewestEnds(order, limit);
      Trim();
      assert order[|order| - 1] in order;
    }

    /** The entry itself, as the most recently used one. */
    method Put(h: seq<Message>, value: V, ghost effective: seq<Message>)
      requires Valid() && CacheKey(h) != "" && SameBoundary(effective, h)
      modifies this
      ensures Sound() && order == Without(old(order), CacheKey(h)) + [CacheKey(h)]
      ensures entries == old(entries)[CacheKey(h) := Entry(|h|, SourceId(h[|h| - 1], |h| - 1), value)]
      ensures built == old(built)[CacheKey(h) := effective]
    {
      hide SourceId, Without, NoDuplicates, IndexOf;
      var key := CacheKey(h);
      MovedToEnd(order, key);
      entries := entries[key := Entry(|h|, SourceId(h[|h| - 1], |h| - 1), value)];
      built := built[key := effective];
      order := Without(order, key) + [key];
      forall k | k in entries ensures EntryFits(k) {
        if k != key { assert old(EntryFits(k)); }
      }
    }
  }
}

/** The persistent store of derived vectors: vectors, the units that locate them in a source, completion
  * markers, and build leases that several workers compete for. */
module VectorStore {
  import opened Basics

  datatype Key = Key(cacheKey: string, backend: string)

  datatype Vector = Vector(fingerprint: string, data: seq<real>, updatedAt: real)

  datatype Unit = Unit(sourceKey: string, sourceFingerprint: string, modality: string, start: Option<real>, end: Option<real>,
                       charStart: Option<int>, charEnd: Option<int>, excerpt: string)

  datatype Lease = Lease(owner: string, expires: real)

  datatype Hit = Hit(key: Key, unit: Unit, vector: Vector)

  /* ---- Build leases ---- */

  datatype Op =
    | Claim(key: Key, owner: string, seconds: real, now: real)
    | Refresh(key: Key, owner: string, seconds: real, now: real)
    | Release(key: Key, owner: string, now: real)
    | Prune(now: real)

  function Expiry(now: real, seconds: real): real { now + MaxReal(0.05, seconds) }

  /** Whether a claim or a refresh succeeds. */
  predicate Granted(leases: map<Key, Lease>, op: Op) {
    match op
    case Claim(key, owner, _, now) => !(key in leases && leases[key].expires > now && leases[key].owner != owner)
    case Refresh(key, owner, _, _) => key in leases && leases[key].owner == owner
    case _ => false
  }

  function Live(leases: map<Key, Lease>, now: real): map<Key, Lease> {
    map k | k in leases && leases[k].expires > now :: leases[k]
  }

  function Step(leases: map<Key, Lease>, op: Op): map<Key, Lease> {
    match op
    case Claim(key, owner, seconds, now) => if Granted(leases, op) then leases[key := Lease(owner, Expiry(now, seconds))] else leases
    case Refresh(key, owner, seconds, now) => if Granted(leases, op) then leases[key := Lease(owner, Expiry(now, seconds))] else leases
    case Release(key, owner, _) => if key in leases && leases[key].owner == owner then leases - {key} else leases
    case Prune(now) => Live(leases, now)
  }

  function Run(start: map<Key, Lease>, ops: seq<Op>): map<Key, Lease> {
    if ops == [] then start else Step(Run(start, ops[..|ops| - 1]), ops[|ops| - 1])
  }

  predicate ClockRuns(ops: seq<Op>) { forall i, j :: 0 <= i < j < |ops| ==> ops[i].now <= ops[j].now }

  /** Step `i` grants `key` to `owner`, as a claim or as a refresh. */
  predicate GrantTo(start: map<Key, Lease>, ops: seq<Op>, i: nat, key: Key, owner: string)
    requires i < |ops|
  {
    && (ops[i].Claim? || ops[i].Refresh?) && ops[i].key == key && ops[i].owner == owner
    && Granted(Run(start, ops[..i]), ops[i])
  }

  predicate ReleaseBy(op: Op, key: Key, owner: string) { op.Release? && op.key == key && op.owner == owner }

  /** Between the two steps `owner` is neither granted the key again nor releases it. */
  predicate Quiet(start: map<Key, Lease>, ops: seq<Op>, i: nat, j: nat, key: Key, owner: string)
    requires j <= |ops|
  {
    forall m :: i < m < j ==> !GrantTo(start, ops, m, key, owner) && !ReleaseBy(ops[m], key, owner)
  }

  predicate TimeCame(ops: seq<Op>, i: nat, j: nat, t: real)
    requires j <= |ops|
  {
    exists m :: i < m < j && ops[m].now >= t
  }

  /** What one step does to a lease that its owner leaves alone: it stays, or its time has come. */
  lemma LeaseAfterStep(leases: map<Key, Lease>, op: Op, key: Key)
    requires key in leases && !ReleaseBy(op, key, leases[key].owner)
    requires !((op.Claim? || op.Refresh?) && op.key == key && op.owner == leases[key].owner && Granted(leases, op))
    ensures (key in Step(leases, op) && Step(leases, op)[key] == leases[key]) || leases[key].expires <= op.now
  {
  }

  lemma {:induction false} LeaseOrTime(start: map<Key, Lease>, ops: seq<Op>, i: nat, j: nat, key: Key, owner: string)
    requires i < j <= |ops| && GrantTo(start, ops, i, key, owner) && Quiet(start, ops, i, j, key, owner)
    ensures var l := Run(start, ops[..j]); var expiry := Expiry(ops[i].now, ops[i].seconds);
            (key in l && l[key] == Lease(owner, expiry)) || TimeCame(ops, i, j, expiry)
    decreases j
  {
    var expiry := Expiry(ops[i].now, ops[i].seconds);
    assert ops[..j][..j - 1] == ops[..j - 1];
    if i < j - 1 {
      LeaseOrTime(start, ops, i, j - 1, key, owner);
      var l := Run(start, ops[..j - 1]);
      assert !GrantTo(start, ops, j - 1, key, owner);
      if TimeCame(ops, i, j - 1, expiry) {
        var m :| i < m < j - 1 && ops[m].now >= expiry;
      } else {
        LeaseAfterStep(l, ops[j - 1], key);
      }
    }
  }

  /** Another owner's claim succeeds only after the last lease granted to the first one has run out, or
    * after its release. */
  lemma ClaimsDoNotOverlap(start: map<Key, Lease>, ops: seq<Op>, i: nat, j: nat, key: Key, a: string, b: string)
    requires ClockRuns(ops) && i < j < |ops| && a != b
    requires GrantTo(start, ops, i, key, a) && Quiet(start, ops, i, j, key, a)
    requires ops[j].Claim? && GrantTo(start, ops, j, key, b)
    ensures ops[j].now >= Expiry(ops[i].now, ops[i].seconds)
  {
    hide Run;
    LeaseOrTime(start, ops, i, j, key, a);
  }

  /** The operation neither grants nor gives up a lease of the key. */
  predicate Leaves(start: map<Key, Lease>, ops: seq<Op>, m: nat, key: Key)
    requires m < |ops|
  {
    (ops[m].Claim? || ops[m].Refresh? || ops[m].Release?) && ops[m].key == key ==>
      !Granted(Run(start, ops[..m]), ops[m]) && !(ops[m].Release? && key in Run(start, ops[..m]) && Run(start, ops[..m])[key].owner == ops[m].owner)
  }

  lemma {:induction false} LeaseStands(start: map<Key, Lease>, ops: seq<Op>, i: nat, j: nat, key: Key, owner: string)
    requires i < j <= |ops| && GrantTo(start, ops, i, key, owner) && forall m :: i < m < j ==> Leaves(start, ops, m, key)
    ensures var l := Run(start, ops[..j]); var expiry := Expiry(ops[i].now, ops[i].seconds);
            if key in l then l[key] == Lease(owner, expiry) else TimeCame(ops, i, j, expiry)
    decreases j
  {
    var expiry := Expiry(ops[i].now, ops[i].seconds);
    assert ops[..j][..j - 1] == ops[..j - 1];
    if i < j - 1 {
      LeaseStands(start, ops, i, j - 1, key, owner);
      assert Leaves(start, ops, j - 1, key);
      if TimeCame(ops, i, j - 1, expiry) {
        var m :| i < m < j - 1 && ops[m].now >= expiry;
      }
    }
  }

  /** While nobody is granted the key and its owner does not give it up, another owner's claim succeeds from the end of
    * the lease on, which is at least a twentieth of a second, and not earlier. */
  lemma LeaseRunsOutIff(start: map<Key, Lease>, ops: seq<Op>, i: nat, j: nat, key: Key, a: string, b: string)
    requires ClockRuns(ops) && i < j < |ops| && a != b && GrantTo(start, ops, i, key, a)
    requires ops[j].Claim? && ops[j].key == key && ops[j].owner == b && forall m :: i < m < j ==> Leaves(start, ops, m, key)
    ensures GrantTo(start, ops, j, key, b) <==> ops[j].now >= ops[i].now + (if ops[i].seconds < 0.05 then 0.05 else ops[i].seconds)
  {
    hide Run, Leaves;
    LeaseStands(start, ops, i, j, key, a);
  }

  lemma {:induction false} LastGrant(start: map<Key, Lease>, ops: seq<Op>, i: nat, j: nat, key: Key, owner: string) returns (m: nat)
    requires i < j <= |ops| && GrantTo(start, ops, i, key, owner)
    requires forall k :: i < k < j ==> !ReleaseBy(ops[k], key, owner)
    ensures i <= m < j && GrantTo(start, ops, m, key, owner) && Quiet(start, ops, m, j, key, owner)
    decreases j
  {
    hide Run, Granted;
    if i == j - 1 || GrantTo(start, ops, j - 1, key, owner) {
      m := j - 1;
    } else {
      m := LastGrant(start, ops, i, j - 1, key, owner);
    }
  }

  /** In every run with a clock that does not go back, two successful claims of one key by different
    * owners are separated by a release of the first, or by the expiry of the last lease the first was
    * granted or refreshed. */
  lemma ClaimsAreSeparated(start: map<Key, Lease>, ops: seq<Op>, i: nat, j: nat, key: Key, a: string, b: string)
    requires ClockRuns(ops) && i < j < |ops| && a != b
    requires ops[i].Claim? && GrantTo(start, ops, i, key, a)
    requires ops[j].Claim? && GrantTo(start, ops, j, key, b)
    ensures || (exists k :: i < k < j && ReleaseBy(ops[k], key, a))
            || (exists m :: i <= m < j && GrantTo(start, ops, m, key, a) && Quiet(start, ops, m, j, key, a)
                            && ops[j].now >= Expiry(ops[m].now, ops[m].seconds))
  {
    hide Run, Granted;
    if forall k :: i < k < j ==> !ReleaseBy(ops[k], key, a) {
      var m := LastGrant(start, ops, i, j, key, a);
      ClaimsDoNotOverlap(start, ops, m, j, key, a, b);
    }
  }

  /** A worker that lost its lease learns of it: once another owner's claim succeeded, its refresh fails
    * until it claims again. */
  lemma {:induction false} RefreshFailsAfterLoss(start: map<Key, Lease>, ops: seq<Op>, i: nat, j: nat, key: Key, a: string, b: string)
    requires i < j < |ops| && a != b && GrantTo(start, ops, i, key, b)
    requires forall m :: i < m < j ==> !(ops[m].Claim? && GrantTo(start, ops, m, key, a))
    requires ops[j].Refresh? && ops[j].key == key && ops[j].owner == a
    ensures !Granted(Run(start, ops[..j]), ops[j])
  {
    NotHeld(start, ops, i, j, key, a, b);
  }

  lemma {:induction false} NotHeld(start: map<Key, Lease>, ops: seq<Op>, i: nat, j: nat, key: Key, a: string, b: string)
    requires i < j <= |ops| && a != b && GrantTo(start, ops, i, key, b)
    requires forall m :: i < m < j ==> !(ops[m].Claim? && GrantTo(start, ops, m, key, a))
    ensures var l := Run(start, ops[..j]); key in l ==> l[key].owner != a
    decreases j
  {
    assert ops[..j][..j - 1] == ops[..j - 1];
    if i < j - 1 {
      NotHeld(start, ops, i, j - 1, key, a, b);
      assert !(ops[j - 1].Claim? && GrantTo(start, ops, j - 1, key, a));
      NotTaken(Run(start, ops[..j - 1]), ops[j - 1], key, a);
    }
  }

  lemma NotTaken(leases: map<Key, Lease>, op: Op, key: Key, a: string)
    requires key in leases ==> leases[key].owner != a
    requires !(op.Claim? && op.key == key && op.owner == a && Granted(leases, op))
    ensures key in Step(leases, op) ==> Step(leases, op)[key].owner != a
  {
  }

  /** Pruning removes exactly the leases that have run out. */
  lemma PruneKeepsLiveLeases(leases: map<Key, Lease>, now: real, key: Key)
    ensures key in Step(leases, Prune(now)) <==> key in leases && leases[key].expires > now
    ensures key in Step(leases, Prune(now)) ==> Step(leases, Prune(now))[key] == leases[key]
  {
  }

  /* ---- The store ---- */

  function Place(u: Unit): (int, real) {
    (if u.charStart.Some? then u.charStart.value else 0, if u.start.Some? then u.start.value else 0.0)
  }

  predicate NoLater(p: (int, real), q: (int, real)) { p.0 < q.0 || (p.0 == q.0 && p.1 <= q.1) }

  lemma {:induction false} OldestExists(vectors: map<Key, Vector>, ks: set<Key>)
    requires ks != {} && ks <= vectors.Keys
    ensures exists k :: k in ks && forall j :: j in ks ==> vectors[k].updatedAt <= vectors[j].updatedAt
    decreases |ks|
  {
    var k :| k in ks;
    var rest := ks - {k};
    if rest != {} {
      OldestExists(vectors, rest);
      var m :| m in rest && forall j :: j in rest ==> vectors[m].updatedAt <= vectors[j].updatedAt;
      var least := if vectors[k].updatedAt <= vectors[m].updatedAt then k else m;
      assert forall j :: j in ks ==> j == k || j in rest;
      assert forall j :: j in ks ==> vectors[least].updatedAt <= vectors[j].updatedAt;
    } else {
      assert ks == {k};
    }
  }

  lemma {:induction false} FirstExists(units: map<Key, Unit>, ks: set<Key>)
    requires ks != {} && ks <= units.Keys
    ensures exists k :: k in ks && forall j :: j in ks ==> NoLater(Place(units[k]), Place(units[j]))
    decreases |ks|
  {
    hide Place;
    var k :| k in ks;
    var rest := ks - {k};
    if rest != {} {
      FirstExists(units, rest);
      var m :| m in rest && forall j :: j in rest ==> NoLater(Place(units[m]), Place(units[j]));
      var least := if NoLater(Place(units[k]), Place(units[m])) then k else m;
      assert forall j :: j in ks ==> j == k || j in rest;
      assert forall j :: j in ks ==> NoLater(Place(units[least]), Place(units[j]));
    } else {
      assert ks == {k};
    }
  }

  function KeysOf(rows: seq<Hit>): set<Key> { set row | row in rows :: row.key }

  lemma OneMoreKey(rows: seq<Hit>, row: Hit)
    ensures KeysOf(rows + [row]) == KeysOf(rows) + {row.key}
    ensures row.key !in KeysOf(rows) ==> forall i :: 0 <= i < |rows| ==> rows[i].key != row.key
  {
    assert forall r :: r in rows + [row] <==> r in rows || r == row;
  }

  predicate Matches(row: Hit, units: map<Key, Unit>, vectors: map<Key, Vector>) {
    row.key in units && row.key in vectors && row.unit == units[row.key] && row.vector == vectors[row.key]
  }

  predicate Ascending(rows: seq<Hit>) {
    forall i, j :: 0 <= i < j < |rows| ==> NoLater(Place(rows[i].unit), Place(rows[j].unit))
  }

  /** `rows` are the units named by `ks`, each once, in order. */
  predicate Listed(rows: seq<Hit>, ks: set<Key>, units: map<Key, Unit>, vectors: map<Key, Vector>) {
    && |rows| == |ks| && KeysOf(rows) == ks && Ascending(rows)
    && forall row :: row in rows ==> Matches(row, units, vectors)
  }

  predicate AllBefore(rows: seq<Hit>, rest: set<Key>, units: map<Key, Unit>) {
    forall row, k :: row in rows && k in rest && k in units ==> NoLater(Place(row.unit), Place(units[k]))
  }

  lemma OneMoreRow(rows: seq<Hit>, row: Hit, done: set<Key>, rest: set<Key>, units: map<Key, Unit>, vectors: map<Key, Vector>)
    requires Listed(rows, done, units, vectors) && row.key !in done && AllBefore(rows, rest, units) && row.key in rest
    requires Matches(row, units, vectors)
    requires forall k :: k in rest && k in units ==> NoLater(Place(row.unit), Place(units[k]))
    ensures Listed(rows + [row], done + {row.key}, units, vectors) && AllBefore(rows + [row], rest - {row.key}, units)
  {
    hide Place, NoLater, KeysOf;
    OneMoreKey(rows, row);
    forall r | r in rows ensures NoLater(Place(r.unit), Place(row.unit)) {}
  }

  /** Take the first of the remaining ones until none remains. */
  method InOrder(ks: set<Key>, units: map<Key, Unit>, vectors: map<Key, Vector>) returns (rows: seq<Hit>)
    requires ks <= units.Keys && ks <= vectors.Keys
    ensures Listed(rows, ks, units, vectors)
  {
    hide Place, NoLater, KeysOf, Ascending;
    NothingListed(units, vectors, ks);
    rows := [];
    var done: set<Key>, rest := {}, ks;
    while rest != {}
      invariant done !! rest && done + rest == ks
      invariant Listed(rows, done, units, vectors) && AllBefore(rows, rest, units)
      decreases rest
    {
      FirstExists(units, rest);
      var k :| k in rest && forall j :: j in rest ==> NoLater(Place(units[k]), Place(units[j]));
      OneMoreRow(rows, Hit(k, units[k], vectors[k]), done, rest, units, vectors);
      rows := rows + [Hit(k, units[k], vectors[k])];
      done, rest := done + {k}, rest - {k};
    }
    assert done == ks;
  }

  lemma NothingListed(units: map<Key, Unit>, vectors: map<Key, Vector>, ks: set<Key>)
    ensures Listed([], {}, units, vectors) && AllBefore([], ks, units)
  {
  }

  function Found(vectors: map<Key, Vector>, key: Key, fingerprint: string): Option<seq<real>> {
    if key in vectors && vectors[key].fingerprint == fingerprint then Some(vectors[key].data) else None
  }

  /** What was stored is found again under the fingerprint it was stored with, and under no other; the vectors
    * of other keys are found as before. */
  lemma PutThenGet(vectors: map<Key, Vector>, key: Key, fingerprint: string, data: seq<real>, now: real)
    ensures var after := vectors[key := Vector(fingerprint, data, now)];
            && Found(after, key, fingerprint) == Some(data)
            && (forall f :: f != fingerprint ==> Found(after, key, f) == None)
            && (forall k, f :: k != key ==> Found(after, k, f) == Found(vectors, k, f))
  {
  }

  predicate OfSource(u: Unit, sourceKey: string, sourceFingerprint: string, modality: string) {
    u.sourceKey == sourceKey && u.sourceFingerprint == sourceFingerprint && u.modality == modality
  }

  class Store {
    var vectors: map<Key, Vector>
    var units: map<Key, Unit>
    var meta: map<string, string>
    var leases: map<Key, Lease>

    constructor ()
      ensures vectors == map[] && units == map[] && meta == map[] && leases == map[]
    {
      vectors, units, meta, leases := map[], map[], map[], map[];
    }

    /** Claim derived-index work, unless somebody else holds a live lease on it. */
    method TryClaimBuild(key: Key, owner: string, seconds: real, now: real) returns (ok: bool)
      modifies this`leases
      ensures ok == Granted(old(leases), Claim(key, owner, seconds, now))
      ensures leases == Step(old(leases), Claim(key, owner, seconds, now))
    {
      var expires := now + MaxReal(0.05, seconds);
      if key in leases && leases[key].expires > now && leases[key].owner != owner {
        return false;
      }
      leases := leases[key := Lease(owner, expires)];
      return true;
    }

    method RefreshBuildLease(key: Key, owner: string, seconds: real, now: real) returns (ok: bool)
      modifies this`leases
      ensures ok == Granted(old(leases), Refresh(key, owner, seconds, now))
      ensures leases == Step(old(leases), Refresh(key, owner, seconds, now))
    {
      ok := key in leases && leases[key].owner == owner;
      if ok {
        leases := leases[key := Lease(owner, now + MaxReal(0.05, seconds))];
      }
    }

    method ReleaseBuild(key: Key, owner: string, now: real)
      modifies this`leases
      ensures leases == Step(old(leases), Release(key, owner, now))
    {
      if key in leases && leases[key].owner == owner {
        leases := leases - {key};
      }
    }

    /** Keep the newest vectors; drop the units left without a vector, and the leases that have run out. */
    method PruneRows(maxRows: int, now: real) returns (excess: nat)
      modifies this`vectors, this`units, this`leases
      ensures excess == Max(0, |old(vectors)| - Max(0, maxRows))
      ensures |vectors| == |old(vectors)| - excess
      ensures forall k :: k in vectors ==> k in old(vectors) && vectors[k] == old(vectors)[k]
      ensures forall k, j :: k in vectors && j in old(vectors) && j !in vectors ==> old(vectors)[j].updatedAt <= vectors[k].updatedAt
      ensures excess == 0 ==> units == old(units)
      ensures excess > 0 ==> units == map k | k in old(units) && k in vectors :: old(units)[k]
      ensures leases == Step(old(leases), Prune(now))
    {
      excess := Max(0, |vectors| - Max(0, maxRows));
      if excess > 0 {
        var left := excess;
        while left > 0
          invariant units == old(units) && leases == old(leases)
          invariant 0 <= left <= excess && |vectors| == |old(vectors)| - (excess - left)
          invariant forall k :: k in vectors ==> k in old(vectors) && vectors[k] == old(vectors)[k]
          invariant forall k, j :: k in vectors && j in old(vectors) && j !in vectors ==> old(vectors)[j].updatedAt <= vectors[k].updatedAt
        {
          OldestExists(vectors, vectors.Keys);
          var oldest :| oldest in vectors && forall j :: j in vectors ==> vectors[oldest].updatedAt <= vectors[j].updatedAt;
          assert (vectors - {oldest}).Keys == vectors.Keys - {oldest};
          vectors := vectors - {oldest};
          left := left - 1;
        }
        units := map k | k in units && k in vectors :: units[k];
      }
      leases := Live(leases, now);
    }

    /** A vector without components is not stored. */
    method Put(key: Key, fingerprint: string, data: seq<real>, now: real)
      modifies this`vectors
      ensures vectors == if data == [] then old(vectors) else old(vectors)[key := Vector(fingerprint, data, now)]
      ensures data != [] ==> forall f :: Get(key, f) == if f == fingerprint then Some(data) else None
      ensures forall k, f :: k != key ==> Get(k, f) == old(Get(k, f))
    {
      if data != [] {
        vectors := vectors[key := Vector(fingerprint, data, now)];
      }
    }

    /** The stored vector, if it was computed from the same content. */
    function Get(key: Key, fingerprint: string): (data: Option<seq<real>>)
      reads this
      ensures data.Some? <==> key in vectors && vectors[key].fingerprint == fingerprint
    {
      Found(vectors, key, fingerprint)
    }

    /** The row moves its key to the source it names, and takes it away from any other. */
    method PutUnit(key: Key, unit: Unit)
      modifies this`units
      ensures units == old(units)[key := unit]
      ensures forall s, f, b, m :: Located(s, f, b, m) ==
                old(Located(s, f, b, m)) - {key} + (if key in vectors && key.backend == b && OfSource(unit, s, f, m) then {key} else {})
    {
      units := units[key := unit];
    }

    method SetMeta(metaKey: string, value: string)
      modifies this`meta
      ensures meta == old(meta)[metaKey := value]
    {
      meta := meta[metaKey := value];
    }

    /** The units of a source that have a vector. */
    function Located(sourceKey: string, sourceFingerprint: string, backend: string, modality: string): (ks: set<Key>)
      reads this
      ensures ks <= units.Keys && ks <= vectors.Keys
    {
      set k | k in units && k in vectors && k.backend == backend && OfSource(units[k], sourceKey, sourceFingerprint, modality)
    }

    /** Each of them once, with its unit and vector, in the order of their places in the source. */
    method ListSourceVectors(sourceKey: string, sourceFingerprint: string, backend: string, modality: string) returns (rows: seq<Hit>)
      ensures Listed(rows, Located(sourceKey, sourceFingerprint, backend, modality), units, vectors)
      ensures forall i, j :: 0 <= i < j < |rows| && rows[i].unit.charStart.Some? && rows[j].unit.charStart.Some? ==>
                rows[i].unit.charStart.value <= rows[j].unit.charStart.value
      ensures forall i, j :: 0 <= i < j < |rows| && rows[i].unit.charStart.None? && rows[j].unit.charStart.None? ==>
                rows[i].unit.start.Some? && rows[j].unit.start.Some? ==> rows[i].unit.start.value <= rows[j].unit.start.value
    {
      rows := InOrder(Located(sourceKey, sourceFingerprint, backend, modality), units, vectors);
    }
  }
}

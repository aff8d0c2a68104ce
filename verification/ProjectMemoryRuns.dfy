/** Runs of the project-memory protocol: any interleaving of the reads and the commits of any number
  * of approvals, rejections, direct writes and staging transactions, starting from empty tables.
  */
module ProjectMemoryRuns {
  import opened Basics
  import opened ProjectMemory

  /** A transaction that has read and has not committed yet. */
  datatype Txn = Approving(approval: Approval) | Rejecting(review: Review) | Writing(entry: Entry, seen: Option<Head>)

  datatype World = World(db: Db, open: map<nat, Txn>)

  datatype Action =
    | OpenApprove(tid: nat, review: Review)
    | OpenReject(tid: nat, review: Review)
    | OpenWrite(tid: nat, entry: Entry)
    | Commit(tid: nat, id: Id)
    | Abort(tid: nat)
    | StageAll(src: Source, existing: set<string>, cands: seq<Candidate>, ids: seq<Id>)

  function CommitTxn(db: Db, t: Txn, id: Id): Result<Db> {
    match t
    case Approving(a) => CommitApproval(db, a, id)
    case Rejecting(r) => Settle(db, r.proposal, Rejected, r.actor, None)
    case Writing(entry, seen) => CommitRevision(db, id, entry, seen)
  }

  function After(db: Db, r: Result<Db>): Db { if r.Ok? then r.value else db }

  function Apply(text: Text, w: World, a: Action): World {
    match a
    case OpenApprove(tid, review) =>
      var o := OpenApproval(text, w.db, review);
      if tid !in w.open && o.Proceed? then w.(open := w.open[tid := Approving(o.txn)]) else w
    case OpenReject(tid, review) =>
      var o := OpenRejection(w.db, review);
      if tid !in w.open && o.Proceed? then w.(open := w.open[tid := Rejecting(o.txn)]) else w
    case OpenWrite(tid, entry) =>
      if tid !in w.open && entry.origin == Authored then w.(open := w.open[tid := Writing(entry, HeadAt(w.db, entry.slot))]) else w
    case Commit(tid, id) =>
      if tid in w.open then World(After(w.db, CommitTxn(w.db, w.open[tid], id)), w.open - {tid}) else w
    case Abort(tid) => w.(open := w.open - {tid})
    case StageAll(src, existing, cands, ids) =>
      if |ids| == |cands| then w.(db := After(w.db, Stage(w.db, src, existing, cands, ids))) else w
  }

  function Run(text: Text, w: World, acts: seq<Action>): World
    decreases |acts|
  {
    if acts == [] then w else Run(text, Apply(text, w, acts[0]), acts[1..])
  }

  const START := World(EMPTY_DB, map[])

  /* ---- The invariant ---- */

  /** Every head names an item of its own chain, with the revision and the state the head repeats. */
  ghost predicate HeadsNameItems(db: Db) {
    forall s :: s in db.heads ==> HeadNames(db, s)
  }

  ghost predicate HeadNames(db: Db, s: Slot)
    requires s in db.heads
  {
    var h := db.heads[s];
    h.memory in db.items && db.items[h.memory].entry == db.items[h.memory].entry.(slot := s, state := h.state, workspace := h.workspace)
    && db.items[h.memory].revision == h.revision
  }

  ghost predicate ItemsUnderHeads(db: Db) {
    forall i {:trigger UnderHead(db, i)} :: i in db.items ==> UnderHead(db, i)
  }

  ghost predicate UnderHead(db: Db, i: Id)
    requires i in db.items
  {
    var item := db.items[i];
    item.entry.slot in db.heads && 1 <= item.revision <= db.heads[item.entry.slot].revision
  }

  ghost predicate RevisionsUnique(db: Db) {
    forall i, j {:trigger SameRevision(db, i, j)} :: i in db.items && j in db.items && SameRevision(db, i, j) ==> i == j
  }

  ghost predicate SameRevision(db: Db, i: Id, j: Id)
    requires i in db.items && j in db.items
  {
    db.items[i].entry.slot == db.items[j].entry.slot && db.items[i].revision == db.items[j].revision
  }

  /** Every item is linked to its predecessor. */
  ghost predicate ItemsLinked(db: Db) {
    forall i {:trigger Linked(db, i)} :: i in db.items ==> Linked(db, i)
  }

  ghost predicate Linked(db: Db, i: Id)
    requires i in db.items
  {
    var item := db.items[i];
    if item.revision == 1 then item.supersedes == None
    else
      && item.supersedes.Some?
      && item.supersedes.value in db.items
      && db.items[item.supersedes.value].entry.slot == item.entry.slot
      && db.items[item.supersedes.value].revision == item.revision - 1
  }

  ghost predicate Chained(db: Db) {
    HeadsNameItems(db) && ItemsUnderHeads(db) && RevisionsUnique(db) && ItemsLinked(db)
  }

  /** `entry` is the promotion of proposal `p`: its words, its kind, its project and its scope. */
  ghost predicate Promotes(text: Text, db: Db, p: Id, entry: Entry) {
    && p in db.proposals
    && entry.origin == FromProposal(p)
    && entry.content == Strip(db.proposals[p].content)
    && entry.kind == text.lower(Strip(db.proposals[p].kind))
    && entry.slot.project == db.proposals[p].project
    && entry.slot.scope == CleanScope(db.proposals[p].scope)
    && entry.state == Active
  }

  /** Approved proposals and proposal-born items are in one-to-one correspondence. */
  ghost predicate Owned(text: Text, db: Db) {
    && (forall p {:trigger Owns(text, db, p)} :: p in db.proposals ==> Owns(text, db, p))
    && (forall i {:trigger HasOwner(db, i)} :: i in db.items ==> HasOwner(db, i))
  }

  ghost predicate Owns(text: Text, db: Db, p: Id)
    requires p in db.proposals
  {
    match db.proposals[p].memory
    case None => db.proposals[p].status != Approved
    case Some(m) => db.proposals[p].status == Approved && m in db.items && Promotes(text, db, p, db.items[m].entry)
  }

  ghost predicate HasOwner(db: Db, i: Id)
    requires i in db.items
  {
    db.items[i].entry.origin.FromProposal? ==>
      var p := db.items[i].entry.origin.proposal;
      p in db.proposals && db.proposals[p].memory == Some(i)
  }

  ghost predicate SameSource(db: Db, p: Id, q: Id)
    requires p in db.proposals && q in db.proposals
  {
    && db.proposals[p].project == db.proposals[q].project
    && db.proposals[p].message == db.proposals[q].message
    && db.proposals[p].fingerprint == db.proposals[q].fingerprint
  }

  ghost predicate SourcesUnique(db: Db) {
    forall p, q {:trigger SameSource(db, p, q)} :: p in db.proposals && q in db.proposals && SameSource(db, p, q) ==> p == q
  }

  /** A head that was read is the current one or an older one. */
  ghost predicate HeadWasSeen(db: Db, slot: Slot, seen: Option<Head>) {
    seen.Some? ==>
      && slot in db.heads
      && 1 <= seen.value.revision <= db.heads[slot].revision
      && (seen.value.revision == db.heads[slot].revision ==> seen.value.memory == db.heads[slot].memory)
  }

  ghost predicate TxnSound(text: Text, db: Db, t: Txn) {
    match t
    case Approving(a) => Promotes(text, db, a.review.proposal, a.entry) && HeadWasSeen(db, a.entry.slot, a.seen)
    case Rejecting(r) => true
    case Writing(entry, seen) => entry.origin == Authored && HeadWasSeen(db, entry.slot, seen)
  }

  ghost predicate DbInv(text: Text, db: Db) {
    Chained(db) && Owned(text, db) && SourcesUnique(db)
  }

  ghost predicate Inv(text: Text, w: World) {
    DbInv(text, w.db) && forall tid :: tid in w.open ==> TxnSound(text, w.db, w.open[tid])
  }

  /* ---- What a step may change ---- */

  /** A settled row never changes again; a pending one changes only by being settled. */
  predicate SettlesTo(a: Proposal, b: Proposal) {
    b == a || (a.status == Pending && b.status != Pending && b == a.(status := b.status, reviewer := b.reviewer, memory := b.memory))
  }

  ghost predicate HeadMoves(a: Head, b: Head) { a == b || a.revision < b.revision }

  ghost predicate Later(a: Db, b: Db) {
    && (forall i :: i in a.items ==> i in b.items && b.items[i] == a.items[i])
    && (forall p :: p in a.proposals ==> p in b.proposals && SettlesTo(a.proposals[p], b.proposals[p]))
    && (forall s :: s in a.heads ==> s in b.heads && HeadMoves(a.heads[s], b.heads[s]))
  }

  /** Under the invariant a revision commits exactly when its id is new and the head it read is still
    * the head; and losing the race always shows as a unique violation, never as an update that
    * matched no row. */
  lemma RevisionCommitsIffHeadUnmoved(db: Db, id: Id, entry: Entry, seen: Option<Head>)
    requires Chained(db) && HeadWasSeen(db, entry.slot, seen)
    ensures CommitRevision(db, id, entry, seen).Ok? <==>
              id !in db.items
              && (if seen.None? then entry.slot !in db.heads
                  else db.heads[entry.slot].revision == seen.value.revision)
    ensures CommitRevision(db, id, entry, seen).Failed? ==> CommitRevision(db, id, entry, seen).fault == Integrity
  {
    var revision := NextItem(entry, seen).revision;
    if entry.slot in db.heads && revision <= db.heads[entry.slot].revision {
      assert HeadNames(db, entry.slot);
      RevisionPresent(db, db.heads[entry.slot].memory, revision);
    } else {
      forall i | i in db.items ensures !(db.items[i].entry.slot == entry.slot && db.items[i].revision == revision) {
        assert UnderHead(db, i);
      }
    }
  }

  /** Below a linked item every smaller revision of its chain is present. */
  lemma {:induction false} RevisionPresent(db: Db, i: Id, revision: int)
    requires Chained(db) && i in db.items && 1 <= revision <= db.items[i].revision
    ensures RevisionTaken(db, db.items[i].entry.slot, revision)
    decreases db.items[i].revision
  {
    assert Linked(db, i);
    if revision < db.items[i].revision {
      RevisionPresent(db, db.items[i].supersedes.value, revision);
    }
  }

  /** `db'` is `db` with one item appended to its chain. */
  ghost predicate Appended(db: Db, db': Db, id: Id, item: Item) {
    var slot := item.entry.slot;
    && id !in db.items
    && db'.items == db.items[id := item]
    && db'.heads == db.heads[slot := Head(item.entry.workspace, id, item.revision, item.entry.state)]
    && item.revision == (if slot in db.heads then db.heads[slot].revision + 1 else 1)
    && item.supersedes == (if slot in db.heads then Some(db.heads[slot].memory) else None)
  }

  lemma CommittedRevisionAppends(db: Db, id: Id, entry: Entry, seen: Option<Head>)
    requires CommitRevision(db, id, entry, seen).Ok?
    ensures var db' := CommitRevision(db, id, entry, seen).value;
            db'.proposals == db.proposals && Appended(db, db', id, NextItem(entry, seen))
  {
  }

  lemma AppendKeepsChains(db: Db, db': Db, id: Id, item: Item)
    requires Chained(db) && Appended(db, db', id, item)
    ensures Chained(db')
  {
    var slot := item.entry.slot;
    if slot in db.heads { assert HeadNames(db, slot) && UnderHead(db, db.heads[slot].memory); }
    forall s | s in db'.heads ensures HeadNames(db', s) {
      if s != slot { assert HeadNames(db, s); }
    }
    forall i | i in db'.items ensures UnderHead(db', i) {
      if i != id { assert UnderHead(db, i); }
    }
    forall i | i in db'.items ensures Linked(db', i) {
      if i != id { assert Linked(db, i); }
    }
    forall i, j | i in db'.items && j in db'.items && SameRevision(db', i, j) ensures i == j {
      if i != id { assert UnderHead(db, i); }
      if j != id { assert UnderHead(db, j); }
      if i != id && j != id { assert SameRevision(db, i, j); }
    }
  }

  /** Chains are about items and heads alone. */
  lemma ChainsIgnoreProposals(db: Db, db': Db)
    requires Chained(db) && db'.items == db.items && db'.heads == db.heads
    ensures Chained(db')
  {
    forall s | s in db'.heads ensures HeadNames(db', s) { assert HeadNames(db, s); }
    forall i | i in db'.items ensures UnderHead(db', i) && Linked(db', i) { assert UnderHead(db, i) && Linked(db, i); }
    forall i, j | i in db'.items && j in db'.items && SameRevision(db', i, j) ensures i == j { assert SameRevision(db, i, j); }
  }

  lemma ApprovalKeepsOwnership(text: Text, db: Db, t: Approval, id: Id)
    requires DbInv(text, db) && TxnSound(text, db, Approving(t))
    requires CommitApproval(db, t, id).Ok?
    ensures DbInv(text, CommitApproval(db, t, id).value)
    ensures Later(db, CommitApproval(db, t, id).value)
  {
    CommittedRevisionAppends(db, id, t.entry, t.seen);
    SettledAppendKeepsDb(text, db, CommitApproval(db, t, id).value, t.review, id, NextItem(t.entry, t.seen));
  }

  lemma SettledAppendKeepsDb(text: Text, db: Db, db': Db, r: Review, id: Id, item: Item)
    requires DbInv(text, db) && Appended(db, db', id, item) && Promotes(text, db, r.proposal, item.entry)
    requires db.proposals[r.proposal].status == Pending
    requires db'.proposals == db.proposals[r.proposal := db.proposals[r.proposal].(status := Approved, reviewer := Some(r.actor), memory := Some(id))]
    ensures DbInv(text, db') && Later(db, db')
  {
    AppendKeepsChains(db, db', id, item);
    assert Owns(text, db, r.proposal);
    forall p | p in db'.proposals ensures Owns(text, db', p) { assert Owns(text, db, p); }
    forall i | i in db'.items ensures HasOwner(db', i) {
      if i != id { assert HasOwner(db, i); }
    }
    SourcesStayUnique(db, db');
  }

  /** Settling rows leaves their sources alone. */
  lemma SourcesStayUnique(db: Db, db': Db)
    requires SourcesUnique(db) && db'.proposals.Keys == db.proposals.Keys
    requires forall p :: p in db.proposals ==> SettlesTo(db.proposals[p], db'.proposals[p])
    ensures SourcesUnique(db')
  {
    forall p, q | p in db'.proposals && q in db'.proposals && SameSource(db', p, q) ensures p == q { assert SameSource(db, p, q); }
  }

  lemma RejectionKeepsOwnership(text: Text, db: Db, r: Review)
    requires DbInv(text, db) && Settle(db, r.proposal, Rejected, r.actor, None).Ok?
    ensures DbInv(text, Settle(db, r.proposal, Rejected, r.actor, None).value)
    ensures Later(db, Settle(db, r.proposal, Rejected, r.actor, None).value)
  {
    var db' := Settle(db, r.proposal, Rejected, r.actor, None).value;
    ChainsIgnoreProposals(db, db');
    forall p | p in db'.proposals ensures Owns(text, db', p) { assert Owns(text, db, p); }
    forall i | i in db'.items ensures HasOwner(db', i) { assert HasOwner(db, i) && Owns(text, db, r.proposal); }
    SourcesStayUnique(db, db');
  }

  lemma AuthoringKeepsOwnership(text: Text, db: Db, id: Id, entry: Entry, seen: Option<Head>)
    requires DbInv(text, db) && entry.origin == Authored && CommitRevision(db, id, entry, seen).Ok?
    ensures DbInv(text, CommitRevision(db, id, entry, seen).value)
    ensures Later(db, CommitRevision(db, id, entry, seen).value)
  {
    CommittedRevisionAppends(db, id, entry, seen);
    var db' := CommitRevision(db, id, entry, seen).value;
    AppendKeepsChains(db, db', id, NextItem(entry, seen));
    forall p | p in db'.proposals ensures Owns(text, db', p) { assert Owns(text, db, p); }
    forall i | i in db'.items ensures HasOwner(db', i) {
      if i != id { assert HasOwner(db, i); }
    }
    SourcesStayUnique(db, db');
  }

  lemma CommitKeepsDb(text: Text, db: Db, t: Txn, id: Id)
    requires DbInv(text, db) && TxnSound(text, db, t) && CommitTxn(db, t, id).Ok?
    ensures DbInv(text, CommitTxn(db, t, id).value)
    ensures Later(db, CommitTxn(db, t, id).value)
  {
    match t {
      case Approving(a) => ApprovalKeepsOwnership(text, db, a, id);
      case Rejecting(r) => RejectionKeepsOwnership(text, db, r);
      case Writing(entry, seen) => AuthoringKeepsOwnership(text, db, id, entry, seen);
    }
  }

  lemma InsertKeepsDb(text: Text, db: Db, src: Source, c: Candidate, id: Id)
    requires DbInv(text, db) && id !in db.proposals && !SourceTaken(db, src.project, src.message, c.fingerprint)
    ensures var db' := db.(proposals := db.proposals[id := PendingRow(src, c)]);
            DbInv(text, db') && Later(db, db')
  {
    var db' := db.(proposals := db.proposals[id := PendingRow(src, c)]);
    ChainsIgnoreProposals(db, db');
    forall p | p in db'.proposals ensures Owns(text, db', p) {
      if p != id { assert Owns(text, db, p); }
    }
    forall i | i in db'.items ensures HasOwner(db', i) { assert HasOwner(db, i); }
    forall p, q | p in db'.proposals && q in db'.proposals && SameSource(db', p, q) ensures p == q {
      if p != id && q != id { assert SameSource(db, p, q); }
    }
  }

  /** Staging adds pending rows with new ids and new sources, and nothing else. */
  lemma {:induction false} StageOnlyAddsPending(text: Text, db: Db, src: Source, existing: set<string>, cands: seq<Candidate>, ids: seq<Id>)
    requires |ids| == |cands| && DbInv(text, db) && Stage(db, src, existing, cands, ids).Ok?
    ensures var db' := Stage(db, src, existing, cands, ids).value;
            && DbInv(text, db') && Later(db, db')
            && db'.items == db.items && db'.heads == db.heads
            && (forall p :: p in db.proposals ==> db'.proposals[p] == db.proposals[p])
            && (forall p :: p in db'.proposals && p !in db.proposals ==>
                  db'.proposals[p].status == Pending && db'.proposals[p].project == src.project && db'.proposals[p].message == src.message)
    decreases |cands|
  {
    if cands == [] {
    } else if cands[0].fingerprint in existing {
      StageOnlyAddsPending(text, db, src, existing, cands[1..], ids[1..]);
    } else {
      InsertKeepsDb(text, db, src, cands[0], ids[0]);
      var db1 := db.(proposals := db.proposals[ids[0] := PendingRow(src, cands[0])]);
      StageOnlyAddsPending(text, db1, src, existing, cands[1..], ids[1..]);
    }
  }

  lemma LaterKeepsTxns(text: Text, a: Db, b: Db, t: Txn)
    requires Later(a, b) && TxnSound(text, a, t)
    ensures TxnSound(text, b, t)
  {
  }

  lemma CurrentHeadWasSeen(db: Db, slot: Slot)
    requires Chained(db)
    ensures HeadWasSeen(db, slot, HeadAt(db, slot))
  {
    if slot in db.heads { assert HeadNames(db, slot) && UnderHead(db, db.heads[slot].memory); }
  }

  lemma LaterTransitive(a: Db, b: Db, c: Db)
    requires Later(a, b) && Later(b, c)
    ensures Later(a, c)
  {
  }

  lemma StepKeepsDb(text: Text, w: World, a: Action)
    requires Inv(text, w)
    ensures DbInv(text, Apply(text, w, a).db) && Later(w.db, Apply(text, w, a).db)
  {
    hide Chained, Owned, SourcesUnique, CommitTxn;
    match a {
      case Commit(tid, id) =>
        if tid in w.open && CommitTxn(w.db, w.open[tid], id).Ok? { CommitKeepsDb(text, w.db, w.open[tid], id); }
      case StageAll(src, existing, cands, ids) =>
        if |ids| == |cands| && Stage(w.db, src, existing, cands, ids).Ok? {
          StageOnlyAddsPending(text, w.db, src, existing, cands, ids);
        }
      case _ =>
    }
  }

  lemma StepKeepsInv(text: Text, w: World, a: Action)
    requires Inv(text, w)
    ensures Inv(text, Apply(text, w, a)) && Later(w.db, Apply(text, w, a).db)
  {
    hide Chained, Owned, SourcesUnique, CommitTxn, Stage, Later;
    var w' := Apply(text, w, a);
    StepKeepsDb(text, w, a);
    match a {
      case OpenApprove(tid, review) =>
        var o := OpenApproval(text, w.db, review);
        if o.Proceed? { CurrentHeadWasSeen(w.db, o.txn.entry.slot); }
      case OpenWrite(tid, entry) => CurrentHeadWasSeen(w.db, entry.slot);
      case _ =>
    }
    forall tid | tid in w'.open && tid in w.open ensures TxnSound(text, w'.db, w'.open[tid]) {
      LaterKeepsTxns(text, w.db, w'.db, w.open[tid]);
    }
  }

  /* ---- Theorems over whole runs ---- */

  lemma {:induction false} RunKeepsInv(text: Text, w: World, acts: seq<Action>)
    requires Inv(text, w)
    ensures Inv(text, Run(text, w, acts)) && Later(w.db, Run(text, w, acts).db)
    decreases |acts|
  {
    if acts != [] {
      var w1 := Apply(text, w, acts[0]);
      StepKeepsInv(text, w, acts[0]);
      RunKeepsInv(text, w1, acts[1..]);
      LaterTransitive(w.db, w1.db, Run(text, w, acts).db);
    }
  }

  /** The ids of a chain from revision 1 to the head, found by following `supersedes` from the head. */
  ghost function LineageTo(db: Db, i: Id, fuel: int): seq<Id>
    decreases fuel
  {
    if fuel <= 0 || i !in db.items then []
    else if db.items[i].supersedes.None? then [i]
    else LineageTo(db, db.items[i].supersedes.value, fuel - 1) + [i]
  }

  ghost function Lineage(db: Db, s: Slot): seq<Id> {
    if s in db.heads then LineageTo(db, db.heads[s].memory, db.heads[s].revision) else []
  }

  /** Place `k` of a lineage holds revision `k + 1` of the chain, superseding place `k - 1`. */
  ghost predicate InPlace(db: Db, l: seq<Id>, s: Slot, k: int)
    requires 0 <= k < |l|
  {
    && l[k] in db.items
    && db.items[l[k]].entry.slot == s
    && db.items[l[k]].revision == k + 1
    && db.items[l[k]].supersedes == (if k == 0 then None else Some(l[k - 1]))
  }

  lemma {:induction false} LineageOf(db: Db, i: Id)
    requires Chained(db) && i in db.items
    ensures var l := LineageTo(db, i, db.items[i].revision);
            && |l| == db.items[i].revision && l != [] && l[|l| - 1] == i
            && forall k :: 0 <= k < |l| ==> InPlace(db, l, db.items[i].entry.slot, k)
    decreases db.items[i].revision
  {
    assert Linked(db, i) && UnderHead(db, i);
    var l := LineageTo(db, i, db.items[i].revision);
    if db.items[i].revision > 1 {
      var prev := db.items[i].supersedes.value;
      LineageOf(db, prev);
      var m := LineageTo(db, prev, db.items[prev].revision);
      assert l == m + [i];
      forall k | 0 <= k < |l| ensures InPlace(db, l, db.items[i].entry.slot, k) {
        if k < |m| { assert InPlace(db, m, db.items[i].entry.slot, k); }
      }
    }
  }

  /** Each chain's items are exactly revisions 1..n, one each; the head names revision n, and every
    * item supersedes its predecessor. */
  ghost predicate ExactlyOneToN(db: Db, s: Slot) {
    var l := Lineage(db, s);
    && (s in db.heads <==> l != [])
    && (s in db.heads ==> |l| == db.heads[s].revision && l[|l| - 1] == db.heads[s].memory)
    && (forall k :: 0 <= k < |l| ==> InPlace(db, l, s, k))
    && (forall i :: i in db.items && db.items[i].entry.slot == s ==>
          1 <= db.items[i].revision <= |l| && i == l[db.items[i].revision - 1])
  }

  lemma ChainsAreExactlyOneToN(db: Db, s: Slot)
    requires Chained(db)
    ensures ExactlyOneToN(db, s)
  {
    var l := Lineage(db, s);
    if s in db.heads {
      assert HeadNames(db, s) && UnderHead(db, db.heads[s].memory);
      LineageOf(db, db.heads[s].memory);
    }
    forall i | i in db.items && db.items[i].entry.slot == s
      ensures 1 <= db.items[i].revision <= |l| && i == l[db.items[i].revision - 1]
    {
      assert UnderHead(db, i);
      var k := db.items[i].revision - 1;
      assert InPlace(db, l, s, k) && SameRevision(db, i, l[k]);
    }
  }

  lemma RevisionsAreExactlyOneToN(text: Text, acts: seq<Action>, s: Slot)
    ensures ExactlyOneToN(Run(text, START, acts).db, s)
  {
    RunKeepsInv(text, START, acts);
    ChainsAreExactlyOneToN(Run(text, START, acts).db, s);
  }

  lemma {:induction false} LineageGrows(a: Db, b: Db, i: Id)
    requires Chained(a) && Chained(b) && Later(a, b) && i in a.items
    ensures LineageTo(a, i, a.items[i].revision) == LineageTo(b, i, a.items[i].revision)
    decreases a.items[i].revision
  {
    assert Linked(a, i) && UnderHead(a, i);
    if a.items[i].revision > 1 { LineageGrows(a, b, a.items[i].supersedes.value); }
  }

  lemma {:induction false} LineageThrough(db: Db, i: Id, j: Id)
    requires Chained(db) && i in db.items && j in db.items
    requires db.items[i].entry.slot == db.items[j].entry.slot && db.items[i].revision <= db.items[j].revision
    ensures LineageTo(db, i, db.items[i].revision) <= LineageTo(db, j, db.items[j].revision)
    decreases db.items[j].revision
  {
    assert Linked(db, j) && UnderHead(db, i) && UnderHead(db, j);
    if db.items[i].revision < db.items[j].revision {
      LineageThrough(db, i, db.items[j].supersedes.value);
    } else {
      assert SameRevision(db, i, j);
    }
  }

  /** No update is lost: whatever runs next, a chain keeps its history as a prefix, with every row as
    * it was written. */
  lemma NoUpdateIsLost(text: Text, past: seq<Action>, future: seq<Action>, s: Slot)
    ensures var a := Run(text, START, past).db;
            var b := Run(text, Run(text, START, past), future).db;
            && Lineage(a, s) <= Lineage(b, s)
            && forall i :: i in a.items ==> i in b.items && b.items[i] == a.items[i]
  {
    hide Run, Owned, SourcesUnique;
    RunKeepsInv(text, START, past);
    var w := Run(text, START, past);
    RunKeepsInv(text, w, future);
    var a, b := w.db, Run(text, w, future).db;
    if s in a.heads {
      assert HeadNames(a, s) && HeadNames(b, s);
      LineageGrows(a, b, a.heads[s].memory);
      LineageThrough(b, a.heads[s].memory, b.heads[s].memory);
    }
  }

  lemma AppendGrowsOneLineage(db: Db, db': Db, id: Id, item: Item, s: Slot)
    requires Chained(db) && Appended(db, db', id, item) && Later(db, db')
    ensures Lineage(db', s) == Lineage(db, s) + (if s == item.entry.slot then [id] else [])
  {
    AppendKeepsChains(db, db', id, item);
    if s in db.heads {
      assert HeadNames(db, s) && UnderHead(db, db.heads[s].memory);
      LineageGrows(db, db', db.heads[s].memory);
    }
  }

  lemma RejectionKeepsLineage(db: Db, db': Db, s: Slot)
    requires Chained(db) && Chained(db') && Later(db, db') && db'.heads == db.heads
    ensures Lineage(db', s) == Lineage(db, s)
  {
    if s in db.heads {
      assert HeadNames(db, s);
      LineageGrows(db, db', db.heads[s].memory);
    }
  }

  /** The chain a transaction adds to, if it adds to one. */
  function Target(t: Txn): Option<Slot> {
    match t
    case Approving(a) => Some(a.entry.slot)
    case Rejecting(_) => None
    case Writing(entry, _) => Some(entry.slot)
  }

  lemma CommittedTxnAppends(db: Db, t: Txn, id: Id)
    requires Target(t).Some? && CommitTxn(db, t, id).Ok?
    ensures exists item: Item :: item.entry.slot == Target(t).value && Appended(db, CommitTxn(db, t, id).value, id, item)
  {
    var (entry, seen) := if t.Approving? then (t.approval.entry, t.approval.seen) else (t.entry, t.seen);
    CommittedRevisionAppends(db, id, entry, seen);
    assert Appended(db, CommitTxn(db, t, id).value, id, NextItem(entry, seen));
  }

  /** A revision that commits is appended to its own chain; every other chain is untouched. A commit
    * that fails changes nothing at all. */
  lemma CommitAppendsOne(text: Text, w: World, tid: nat, id: Id, s: Slot)
    requires Inv(text, w) && tid in w.open
    ensures var db' := Apply(text, w, Commit(tid, id)).db;
            if CommitTxn(w.db, w.open[tid], id).Failed? then db' == w.db
            else Lineage(db', s) == Lineage(w.db, s) + (if Target(w.open[tid]) == Some(s) then [id] else [])
  {
    var t := w.open[tid];
    if CommitTxn(w.db, t, id).Ok? {
      CommitKeepsDb(text, w.db, t, id);
      var db' := CommitTxn(w.db, t, id).value;
      if t.Rejecting? {
        RejectionKeepsLineage(w.db, db', s);
        assert Lineage(w.db, s) + [] == Lineage(w.db, s);
      } else {
        CommittedTxnAppends(w.db, t, id);
        hide CommitTxn, Chained;
        var item: Item :| item.entry.slot == Target(t).value && Appended(w.db, db', id, item);
        AppendGrowsOneLineage(w.db, db', id, item, s);
      }
    }
  }

  /** A proposal is settled at most once, and for good. */
  lemma SettledOnce(text: Text, past: seq<Action>, future: seq<Action>, p: Id)
    ensures var a := Run(text, START, past).db;
            var b := Run(text, Run(text, START, past), future).db;
            p in a.proposals ==>
              && p in b.proposals
              && (a.proposals[p].status != Pending ==> b.proposals[p] == a.proposals[p])
              && b.proposals[p].content == a.proposals[p].content
  {
    RunKeepsInv(text, START, past);
    RunKeepsInv(text, Run(text, START, past), future);
  }

  /** An approved proposal owns exactly one item, which carries the proposed words, kind, project and
    * scope; any other proposal owns none. */
  ghost predicate OwnsOneIffApproved(text: Text, db: Db, p: Id)
    requires p in db.proposals
  {
    if db.proposals[p].status == Approved then
      exists m :: m in db.items && Promotes(text, db, p, db.items[m].entry)
        && forall i :: i in db.items && db.items[i].entry.origin == FromProposal(p) ==> i == m
    else
      forall i :: i in db.items ==> db.items[i].entry.origin != FromProposal(p)
  }

  lemma OwnershipIsExact(text: Text, db: Db, p: Id)
    requires Owned(text, db) && p in db.proposals
    ensures OwnsOneIffApproved(text, db, p)
  {
    assert Owns(text, db, p);
    forall i | i in db.items && db.items[i].entry.origin == FromProposal(p) ensures db.proposals[p].memory == Some(i) {
      assert HasOwner(db, i);
    }
    if db.proposals[p].status == Approved {
      var m := db.proposals[p].memory.value;
      assert m in db.items && Promotes(text, db, p, db.items[m].entry);
    }
  }

  lemma ApprovedOwnsExactlyOne(text: Text, acts: seq<Action>, p: Id)
    ensures var db := Run(text, START, acts).db; p in db.proposals ==> OwnsOneIffApproved(text, db, p)
  {
    RunKeepsInv(text, START, acts);
    var db := Run(text, START, acts).db;
    if p in db.proposals { OwnershipIsExact(text, db, p); }
  }

  function Reviewed(t: Txn): Id
    requires !t.Writing?
  {
    if t.Approving? then t.approval.review.proposal else t.review.proposal
  }

  lemma SettledReviewFails(db: Db, t: Txn, id: Id)
    requires !t.Writing? && Reviewed(t) in db.proposals && db.proposals[Reviewed(t)].status != Pending
    ensures CommitTxn(db, t, id).Failed?
  {
  }

  lemma CommittedReviewSettles(db: Db, t: Txn, id: Id)
    requires !t.Writing? && CommitTxn(db, t, id).Ok?
    ensures Reviewed(t) in CommitTxn(db, t, id).value.proposals
    ensures CommitTxn(db, t, id).value.proposals[Reviewed(t)].status != Pending
  {
  }

  /** Two reviews of one proposal that were both opened while it was pending: whatever keys the
    * reviewers chose, once one commits the other cannot, and it leaves no trace. */
  lemma RacingReviewsSettleOnce(text: Text, w: World, t1: nat, t2: nat, id1: Id, id2: Id, between: seq<Action>)
    requires Inv(text, w) && t1 in w.open && t2 in w.open && t1 != t2
    requires !w.open[t1].Writing? && !w.open[t2].Writing? && Reviewed(w.open[t1]) == Reviewed(w.open[t2])
    requires CommitTxn(w.db, w.open[t1], id1).Ok?
    ensures var mid := Run(text, Apply(text, w, Commit(t1, id1)), between);
            t2 in mid.open && mid.open[t2] == w.open[t2] ==> Apply(text, mid, Commit(t2, id2)).db == mid.db
  {
    hide Chained, Owned, SourcesUnique, TxnSound, CommitTxn, Run;
    var w1 := Apply(text, w, Commit(t1, id1));
    var mid := Run(text, w1, between);
    StepKeepsInv(text, w, Commit(t1, id1));
    RunKeepsInv(text, w1, between);
    CommittedReviewSettles(w.db, w.open[t1], id1);
    if t2 in mid.open && mid.open[t2] == w.open[t2] { SettledReviewFails(mid.db, mid.open[t2], id2); }
  }
}

/** The governed project-memory tables and the transactions that write them: staging a proposal,
  * approving or rejecting it, and authoring a revision directly.
  *
  * A transaction is split into the reads it starts with and the commit that ends it, so that any
  * number of other transactions may commit in between. A commit is checked against the tables as
  * they are at that moment, by the unique constraints and guarded updates the source relies on;
  * a commit that fails leaves the tables as they were.
  */
module ProjectMemory {
  import opened Basics

  type Id = string

  /* ---- Rows ---- */

  datatype Scope = Scope(build: Option<string>, branch: Option<string>, commit: Option<string>, environment: Option<string>)

  /** One version chain: the key of the heads table. The stored scope key is an injective JSON
    * rendering of the four references, so the references themselves stand for it. */
  datatype Slot = Slot(project: Id, key: string, scope: Scope)

  datatype Status = Pending | Approved | Rejected

  datatype Proposal = Proposal(
    workspace: Id, project: Id, conversation: Id, message: Id, fingerprint: string, suggestedKey: string,
    kind: string, content: string, scope: Scope, status: Status, reviewer: Option<Id>, memory: Option<Id>)

  datatype MemoryState = Active | Disputed | Retracted

  datatype Origin = FromProposal(proposal: Id) | Authored

  datatype Validity = Validity(from: Option<real>, to: Option<real>, expires: Option<real>)

  /** What a revision says, before it is given a place in a chain. */
  datatype Entry = Entry(
    workspace: Id, slot: Slot, kind: string, content: string, state: MemoryState, validity: Validity, origin: Origin)

  datatype Item = Item(entry: Entry, revision: int, supersedes: Option<Id>)

  datatype Head = Head(workspace: Id, memory: Id, revision: int, state: MemoryState)

  datatype Db = Db(proposals: map<Id, Proposal>, items: map<Id, Item>, heads: map<Slot, Head>)

  const EMPTY_DB := Db(map[], map[], map[])

  /** `IntegrityError` from a unique constraint, or `MemoryConflict` from an update that matched no row. */
  datatype Fault = Integrity | Conflict

  datatype Result<+T> = Ok(value: T) | Failed(fault: Fault)

  /* ---- Writing one revision ---- */

  function HeadAt(db: Db, slot: Slot): Option<Head> {
    if slot in db.heads then Some(db.heads[slot]) else None
  }

  function NextItem(entry: Entry, seen: Option<Head>): Item {
    match seen
    case None => Item(entry, 1, None)
    case Some(h) => Item(entry, h.revision + 1, Some(h.memory))
  }

  predicate RevisionTaken(db: Db, slot: Slot, revision: int) {
    exists i :: i in db.items && db.items[i].entry.slot == slot && db.items[i].revision == revision
  }

  /** Insert the item under its unique constraints, then move the head by compare-and-swap on the
    * head that was read, or insert it when none was read. */
  function CommitRevision(db: Db, id: Id, entry: Entry, seen: Option<Head>): Result<Db> {
    var item := NextItem(entry, seen);
    if id in db.items || RevisionTaken(db, entry.slot, item.revision) then
      Failed(Integrity)
    else
      var head := Head(entry.workspace, id, item.revision, entry.state);
      var now := HeadAt(db, entry.slot);
      if seen.Some? && !(now.Some? && now.value.revision == seen.value.revision && now.value.memory == seen.value.memory) then
        Failed(Conflict)
      else if seen.None? && now.Some? then
        Failed(Integrity)
      else
        Ok(db.(items := db.items[id := item], heads := db.heads[entry.slot := head]))
  }

  /* ---- Reviewing a proposal ---- */

  /** String operations whose Unicode tables play no role here: `str.lower`, and the memory-key
    * normaliser that collapses white space and lowers case. */
  datatype Text = Text(lower: string -> string, memoryKey: string -> string)

  const MEMORY_KINDS: set<string> :=
    {"fact", "constraint", "decision", "hypothesis", "procedure", "gotcha", "episode", "preference", "resource"}

  /** `allowed` is the answer of the membership and project checks that open the transaction. */
  datatype Review = Review(
    allowed: bool, workspace: Id, actor: Id, project: Id, proposal: Id, key: Option<string>, content: Option<string>)

  datatype Refusal =
    | Unauthorized | UnknownProposal | NotPending | ContentEdited | BadKey | EmptyContent | ContentTooLong
    | UnsupportedKind | LostRace

  datatype Outcome = Committed(memory: Id) | AlreadyApproved(owner: Option<Id>) | RejectedNow | Refused(why: Refusal)

  function CleanRef(ref: Option<string>, limit: nat): Option<string> {
    if ref.None? || ref.value == "" then None else Some(Take(ref.value, limit))
  }

  function CleanScope(s: Scope): Scope {
    Scope(CleanRef(s.build, 160), CleanRef(s.branch, 200), CleanRef(s.commit, 160), CleanRef(s.environment, 160))
  }

  function FindProposal(db: Db, r: Review): Option<Proposal> {
    if r.proposal in db.proposals && db.proposals[r.proposal].workspace == r.workspace && db.proposals[r.proposal].project == r.project
    then Some(db.proposals[r.proposal]) else None
  }

  datatype Opened<+T> = Proceed(txn: T) | Stop(outcome: Outcome)

  /** The entry an approval of `row` writes, or why it is refused. */
  function ReviewedEntry(text: Text, row: Proposal, r: Review): Opened<Entry> {
    var content := Strip(row.content);
    var key := text.memoryKey(if r.key.Some? && r.key.value != "" then r.key.value else row.suggestedKey);
    var kind := text.lower(Strip(row.kind));
    if r.content.Some? && Strip(r.content.value) != content then Stop(Refused(ContentEdited))
    else if key == "" || |key| > 240 then Stop(Refused(BadKey))
    else if content == "" then Stop(Refused(EmptyContent))
    else if |content| > 20000 then Stop(Refused(ContentTooLong))
    else if kind !in MEMORY_KINDS then Stop(Refused(UnsupportedKind))
    else
      Proceed(Entry(r.workspace, Slot(r.project, key, CleanScope(row.scope)), kind, content, Active,
                    Validity(None, None, None), FromProposal(r.proposal)))
  }

  /** An approval between its reads and its commit. */
  datatype Approval = Approval(review: Review, entry: Entry, seen: Option<Head>)

  function OpenApproval(text: Text, db: Db, r: Review): Opened<Approval> {
    if !r.allowed then Stop(Refused(Unauthorized))
    else
      match FindProposal(db, r)
      case None => Stop(Refused(UnknownProposal))
      case Some(row) =>
        if row.status == Approved then Stop(AlreadyApproved(row.memory))
        else if row.status != Pending then Stop(Refused(NotPending))
        else
          match ReviewedEntry(text, row, r)
          case Stop(outcome) => Stop(outcome)
          case Proceed(entry) => Proceed(Approval(r, entry, HeadAt(db, entry.slot)))
  }

  function Settle(db: Db, proposal: Id, status: Status, reviewer: Id, memory: Option<Id>): Result<Db> {
    if proposal in db.proposals && db.proposals[proposal].status == Pending then
      Ok(db.(proposals := db.proposals[proposal := db.proposals[proposal].(status := status, reviewer := Some(reviewer), memory := memory)]))
    else
      Failed(Conflict)
  }

  function CommitApproval(db: Db, t: Approval, id: Id): Result<Db> {
    var written := CommitRevision(db, id, t.entry, t.seen);
    if written.Failed? then written
    else Settle(written.value, t.review.proposal, Approved, t.review.actor, Some(id))
  }

  /** A rejection between its read and its commit. */
  function OpenRejection(db: Db, r: Review): Opened<Review> {
    if !r.allowed then Stop(Refused(Unauthorized))
    else
      match FindProposal(db, r)
      case None => Stop(Refused(UnknownProposal))
      case Some(row) =>
        if row.status == Rejected then Stop(RejectedNow)
        else if row.status != Pending then Stop(Refused(NotPending))
        else Proceed(r)
  }

  /* ---- Staging proposals ---- */

  datatype Source = Source(workspace: Id, project: Id, conversation: Id, message: Id, scope: Scope)

  datatype Candidate = Candidate(fingerprint: string, suggestedKey: string, kind: string, content: string)

  predicate SourceTaken(db: Db, project: Id, message: Id, fingerprint: string) {
    exists p :: p in db.proposals && db.proposals[p].project == project && db.proposals[p].message == message
                && db.proposals[p].fingerprint == fingerprint
  }

  function PendingRow(src: Source, c: Candidate): Proposal {
    Proposal(src.workspace, src.project, src.conversation, src.message, c.fingerprint, c.suggestedKey, c.kind,
             c.content, src.scope, Pending, None, None)
  }

  /** Insert one row per candidate whose fingerprint is not in `existing`; candidate `k` would get
    * the id `ids[k]`. `existing` is what the transaction read before its first insert and is not
    * extended by its own inserts. */
  function Stage(db: Db, src: Source, existing: set<string>, cands: seq<Candidate>, ids: seq<Id>): Result<Db>
    requires |ids| == |cands|
    decreases |cands|
  {
    if cands == [] then Ok(db)
    else if cands[0].fingerprint in existing then Stage(db, src, existing, cands[1..], ids[1..])
    else if ids[0] in db.proposals || SourceTaken(db, src.project, src.message, cands[0].fingerprint) then Failed(Integrity)
    else Stage(db.(proposals := db.proposals[ids[0] := PendingRow(src, cands[0])]), src, existing, cands[1..], ids[1..])
  }

  /* ---- The tables, updated in place ---- */

  class Tables {
    var proposals: map<Id, Proposal>
    var items: map<Id, Item>
    var heads: map<Slot, Head>

    constructor ()
      ensures Snapshot() == EMPTY_DB
    {
      proposals, items, heads := map[], map[], map[];
    }

    function Snapshot(): Db
      reads this
    {
      Db(proposals, items, heads)
    }

    method Rollback(saved: Db)
      modifies this
      ensures Snapshot() == saved
    {
      proposals, items, heads := saved.proposals, saved.items, saved.heads;
    }

    /** The insert and the guarded head update, without the rollback that a fault calls for. */
    method WriteRevision(id: Id, entry: Entry, seen: Option<Head>) returns (fault: Option<Fault>)
      modifies this
      ensures var r := CommitRevision(old(Snapshot()), id, entry, seen);
              if r.Ok? then fault == None && Snapshot() == r.value else fault == Some(r.fault)
    {
      var item := NextItem(entry, seen);
      ghost var before := Snapshot();
      if id in items || RevisionTaken(Snapshot(), entry.slot, item.revision) {
        return Some(Integrity);
      }
      items := items[id := item];
      var head := Head(entry.workspace, id, item.revision, entry.state);
      if seen.Some? {
        if !(entry.slot in heads && heads[entry.slot].revision == seen.value.revision && heads[entry.slot].memory == seen.value.memory) {
          return Some(Conflict);
        }
      } else if entry.slot in heads {
        return Some(Integrity);
      }
      heads := heads[entry.slot := head];
      return None;
    }

    /** Approve in one transaction; on a unique-constraint fault look again, and report an approval
      * that somebody else completed. */
    method Approve(t: Approval, id: Id) returns (out: Outcome)
      modifies this
      ensures var r := CommitApproval(old(Snapshot()), t, id);
              && Snapshot() == (if r.Ok? then r.value else old(Snapshot()))
              && (r.Ok? ==> out == Committed(id))
              && (r.Failed? ==>
                    var row := FindProposal(old(Snapshot()), t.review);
                    out == if r.fault == Integrity && row.Some? && row.value.status == Approved
                           then AlreadyApproved(row.value.memory) else Refused(LostRace))
    {
      var saved := Snapshot();
      var fault := WriteRevision(id, t.entry, t.seen);
      if fault == None {
        if t.review.proposal in proposals && proposals[t.review.proposal].status == Pending {
          var row := proposals[t.review.proposal];
          proposals := proposals[t.review.proposal := row.(status := Approved, reviewer := Some(t.review.actor), memory := Some(id))];
          return Committed(id);
        }
        fault := Some(Conflict);
      }
      Rollback(saved);
      var row := FindProposal(Snapshot(), t.review);
      if fault == Some(Integrity) && row.Some? && row.value.status == Approved {
        return AlreadyApproved(row.value.memory);
      }
      return Refused(LostRace);
    }

    method Reject(r: Review) returns (out: Outcome)
      modifies this
      ensures var s := Settle(old(Snapshot()), r.proposal, Rejected, r.actor, None);
              && Snapshot() == (if s.Ok? then s.value else old(Snapshot()))
              && out == (if s.Ok? then RejectedNow else Refused(LostRace))
    {
      if r.proposal in proposals && proposals[r.proposal].status == Pending {
        proposals := proposals[r.proposal := proposals[r.proposal].(status := Rejected, reviewer := Some(r.actor), memory := None)];
        return RejectedNow;
      }
      return Refused(LostRace);
    }

    /** One try of the insert loop of `propose_user_message`; a unique violation undoes the whole try. */
    method StageProposals(src: Source, existing: set<string>, cands: seq<Candidate>, ids: seq<Id>) returns (fault: Option<Fault>)
      requires |ids| == |cands|
      modifies this
      ensures var r := Stage(old(Snapshot()), src, existing, cands, ids);
              if r.Ok? then fault == None && Snapshot() == r.value
              else fault == Some(r.fault) && Snapshot() == old(Snapshot())
    {
      var saved := Snapshot();
      for k := 0 to |cands|
        invariant Stage(saved, src, existing, cands, ids) == Stage(Snapshot(), src, existing, cands[k..], ids[k..])
      {
        assert cands[k..][1..] == cands[k + 1..] && ids[k..][1..] == ids[k + 1..];
        if cands[k].fingerprint !in existing {
          if ids[k] in proposals || SourceTaken(Snapshot(), src.project, src.message, cands[k].fingerprint) {
            Rollback(saved);
            return Some(Integrity);
          }
          proposals := proposals[ids[k] := PendingRow(src, cands[k])];
        }
      }
      return None;
    }
  }
}

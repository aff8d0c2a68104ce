/** What an approval writes and when it is refused, in terms of the reviewer's request and the proposal's row. */
module Approvals {
  import opened Basics
  import opened ProjectMemory
  import opened ProjectMemoryRuns

  /** The key the reviewer gave, or the suggested one if none was given, normalised. */
  function KeyFor(text: Text, p: Proposal, r: Review): string {
    match r.key
    case Some(key) => if |key| > 0 then text.memoryKey(key) else text.memoryKey(p.suggestedKey)
    case None => text.memoryKey(p.suggestedKey)
  }

  /** The reference without what is beyond its length; an empty one counts as missing. */
  predicate RefOf(ref: Option<string>, raw: Option<string>, limit: nat) {
    if raw == None || raw == Some("") then ref == None
    else ref.Some? && ref.value <= raw.value && |ref.value| == Min(limit, |raw.value|)
  }

  /** The chain is of the review's project, under that key, in the scope of the proposal. */
  predicate SlotFor(text: Text, p: Proposal, r: Review, slot: Slot) {
    && slot.project == r.project && slot.key == KeyFor(text, p, r)
    && RefOf(slot.scope.build, p.scope.build, 160) && RefOf(slot.scope.branch, p.scope.branch, 200)
    && RefOf(slot.scope.commit, p.scope.commit, 160) && RefOf(slot.scope.environment, p.scope.environment, 160)
  }

  /** The approval of this review may be opened. */
  predicate Admissible(text: Text, db: Db, r: Review) {
    && r.allowed && r.proposal in db.proposals
    && var p := db.proposals[r.proposal];
       && p.workspace == r.workspace && p.project == r.project && p.status == Pending
       && (r.content.Some? ==> Strip(r.content.value) == Strip(p.content))
       && 1 <= |KeyFor(text, p, r)| <= 240 && 1 <= |Strip(p.content)| <= 20000
       && text.lower(Strip(p.kind)) in
            {"fact", "constraint", "decision", "hypothesis", "procedure", "gotcha", "episode", "preference", "resource"}
  }

  /** What is written: the words of the proposal, active, without a term, for this proposal. */
  predicate EntryFor(text: Text, p: Proposal, r: Review, e: Entry) {
    && e.workspace == r.workspace && SlotFor(text, p, r, e.slot) && e.kind == text.lower(Strip(p.kind))
    && e.content == Strip(p.content) && e.state == Active && e.validity == Validity(None, None, None)
    && e.origin == FromProposal(r.proposal)
  }

  lemma CleanMeans(s: Scope)
    ensures var c := CleanScope(s);
            && RefOf(c.build, s.build, 160) && RefOf(c.branch, s.branch, 200)
            && RefOf(c.commit, s.commit, 160) && RefOf(c.environment, s.environment, 160)
  {
  }

  lemma KeyMeans(text: Text, p: Proposal, r: Review)
    ensures text.memoryKey(if r.key.Some? && r.key.value != "" then r.key.value else p.suggestedKey) == KeyFor(text, p, r)
  {
  }

  /** The checks of the proposal's row. */
  lemma ReviewedIff(text: Text, p: Proposal, r: Review)
    requires p.project == r.project
    ensures var o := ReviewedEntry(text, p, r);
            && (o.Proceed? <==>
                  && (r.content.Some? ==> Strip(r.content.value) == Strip(p.content))
                  && 1 <= |KeyFor(text, p, r)| <= 240 && 1 <= |Strip(p.content)| <= 20000
                  && text.lower(Strip(p.kind)) in
                       {"fact", "constraint", "decision", "hypothesis", "procedure", "gotcha", "episode", "preference", "resource"})
            && (o.Proceed? ==> EntryFor(text, p, r, o.txn))
            && (r.content.Some? && Strip(r.content.value) != Strip(p.content) ==> o == Stop(Refused(ContentEdited)))
  {
    hide Strip, KeyFor, RefOf, CleanScope;
    KeyMeans(text, p, r);
    CleanMeans(p.scope);
  }

  /** The row is there, in the review's workspace and project. */
  predicate Known(db: Db, r: Review) {
    r.proposal in db.proposals && db.proposals[r.proposal].workspace == r.workspace && db.proposals[r.proposal].project == r.project
  }

  /** An approval is opened exactly if it is admissible, and then for such an entry, over the head that is there;
    * otherwise it is answered without one, and this is the answer. */
  lemma OpeningIff(text: Text, db: Db, r: Review)
    ensures var o := OpenApproval(text, db, r);
            && (o.Proceed? <==> Admissible(text, db, r))
            && (o.Proceed? ==>
                  o.txn.review == r && EntryFor(text, db.proposals[r.proposal], r, o.txn.entry) && o.txn.seen == HeadAt(db, o.txn.entry.slot))
    ensures !r.allowed ==> OpenApproval(text, db, r) == Stop(Refused(Unauthorized))
    ensures r.allowed && !Known(db, r) ==> OpenApproval(text, db, r) == Stop(Refused(UnknownProposal))
    ensures r.allowed && Known(db, r) ==>
              var o, p := OpenApproval(text, db, r), db.proposals[r.proposal];
              && (p.status == Approved ==> o == Stop(AlreadyApproved(p.memory)))
              && (p.status == Rejected ==> o == Stop(Refused(NotPending)))
              && (p.status == Pending && r.content.Some? && Strip(r.content.value) != Strip(p.content) ==> o == Stop(Refused(ContentEdited)))
  {
    hide Strip, ReviewedEntry, KeyFor, EntryFor;
    if Known(db, r) {
      ReviewedIff(text, db.proposals[r.proposal], r);
    }
  }

  /** A rejection is opened exactly for a pending proposal of the workspace and the project. */
  lemma RejectingIff(db: Db, r: Review)
    ensures OpenRejection(db, r) == Proceed(r) <==>
              r.allowed && r.proposal in db.proposals && db.proposals[r.proposal].workspace == r.workspace
              && db.proposals[r.proposal].project == r.project && db.proposals[r.proposal].status == Pending
    ensures OpenRejection(db, r).Proceed? ==> OpenRejection(db, r) == Proceed(r)
  {
  }

  /** No action of the transaction `tid`. */
  predicate Apart(acts: seq<Action>, tid: nat) {
    forall k :: 0 <= k < |acts| ==> (acts[k].StageAll? || acts[k].tid != tid)
  }

  lemma {:induction false} OpenStays(text: Text, w: World, acts: seq<Action>, tid: nat)
    requires Apart(acts, tid)
    ensures var w' := Run(text, w, acts); (tid in w'.open <==> tid in w.open) && (tid in w.open ==> w'.open[tid] == w.open[tid])
    decreases |acts|
  {
    hide OpenApproval, OpenRejection, CommitTxn, Stage;
    if acts != [] {
      OpenStays(text, Apply(text, w, acts[0]), acts[1..], tid);
    }
  }

  /** The approval still goes through: nobody settled the proposal or took the id, and the chain has the head that
    * it had when the approval was opened. */
  predicate Unhindered(before: Db, now: Db, r: Review, slot: Slot, id: Id) {
    && r.proposal in now.proposals && now.proposals[r.proposal].status == Pending && id !in now.items
    && (slot in now.heads <==> slot in before.heads)
    && (slot in now.heads ==> now.heads[slot].revision == before.heads[slot].revision)
  }

  /** A whole approval, with any steps of others before it and between its two halves: if the review is not admissible
    * at first, its commit does nothing; if it is, it commits exactly if it is unhindered, and then the item is the
    * next revision of the chain of the project, the key and the scope that the review and the proposal name, with the
    * proposal's words, and the proposal is approved by the reviewer with this item. */
  lemma ApprovalLands(text: Text, past: seq<Action>, tid: nat, r: Review, between: seq<Action>, id: Id) returns (slot: Slot)
    requires tid !in Run(text, START, past).open && Apart(between, tid)
    ensures var w0 := Run(text, START, past);
            var w1 := Run(text, Apply(text, w0, OpenApprove(tid, r)), between);
            var db := Apply(text, w1, Commit(tid, id)).db;
            if !Admissible(text, w0.db, r) then db == w1.db
            else
              var p := w0.db.proposals[r.proposal];
              && SlotFor(text, p, r, slot)
              && if !Unhindered(w0.db, w1.db, r, slot, id) then db == w1.db
                 else
                   && id in db.items && EntryFor(text, p, r, db.items[id].entry) && db.items[id].entry.slot == slot
                   && Lineage(db, slot) == Lineage(w1.db, slot) + [id]
                   && db.proposals[r.proposal] == p.(status := Approved, reviewer := Some(r.actor), memory := Some(id))
  {
    hide Chained, Owned, SourcesUnique, Run, OpenApproval, Admissible, EntryFor, SlotFor, Lineage, CommitApproval;
    var w0 := Run(text, START, past);
    RunKeepsInv(text, START, past);
    OpeningIff(text, w0.db, r);
    var before := Apply(text, w0, OpenApprove(tid, r));
    StepKeepsInv(text, w0, OpenApprove(tid, r));
    RunKeepsInv(text, before, between);
    OpenStays(text, before, between, tid);
    var w1 := Run(text, before, between);
    if Admissible(text, w0.db, r) {
      var t := OpenApproval(text, w0.db, r).txn;
      slot := t.entry.slot;
      EntryHasSlot(text, w0.db.proposals[r.proposal], r, t.entry);
      assert TxnSound(text, w1.db, Approving(t));
      CommitIff(text, w0.db, w1.db, t, id);
      CommitAppendsOne(text, w1, tid, id, slot);
      AdmissibleIsPending(text, w0.db, r);
    } else {
      slot := Slot("", "", Scope(None, None, None, None));
    }
  }

  /** A whole direct write, likewise: it commits exactly if the chain has the head that it had at first and the id is
    * new, and then the item is the next revision of its chain, exactly as it was given. */
  lemma DirectWriteLands(text: Text, past: seq<Action>, tid: nat, entry: Entry, between: seq<Action>, id: Id)
    requires tid !in Run(text, START, past).open && Apart(between, tid) && entry.origin == Authored
    ensures var w0 := Run(text, START, past);
            var w1 := Run(text, Apply(text, w0, OpenWrite(tid, entry)), between);
            var db, slot := Apply(text, w1, Commit(tid, id)).db, entry.slot;
            if id in w1.db.items || (slot in w1.db.heads) != (slot in w0.db.heads)
               || (slot in w1.db.heads && w1.db.heads[slot].revision != w0.db.heads[slot].revision)
            then db == w1.db
            else
              && id in db.items && db.items[id].entry == entry && Lineage(db, slot) == Lineage(w1.db, slot) + [id]
              && db.proposals == w1.db.proposals
  {
    hide Chained, Owned, SourcesUnique, Run, Lineage, CommitRevision;
    var w0 := Run(text, START, past);
    RunKeepsInv(text, START, past);
    var before := Apply(text, w0, OpenWrite(tid, entry));
    StepKeepsInv(text, w0, OpenWrite(tid, entry));
    RunKeepsInv(text, before, between);
    OpenStays(text, before, between, tid);
    var w1, seen := Run(text, before, between), HeadAt(w0.db, entry.slot);
    assert TxnSound(text, w1.db, Writing(entry, seen));
    RevisionCommitsIffHeadUnmoved(w1.db, id, entry, seen);
    CommitAppendsOne(text, w1, tid, id, entry.slot);
    if CommitRevision(w1.db, id, entry, seen).Ok? {
      CommittedRevisionAppends(w1.db, id, entry, seen);
    }
  }

  /** A whole rejection, likewise: it settles the proposal, and does nothing else, exactly if it was opened for a
    * pending one and nobody settled it since. */
  lemma RejectionLands(text: Text, past: seq<Action>, tid: nat, r: Review, between: seq<Action>, id: Id)
    requires tid !in Run(text, START, past).open && Apart(between, tid)
    ensures var w0 := Run(text, START, past);
            var w1 := Run(text, Apply(text, w0, OpenReject(tid, r)), between);
            var db := Apply(text, w1, Commit(tid, id)).db;
            if r.allowed && Known(w0.db, r) && r.proposal in w1.db.proposals && w1.db.proposals[r.proposal].status == Pending then
              var p := w0.db.proposals[r.proposal];
              db == w1.db.(proposals := w1.db.proposals[r.proposal := p.(status := Rejected, reviewer := Some(r.actor), memory := None)])
            else db == w1.db
  {
    hide Run, OpenRejection, Chained, Owned, SourcesUnique;
    var w0 := Run(text, START, past);
    RunKeepsInv(text, START, past);
    RejectingIff(w0.db, r);
    var before := Apply(text, w0, OpenReject(tid, r));
    StepKeepsInv(text, w0, OpenReject(tid, r));
    RunKeepsInv(text, before, between);
    OpenStays(text, before, between, tid);
  }

  lemma EntryHasSlot(text: Text, p: Proposal, r: Review, e: Entry)
    requires EntryFor(text, p, r, e)
    ensures SlotFor(text, p, r, e.slot)
  {
  }

  lemma AdmissibleIsPending(text: Text, db: Db, r: Review)
    requires Admissible(text, db, r)
    ensures db.proposals[r.proposal].status == Pending
  {
  }

  lemma CommitIff(text: Text, before: Db, now: Db, t: Approval, id: Id)
    requires Chained(now) && HeadWasSeen(now, t.entry.slot, t.seen) && t.seen == HeadAt(before, t.entry.slot) && Later(before, now)
    requires t.review.proposal in before.proposals
    ensures CommitApproval(now, t, id).Ok? <==> Unhindered(before, now, t.review, t.entry.slot, id)
    ensures CommitApproval(now, t, id).Ok? ==>
              var db := CommitApproval(now, t, id).value;
              && id in db.items && db.items[id].entry == t.entry
              && db.proposals[t.review.proposal] ==
                   now.proposals[t.review.proposal].(status := Approved, reviewer := Some(t.review.actor), memory := Some(id))
  {
    hide Chained;
    RevisionCommitsIffHeadUnmoved(now, id, t.entry, t.seen);
  }
}

/** What becomes of a message, in terms of its words: which events lead to a job, which sentences are read, and
  * which proposals there are once the event is completed. */
module IngestedMessages {
  import opened Basics
  import opened ProjectMemory
  import opened Ingestion
  import opened IngestionOutcomes
  import Mem = ProjectMemoryRuns
  import R = Receipts

  /* ---- Which events lead to a job ---- */

  /** The event points at a user message of its conversation, through a locator of version 2 that names a job, an
    * actor who is also the project's, if that is named, and a project. */
  predicate Pointing(cfg: Config, v: Event) {
    var id := Strip(v.messageId);
    && id != "" && id in cfg.messages && cfg.messages[id].conversation == v.conversation && cfg.messages[id].role == "user"
    && v.locator.version == Some(2) && Strip(v.locator.jobId) != ""
    && Strip(v.locator.actorId) != "" && Strip(v.locator.projectId) != ""
    && (Strip(v.locator.projectActorId) == "" || Strip(v.locator.projectActorId) == Strip(v.locator.actorId))
  }

  /** Exactly which events lead to a job, and where its proposals belong. */
  lemma JobIff(cfg: Config, v: Event)
    ensures JobOf(cfg, v).Some? <==> Pointing(cfg, v)
    ensures JobOf(cfg, v).Some? ==>
              JobOf(cfg, v).value.src == Source(v.workspace, Strip(v.locator.projectId), v.conversation, Strip(v.messageId), v.locator.scope)
  {
    hide Strip, Extract;
  }

  /* ---- Which sentences are read ---- */

  /** The sentences of the first 12000 characters. */
  function Sentences(ex: Extractor, content: string): seq<string> { ex.sentences(if |content| <= 12000 then content else content[..12000]) }

  /** The kind of sentence `j`, if it is one of the first 40 and has one. */
  function KindAt(ex: Extractor, content: string, j: nat): Option<string> {
    if j < 40 && j < |Sentences(ex, content)| then ex.kindOf(Sentences(ex, content)[j]) else None
  }

  /** Its first 1200 characters. */
  function Words(ex: Extractor, content: string, j: nat): string {
    if j >= |Sentences(ex, content)| then ""
    else
      var s := Sentences(ex, content)[j];
      if |s| <= 1200 then s else s[..1200]
  }

  /** Its fingerprint under the scope. */
  function MarkAt(ex: Extractor, content: string, scope: Scope, j: nat): string
    requires KindAt(ex, content, j).Some?
  {
    ex.fingerprint(KindAt(ex, content, j).value, Words(ex, content, j), scope)
  }

  predicate CandidateFor(ex: Extractor, content: string, scope: Scope, j: nat, c: Candidate) {
    && KindAt(ex, content, j) == Some(c.kind) && c.content == Words(ex, content, j)
    && c.fingerprint == MarkAt(ex, content, scope, j) && c.suggestedKey == ex.suggestedKey(c.kind, c.content)
  }

  /** The places of the sentences that have a kind. */
  function KindPlaces(ex: Extractor, sentences: seq<string>): seq<nat> {
    if sentences == [] then []
    else
      KindPlaces(ex, sentences[..|sentences| - 1]) + (if ex.kindOf(sentences[|sentences| - 1]).Some? then [|sentences| - 1] else [])
  }

  lemma {:induction false} PlacesMean(ex: Extractor, sentences: seq<string>)
    ensures var ps := KindPlaces(ex, sentences);
            && (forall j: nat :: j in ps <==> j < |sentences| && ex.kindOf(sentences[j]).Some?)
            && (forall a, b :: 0 <= a < b < |ps| ==> ps[a] < ps[b])
    decreases |sentences|
  {
    if sentences != [] {
      var n := |sentences| - 1;
      PlacesMean(ex, sentences[..n]);
      var front, ps := KindPlaces(ex, sentences[..n]), KindPlaces(ex, sentences);
      forall a | 0 <= a < |front| ensures front[a] < n { assert front[a] in front; }
      forall j: nat ensures j in ps <==> j < |sentences| && ex.kindOf(sentences[j]).Some? {
        assert j < n ==> sentences[..n][j] == sentences[j];
      }
    }
  }

  lemma {:induction false} CandidatesInTwo(ex: Extractor, xs: seq<string>, ys: seq<string>, scope: Scope)
    ensures CandidatesOf(ex, xs + ys, scope) == CandidatesOf(ex, xs, scope) + CandidatesOf(ex, ys, scope)
    decreases |xs|
  {
    if xs == [] {
      assert xs + ys == ys;
    } else {
      CandidatesInTwo(ex, xs[1..], ys, scope);
      assert (xs + ys)[1..] == xs[1..] + ys;
    }
  }

  lemma {:induction false} CandidatesAtPlaces(ex: Extractor, sentences: seq<string>, scope: Scope)
    ensures var cs, ps := CandidatesOf(ex, sentences, scope), KindPlaces(ex, sentences);
            && |cs| == |ps|
            && forall k :: 0 <= k < |cs| ==>
                 && ps[k] < |sentences| && ex.kindOf(sentences[ps[k]]) == Some(cs[k].kind) && cs[k].content == Take(sentences[ps[k]], 1200)
                 && cs[k].fingerprint == ex.fingerprint(cs[k].kind, cs[k].content, scope)
                 && cs[k].suggestedKey == ex.suggestedKey(cs[k].kind, cs[k].content)
    decreases |sentences|
  {
    if sentences != [] {
      var n := |sentences| - 1;
      CandidatesAtPlaces(ex, sentences[..n], scope);
      CandidatesInTwo(ex, sentences[..n], [sentences[n]], scope);
      assert sentences == sentences[..n] + [sentences[n]];
      assert [sentences[n]][1..] == [];
    }
  }

  /** The candidates of a message are exactly those of its sentences that have a kind, in their order: candidate `k`
    * comes from sentence `places[k]`. */
  lemma ExtractMeans(ex: Extractor, content: string, scope: Scope) returns (places: seq<nat>)
    ensures |places| == |Extract(ex, content, scope)| && forall a, b :: 0 <= a < b < |places| ==> places[a] < places[b]
    ensures forall k :: 0 <= k < |places| ==> CandidateFor(ex, content, scope, places[k], Extract(ex, content, scope)[k])
    ensures forall j: nat :: KindAt(ex, content, j).Some? <==> j in places
  {
    var sentences := Take(ex.sentences(Take(content, 12000)), 40);
    places := KindPlaces(ex, sentences);
    PlacesMean(ex, sentences);
    CandidatesAtPlaces(ex, sentences, scope);
  }

  /** Two sentences of the message have one fingerprint under the scope. */
  predicate SaysTwice(ex: Extractor, content: string, scope: Scope) {
    exists i: nat, j: nat :: i < j < 40 && KindAt(ex, content, i).Some? && KindAt(ex, content, j).Some?
      && MarkAt(ex, content, scope, i) == MarkAt(ex, content, scope, j)
  }

  lemma RepeatsIff(ex: Extractor, content: string, scope: Scope)
    ensures Repeats(Extract(ex, content, scope)) <==> SaysTwice(ex, content, scope)
  {
    hide Extract, KindAt, MarkAt, Words;
    var cands := Extract(ex, content, scope);
    var places := ExtractMeans(ex, content, scope);
    KindsAreFew(ex, content);
    if Repeats(cands) {
      var a: nat, b: nat :| a < b < |cands| && SameWords(cands, a, b);
      assert places[a] < places[b] && CandidateFor(ex, content, scope, places[a], cands[a]) && CandidateFor(ex, content, scope, places[b], cands[b]);
    }
    if SaysTwice(ex, content, scope) {
      var i: nat, j: nat :| i < j < 40 && KindAt(ex, content, i).Some? && KindAt(ex, content, j).Some?
                            && MarkAt(ex, content, scope, i) == MarkAt(ex, content, scope, j);
      var a: nat, b: nat :| a < |places| && b < |places| && places[a] == i && places[b] == j;
      assert CandidateFor(ex, content, scope, i, cands[a]) && CandidateFor(ex, content, scope, j, cands[b]);
      assert SameWords(cands, a, b) && SameWords(cands, b, a);
      assert a < b || b < a;
    }
  }

  lemma KindsAreFew(ex: Extractor, content: string)
    ensures forall j: nat :: KindAt(ex, content, j).Some? ==> j < 40
  {
  }

  function MessageOf(v: Event): Id { Strip(v.messageId) }

  function ProjectOf(v: Event): Id { Strip(v.locator.projectId) }

  /** The words of the message that the event points at. */
  function ContentOf(cfg: Config, v: Event): string
    requires Pointing(cfg, v)
  {
    cfg.messages[MessageOf(v)].content
  }

  lemma JobCandidates(cfg: Config, v: Event)
    requires Pointing(cfg, v)
    ensures JobOf(cfg, v).Some? && JobOf(cfg, v).value.cands == Extract(cfg.extractor, ContentOf(cfg, v), v.locator.scope)
    ensures JobOf(cfg, v).value.src == Source(v.workspace, ProjectOf(v), v.conversation, MessageOf(v), v.locator.scope)
  {
    hide Strip, Extract;
  }

  /** Exactly which events can be completed, in terms of the event and the words of its message. */
  lemma CompletableIff(cfg: Config, e: nat)
    requires CollisionsIgnoreScope(cfg.extractor)
    ensures CanComplete(cfg, e) <==>
              && e in cfg.events && cfg.events[e].kind == "message.accepted" && Pointing(cfg, cfg.events[e])
              && !SaysTwice(cfg.extractor, ContentOf(cfg, cfg.events[e]), cfg.events[e].locator.scope)
  {
    hide CollisionsIgnoreScope, CanComplete, JobOf, Repeats, SaysTwice, Pointing, Extract;
    CanCompleteIff(cfg, e);
    if e in cfg.events {
      JobIff(cfg, cfg.events[e]);
      if Pointing(cfg, cfg.events[e]) {
        JobCandidates(cfg, cfg.events[e]);
        RepeatsIff(cfg.extractor, ContentOf(cfg, cfg.events[e]), cfg.events[e].locator.scope);
      }
    }
  }

  /** A delivery of an event that points at no message, or at a deleted one, ends with the receipt ignored, and
    * changes nothing else. */
  lemma PointlessIsIgnored(cfg: Config, w: World, run: nat, e: nat, worker: string, now: real, ids: seq<Id>)
    requires Due(cfg, w, run, e, now) && (!Pointing(cfg, cfg.events[e]) || MessageOf(cfg.events[e]) in w.deleted)
    ensures var w1 := Run(cfg, w, DeliveryOf(run, e, worker, now, ids));
            e in w1.receipts && w1.receipts[e].phase == R.Reported(R.Ignored) && w1.mem.db == w.mem.db && OtherReceipts(w, w1, e)
  {
    hide Run, JobOf, Pointing;
    JobIff(cfg, cfg.events[e]);
    IgnoredDelivery(cfg, w, run, e, worker, now, ids);
  }

  /* ---- A completed event ---- */

  /** In every run, a completed receipt means that the event points at a message, and that for each of its
    * sentences that has a kind there is exactly one proposal of the project and the message with its fingerprint. */
  lemma CompletedMeansEverySentence(cfg: Config, acts: seq<Action>, e: nat)
    requires CompletedIn(Run(cfg, START, acts), e)
    ensures e in cfg.events && cfg.events[e].kind == "message.accepted" && Pointing(cfg, cfg.events[e])
    ensures var v := cfg.events[e];
            forall j: nat :: KindAt(cfg.extractor, ContentOf(cfg, v), j).Some? ==>
              OneFor(Run(cfg, START, acts).mem.db, ProjectOf(v), MessageOf(v), MarkAt(cfg.extractor, ContentOf(cfg, v), v.locator.scope, j))
  {
    hide Run, JobOf, Extract, KindAt, MarkAt, Words, Pointing, StagedOnce, OneFor;
    CompletedMeansStagedExactlyOnce(cfg, acts, e);
    var v, db := cfg.events[e], Run(cfg, START, acts).mem.db;
    JobIff(cfg, v);
    JobCandidates(cfg, v);
    var job := JobOf(cfg, v).value;
    var places := ExtractMeans(cfg.extractor, ContentOf(cfg, v), v.locator.scope);
    forall j: nat | KindAt(cfg.extractor, ContentOf(cfg, v), j).Some?
      ensures OneFor(db, ProjectOf(v), MessageOf(v), MarkAt(cfg.extractor, ContentOf(cfg, v), v.locator.scope, j))
    {
      assert j in places;
      var k: nat :| k < |places| && places[k] == j;
      assert CandidateFor(cfg.extractor, ContentOf(cfg, v), v.locator.scope, j, job.cands[k]);
      assert StagedOnce(db, job.src, job.cands[k].fingerprint);
      OnceIsOne(db, job.src, job.cands[k].fingerprint);
    }
  }

  /** Exactly one proposal is of this project and message, with this fingerprint. */
  ghost predicate OneFor(db: Db, project: Id, message: Id, mark: string) {
    exists p :: p in db.proposals && Marked(db.proposals[p], project, message, mark)
      && forall q :: q in db.proposals && Marked(db.proposals[q], project, message, mark) ==> q == p
  }

  predicate Marked(p: Proposal, project: Id, message: Id, mark: string) {
    p.project == project && p.message == message && p.fingerprint == mark
  }

  lemma OnceIsOne(db: Db, src: Source, mark: string)
    requires StagedOnce(db, src, mark)
    ensures OneFor(db, src.project, src.message, mark)
  {
    var p :| p in db.proposals && HasSource(db.proposals[p], src, mark)
             && forall q :: q in db.proposals && HasSource(db.proposals[q], src, mark) ==> q == p;
    assert Marked(db.proposals[p], src.project, src.message, mark);
    forall q | q in db.proposals && Marked(db.proposals[q], src.project, src.message, mark) ensures q == p {
      assert HasSource(db.proposals[q], src, mark);
    }
  }

  /* ---- Where proposals come from ---- */

  /** The proposal has the place and the words of sentence `j` of the event's message, and no other sentence of it has
    * its fingerprint under the event's scope. */
  predicate OfSentence(cfg: Config, p: Proposal, e: nat, j: nat) {
    && e in cfg.events && cfg.events[e].kind == "message.accepted" && Pointing(cfg, cfg.events[e])
    && var v := cfg.events[e]; var content := ContentOf(cfg, v);
       && p.workspace == v.workspace && p.conversation == v.conversation
       && p.project == ProjectOf(v) && p.message == MessageOf(v) && p.scope == v.locator.scope
       && KindAt(cfg.extractor, content, j) == Some(p.kind) && p.content == Words(cfg.extractor, content, j)
       && p.fingerprint == MarkAt(cfg.extractor, content, v.locator.scope, j) && p.suggestedKey == cfg.extractor.suggestedKey(p.kind, p.content)
       && forall i: nat :: i < 40 && i != j && KindAt(cfg.extractor, content, i).Some? ==>
            MarkAt(cfg.extractor, content, v.locator.scope, i) != p.fingerprint
  }

  ghost predicate FromMessage(cfg: Config, p: Proposal) { exists e, j :: OfSentence(cfg, p, e, j) }

  ghost predicate AllFromMessages(cfg: Config, db: Db) { forall p {:trigger db.proposals[p]} :: p in db.proposals ==> FromMessage(cfg, db.proposals[p]) }

  /** The rows that a try adds are those of its candidates, each of which is the only one with its fingerprint. */
  lemma {:induction false} RowsOfStage(db: Db, src: Source, existing: set<string>, cands: seq<Candidate>, ids: seq<Id>, p: Id)
    requires |ids| == |cands| && Stage(db, src, existing, cands, ids).Ok?
    requires p in Stage(db, src, existing, cands, ids).value.proposals && p !in db.proposals
    ensures exists k :: 0 <= k < |cands| && cands[k].fingerprint !in existing
              && Stage(db, src, existing, cands, ids).value.proposals[p] == PendingRow(src, cands[k])
    decreases |cands|
  {
    if cands[0].fingerprint in existing {
      RowsOfStage(db, src, existing, cands[1..], ids[1..], p);
      var k :| 0 <= k < |cands[1..]| && cands[1..][k].fingerprint !in existing
               && Stage(db, src, existing, cands[1..], ids[1..]).value.proposals[p] == PendingRow(src, cands[1..][k]);
      assert cands[k + 1] == cands[1..][k];
    } else {
      var db1 := db.(proposals := db.proposals[ids[0] := PendingRow(src, cands[0])]);
      if p == ids[0] {
        RowsStay(db1, src, existing, cands[1..], ids[1..], p);
      } else {
        RowsOfStage(db1, src, existing, cands[1..], ids[1..], p);
        var k :| 0 <= k < |cands[1..]| && cands[1..][k].fingerprint !in existing
                 && Stage(db1, src, existing, cands[1..], ids[1..]).value.proposals[p] == PendingRow(src, cands[1..][k]);
        assert cands[k + 1] == cands[1..][k];
      }
    }
  }

  lemma {:induction false} RowsStay(db: Db, src: Source, existing: set<string>, cands: seq<Candidate>, ids: seq<Id>, p: Id)
    requires |ids| == |cands| && Stage(db, src, existing, cands, ids).Ok? && p in db.proposals
    ensures p in Stage(db, src, existing, cands, ids).value.proposals
            && Stage(db, src, existing, cands, ids).value.proposals[p] == db.proposals[p]
    decreases |cands|
  {
    if cands != [] {
      if cands[0].fingerprint in existing {
        RowsStay(db, src, existing, cands[1..], ids[1..], p);
      } else {
        RowsStay(db.(proposals := db.proposals[ids[0] := PendingRow(src, cands[0])]), src, existing, cands[1..], ids[1..], p);
      }
    }
  }

  /** A candidate that a try inserts is the only one with its fingerprint. */
  lemma InsertedIsAlone(db: Db, src: Source, existing: set<string>, cands: seq<Candidate>, ids: seq<Id>, k: nat, j: nat)
    requires |ids| == |cands| && Stage(db, src, existing, cands, ids).Ok? && k < |cands| && j < |cands| && j != k
    requires cands[k].fingerprint !in existing
    ensures cands[j].fingerprint != cands[k].fingerprint
  {
    hide Stage, SourceTaken;
    StageSucceedsIff(db, src, existing, cands, ids);
    assert Insertable(db, src, existing, cands, ids, k) && Insertable(db, src, existing, cands, ids, j);
  }

  lemma InsertedFromSentence(cfg: Config, db: Db, job: Job, existing: set<string>, ids: seq<Id>, e: nat, p: Id)
    requires Consumed(cfg, e) && JobOf(cfg, cfg.events[e]) == Some(job) && |ids| == |job.cands|
    requires Stage(db, job.src, existing, job.cands, ids).Ok?
    requires p in Stage(db, job.src, existing, job.cands, ids).value.proposals && p !in db.proposals
    ensures FromMessage(cfg, Stage(db, job.src, existing, job.cands, ids).value.proposals[p])
  {
    hide Stage, JobOf, Extract, KindAt, MarkAt, Words, Pointing, OfSentence;
    var v, row := cfg.events[e], Stage(db, job.src, existing, job.cands, ids).value.proposals[p];
    JobIff(cfg, v);
    JobCandidates(cfg, v);
    RowsOfStage(db, job.src, existing, job.cands, ids, p);
    var k: nat :| k < |job.cands| && job.cands[k].fingerprint !in existing && row == PendingRow(job.src, job.cands[k]);
    var places := ExtractMeans(cfg.extractor, ContentOf(cfg, v), v.locator.scope);
    assert CandidateFor(cfg.extractor, ContentOf(cfg, v), v.locator.scope, places[k], job.cands[k]);
    forall i: nat | i < 40 && i != places[k] && KindAt(cfg.extractor, ContentOf(cfg, v), i).Some?
      ensures MarkAt(cfg.extractor, ContentOf(cfg, v), v.locator.scope, i) != row.fingerprint
    {
      assert i in places;
      var m: nat :| m < |places| && places[m] == i;
      assert CandidateFor(cfg.extractor, ContentOf(cfg, v), v.locator.scope, i, job.cands[m]);
      InsertedIsAlone(db, job.src, existing, job.cands, ids, k, m);
    }
    IsOfSentence(cfg, row, e, places[k], job.cands[k]);
  }

  lemma IsOfSentence(cfg: Config, row: Proposal, e: nat, j: nat, c: Candidate)
    requires Consumed(cfg, e) && Pointing(cfg, cfg.events[e])
    requires var v := cfg.events[e];
             && row == PendingRow(Source(v.workspace, ProjectOf(v), v.conversation, MessageOf(v), v.locator.scope), c)
             && CandidateFor(cfg.extractor, ContentOf(cfg, v), v.locator.scope, j, c)
             && forall i: nat :: i < 40 && i != j && KindAt(cfg.extractor, ContentOf(cfg, v), i).Some? ==>
                  MarkAt(cfg.extractor, ContentOf(cfg, v), v.locator.scope, i) != row.fingerprint
    ensures OfSentence(cfg, row, e, j)
  {
    hide KindAt, MarkAt, Words, Pointing;
  }

  lemma SettledIsOfSentence(cfg: Config, a: Proposal, b: Proposal)
    requires Mem.SettlesTo(a, b) && FromMessage(cfg, a)
    ensures FromMessage(cfg, b)
  {
    hide KindAt, MarkAt, Words, Pointing;
    var e, j :| OfSentence(cfg, a, e, j);
    assert OfSentence(cfg, b, e, j);
  }

  lemma ReviewAddsNone(text: Text, w: Mem.World, a: Mem.Action)
    requires !a.StageAll?
    ensures Mem.Apply(text, w, a).db.proposals.Keys == w.db.proposals.Keys
    ensures forall p :: p in w.db.proposals ==> Mem.Apply(text, w, a).db.proposals[p].message == w.db.proposals[p].message
  {
    hide OpenApproval, OpenRejection, RevisionTaken;
  }

  lemma StepKeepsOrigins(cfg: Config, w: World, a: Action)
    requires Inv(cfg, w) && AllFromMessages(cfg, w.mem.db) && !(a.Govern? && a.action.StageAll?)
    ensures AllFromMessages(cfg, Apply(cfg, w, a).mem.db)
  {
    hide Mem.Inv, Mem.Apply, Stage, JobOf, Advance, FromMessage, EventStaged, R.Step;
    var db := Apply(cfg, w, a).mem.db;
    StepKeepsInv(cfg, w, a);
    forall p | p in db.proposals ensures FromMessage(cfg, db.proposals[p]) {
      if p in w.mem.db.proposals {
        SettledIsOfSentence(cfg, w.mem.db.proposals[p], db.proposals[p]);
      } else if a.Govern? {
        ReviewAddsNone(cfg.text, w.mem, a.action);
      } else {
        WorkerDbIsNext(cfg, w, a);
        var d := w.deliveries[a.run];
        assert DeliverySound(cfg, w.mem.db, d);
        InsertedFromSentence(cfg, w.mem.db, d.job, d.existing.value, a.ids, d.event, p);
      }
    }
  }

  lemma {:induction false} RunKeepsOrigins(cfg: Config, w: World, acts: seq<Action>)
    requires Inv(cfg, w) && AllFromMessages(cfg, w.mem.db) && ConsumerStages(acts)
    ensures AllFromMessages(cfg, Run(cfg, w, acts).mem.db)
    decreases |acts|
  {
    hide Inv, AllFromMessages, Apply;
    if acts != [] {
      StepKeepsInv(cfg, w, acts[0]);
      StepKeepsOrigins(cfg, w, acts[0]);
      RunKeepsOrigins(cfg, Apply(cfg, w, acts[0]), acts[1..]);
    }
  }

  /** In every run in which deliveries do the staging there are no proposals but those of the sentences of messages
    * that consumed events point at. */
  lemma ProposalsAreSentences(cfg: Config, acts: seq<Action>, p: Id)
    requires ConsumerStages(acts) && p in Run(cfg, START, acts).mem.db.proposals
    ensures FromMessage(cfg, Run(cfg, START, acts).mem.db.proposals[p])
  {
    hide FromMessage;
    RunKeepsOrigins(cfg, START, acts);
  }

  /* ---- Deleted messages ---- */

  /** The message is deleted, and no delivery is between reading what is staged of it and staging the rest. */
  ghost predicate Withdrawn(w: World, message: Id) {
    message in w.deleted && forall r :: r in w.deliveries ==> !Underway(w.deliveries[r], message)
  }

  predicate Underway(d: Delivery, message: Id) { d.Staging? && d.existing.Some? && d.job.src.message == message }

  predicate ProposedOf(db: Db, p: Id, message: Id) { p in db.proposals && db.proposals[p].message == message }

  lemma StepAddsNone(cfg: Config, w: World, a: Action, message: Id)
    requires Withdrawn(w, message) && !(a.Govern? && a.action.StageAll?)
    ensures Withdrawn(Apply(cfg, w, a), message)
    ensures forall p :: ProposedOf(Apply(cfg, w, a).mem.db, p, message) ==> ProposedOf(w.mem.db, p, message)
  {
    WithdrawnStays(cfg, w, a, message);
    hide Mem.Apply, Stage, JobOf, Advance, R.Step, Withdrawn;
    var db := Apply(cfg, w, a).mem.db;
    forall p | ProposedOf(db, p, message) ensures ProposedOf(w.mem.db, p, message) {
      if !Enabled(cfg, w, a) {
      } else if a.Govern? {
        ReviewAddsNone(cfg.text, w.mem, a.action);
      } else {
        WorkerDbIsNext(cfg, w, a);
        if a.CommitStage? {
          NotUnderway(w, a.run, message);
          TryOfOther(w.mem.db, w.deliveries[a.run], a.ids, p, message);
        }
      }
    }
  }

  lemma TryOfOther(db: Db, d: Delivery, ids: seq<Id>, p: Id, message: Id)
    requires d.Staging? && d.existing.Some? && |ids| == |d.job.cands| && !Underway(d, message)
    requires ProposedOf(Mem.After(db, Stage(db, d.job.src, d.existing.value, d.job.cands, ids)), p, message)
    ensures ProposedOf(db, p, message)
  {
    hide Stage;
    if Stage(db, d.job.src, d.existing.value, d.job.cands, ids).Ok? {
      if p in db.proposals {
        RowsStay(db, d.job.src, d.existing.value, d.job.cands, ids, p);
      } else {
        RowsOfStage(db, d.job.src, d.existing.value, d.job.cands, ids, p);
      }
    }
  }

  lemma NotUnderway(w: World, run: nat, message: Id)
    requires Withdrawn(w, message) && run in w.deliveries
    ensures !Underway(w.deliveries[run], message)
  {
  }

  lemma WithdrawnStays(cfg: Config, w: World, a: Action, message: Id)
    requires Withdrawn(w, message)
    ensures Withdrawn(Apply(cfg, w, a), message)
  {
    hide Mem.Apply, Stage, JobOf, R.Step, StagedFingerprints, R.Wins;
    var w' := Apply(cfg, w, a);
    forall r | r in w'.deliveries ensures !Underway(w'.deliveries[r], message) {
      if r in w.deliveries {
        NotUnderway(w, r, message);
      }
    }
  }

  /** Once a message is deleted, and whoever was staging it is done, no run of deliveries, reviews and direct writes
    * gives it a proposal that it did not have. */
  lemma {:induction false} DeletedStaysOut(cfg: Config, w: World, acts: seq<Action>, message: Id)
    requires Withdrawn(w, message) && ConsumerStages(acts)
    ensures Withdrawn(Run(cfg, w, acts), message)
    ensures forall p :: ProposedOf(Run(cfg, w, acts).mem.db, p, message) ==> ProposedOf(w.mem.db, p, message)
    decreases |acts|
  {
    hide Apply, Withdrawn;
    if acts != [] {
      StepAddsNone(cfg, w, acts[0], message);
      DeletedStaysOut(cfg, Apply(cfg, w, acts[0]), acts[1..], message);
    }
  }

  /* ---- The words of a completed event ---- */

  /** Another event of the message and the project, under another scope, gives a fingerprint that this event gives to
    * one sentence to a different one. */
  predicate Confuses(cfg: Config, e: nat, o: nat, j: nat, i: nat) {
    && e in cfg.events && o in cfg.events && cfg.events[o].kind == "message.accepted"
    && Pointing(cfg, cfg.events[e]) && Pointing(cfg, cfg.events[o])
    && var v, u, x := cfg.events[e], cfg.events[o], cfg.extractor;
       && MessageOf(u) == MessageOf(v) && ProjectOf(u) == ProjectOf(v) && u.locator.scope != v.locator.scope
       && var content := ContentOf(cfg, v);
          && KindAt(x, content, j).Some? && KindAt(x, content, i).Some?
          && MarkAt(x, content, u.locator.scope, i) == MarkAt(x, content, v.locator.scope, j)
          && (KindAt(x, content, i), Words(x, content, i)) != (KindAt(x, content, j), Words(x, content, j))
  }

  /** The fingerprints of the event's sentences are not given to different sentences of the message elsewhere; so it
    * is if the events of a message have one scope, or if fingerprints tell scopes apart. */
  ghost predicate TellsApart(cfg: Config, e: nat) { forall o, j, i :: !Confuses(cfg, e, o, j, i) }

  /** For sentence `j` there is a proposal of its project and message with its kind, its words, its fingerprint and
    * its suggested key. */
  ghost predicate Proposed(cfg: Config, db: Db, v: Event, j: nat)
    requires Pointing(cfg, v) && KindAt(cfg.extractor, ContentOf(cfg, v), j).Some?
  {
    var x, content := cfg.extractor, ContentOf(cfg, v);
    exists p :: p in db.proposals && Marked(db.proposals[p], ProjectOf(v), MessageOf(v), MarkAt(x, content, v.locator.scope, j))
      && Some(db.proposals[p].kind) == KindAt(x, content, j) && db.proposals[p].content == Words(x, content, j)
      && db.proposals[p].suggestedKey == x.suggestedKey(db.proposals[p].kind, Words(x, content, j))
  }

  /** Every sentence of the event's message that has a kind is proposed in its own words. */
  ghost predicate WordsKept(cfg: Config, db: Db, e: nat)
    requires e in cfg.events && Pointing(cfg, cfg.events[e])
  {
    forall j: nat :: KindAt(cfg.extractor, ContentOf(cfg, cfg.events[e]), j).Some? ==> Proposed(cfg, db, cfg.events[e], j)
  }

  lemma SentenceIsProposed(cfg: Config, db: Db, e: nat, j: nat)
    requires e in cfg.events && cfg.events[e].kind == "message.accepted" && Pointing(cfg, cfg.events[e]) && TellsApart(cfg, e)
    requires AllFromMessages(cfg, db) && KindAt(cfg.extractor, ContentOf(cfg, cfg.events[e]), j).Some?
    requires var v := cfg.events[e]; OneFor(db, ProjectOf(v), MessageOf(v), MarkAt(cfg.extractor, ContentOf(cfg, v), v.locator.scope, j))
    ensures Proposed(cfg, db, cfg.events[e], j)
  {
    hide KindAt, MarkAt, Words, Pointing;
    var v, x := cfg.events[e], cfg.extractor;
    var content := ContentOf(cfg, v);
    KindsAreFew(x, content);
    var p :| p in db.proposals && Marked(db.proposals[p], ProjectOf(v), MessageOf(v), MarkAt(x, content, v.locator.scope, j));
    var row := db.proposals[p];
    assert FromMessage(cfg, row);
    var o, i :| OfSentence(cfg, row, o, i);
    assert ContentOf(cfg, cfg.events[o]) == content;
    if cfg.events[o].locator.scope == v.locator.scope {
      assert i == j;
    } else {
      assert !Confuses(cfg, e, o, j, i);
    }
  }

  /** In every run in which deliveries do the staging, a completed event whose fingerprints are not confused has each
    * sentence proposed in its own words. */
  lemma CompletedKeepsWords(cfg: Config, acts: seq<Action>, e: nat)
    requires ConsumerStages(acts) && CompletedIn(Run(cfg, START, acts), e) && TellsApart(cfg, e)
    ensures e in cfg.events && Pointing(cfg, cfg.events[e]) && WordsKept(cfg, Run(cfg, START, acts).mem.db, e)
  {
    hide Run, KindAt, MarkAt, Words, Pointing, TellsApart, OneFor, Proposed, AllFromMessages;
    CompletedMeansEverySentence(cfg, acts, e);
    NothingProposed(cfg);
    RunKeepsOrigins(cfg, START, acts);
    forall j: nat | KindAt(cfg.extractor, ContentOf(cfg, cfg.events[e]), j).Some?
      ensures Proposed(cfg, Run(cfg, START, acts).mem.db, cfg.events[e], j)
    {
      SentenceIsProposed(cfg, Run(cfg, START, acts).mem.db, e, j);
    }
  }

  lemma NothingProposed(cfg: Config)
    ensures Inv(cfg, START) && AllFromMessages(cfg, START.mem.db)
  {
  }

  /* ---- Where fingerprints are confused ---- */

  /** After a first delivery of an event that completes it, its sentences are proposed in its words. */
  lemma FirstDelivery(cfg: Config, o: nat, i: nat) returns (ids: seq<Id>, p: Id)
    requires o in cfg.events && cfg.events[o].kind == "message.accepted" && Pointing(cfg, cfg.events[o])
    requires var u := cfg.events[o];
             !SaysTwice(cfg.extractor, ContentOf(cfg, u), u.locator.scope) && KindAt(cfg.extractor, ContentOf(cfg, u), i).Some?
    ensures |ids| == |JobOf(cfg, cfg.events[o]).value.cands|
    ensures var u, w := cfg.events[o], Run(cfg, START, DeliveryOf(0, o, "", 0.0, ids));
            && w.deleted == {} && OtherReceipts(START, w, o) && 1 !in w.deliveries
            && p in w.mem.db.proposals
            && Marked(w.mem.db.proposals[p], ProjectOf(u), MessageOf(u), MarkAt(cfg.extractor, ContentOf(cfg, u), u.locator.scope, i))
            && Some(w.mem.db.proposals[p].kind) == KindAt(cfg.extractor, ContentOf(cfg, u), i)
            && w.mem.db.proposals[p].content == Words(cfg.extractor, ContentOf(cfg, u), i)
  {
    hide JobOf, Stage, StagedFingerprints, KindAt, MarkAt, Words, Pointing, SaysTwice, Extract, Run, DeliveryOf, RepeatsNew, CompletedIn;
    var u := cfg.events[o];
    JobIff(cfg, u);
    JobCandidates(cfg, u);
    var job := JobOf(cfg, u).value;
    RepeatsIff(cfg.extractor, ContentOf(cfg, u), u.locator.scope);
    NoRepeatIsNew(StagedFingerprints(EMPTY_DB, job.src), job.cands);
    ids := NewIds(|job.cands|);
    UndisturbedDelivery(cfg, START, 0, o, "", 0.0, ids);
    FreshTryIff(EMPTY_DB, job.src, job.cands, ids);
    p := RowOfCandidate(cfg, u, job, ids, i);
  }

  lemma RowOfCandidate(cfg: Config, u: Event, job: Job, ids: seq<Id>, i: nat) returns (p: Id)
    requires Pointing(cfg, u) && JobOf(cfg, u) == Some(job) && |ids| == |job.cands| && KindAt(cfg.extractor, ContentOf(cfg, u), i).Some?
    requires Stage(EMPTY_DB, job.src, StagedFingerprints(EMPTY_DB, job.src), job.cands, ids).Ok?
    ensures var db := Stage(EMPTY_DB, job.src, StagedFingerprints(EMPTY_DB, job.src), job.cands, ids).value;
            && p in db.proposals
            && Marked(db.proposals[p], ProjectOf(u), MessageOf(u), MarkAt(cfg.extractor, ContentOf(cfg, u), u.locator.scope, i))
            && Some(db.proposals[p].kind) == KindAt(cfg.extractor, ContentOf(cfg, u), i)
            && db.proposals[p].content == Words(cfg.extractor, ContentOf(cfg, u), i)
  {
    hide JobOf, Stage, KindAt, MarkAt, Words, Pointing, Extract;
    JobCandidates(cfg, u);
    var staged := StagedFingerprints(EMPTY_DB, job.src);
    var db := Stage(EMPTY_DB, job.src, staged, job.cands, ids).value;
    var places := ExtractMeans(cfg.extractor, ContentOf(cfg, u), u.locator.scope);
    assert i in places;
    var k: nat :| k < |places| && places[k] == i;
    assert CandidateFor(cfg.extractor, ContentOf(cfg, u), u.locator.scope, i, job.cands[k]);
    StageStagesAll(EMPTY_DB, job.src, staged, job.cands, ids);
    assert AllStaged(db, Job(job.src, job.cands)) && SourceTaken(db, job.src.project, job.src.message, job.cands[k].fingerprint);
    p :| p in db.proposals && db.proposals[p].project == job.src.project && db.proposals[p].message == job.src.message
         && db.proposals[p].fingerprint == job.cands[k].fingerprint;
    RowsOfStage(EMPTY_DB, job.src, staged, job.cands, ids, p);
    var m: nat :| m < |job.cands| && job.cands[m].fingerprint !in staged && db.proposals[p] == PendingRow(job.src, job.cands[m]);
    if m != k {
      InsertedIsAlone(EMPTY_DB, job.src, staged, job.cands, ids, m, k);
    }
  }

  /** Two events whose fingerprints are confused, delivered one after the other, are both completed, and a sentence of
    * the second is not proposed in its own words. */
  lemma ConfusedRun(cfg: Config, e: nat, o: nat, j: nat, i: nat) returns (acts: seq<Action>)
    requires CollisionsIgnoreScope(cfg.extractor) && Consumed(cfg, e) && Confuses(cfg, e, o, j, i)
    requires !SaysTwice(cfg.extractor, ContentOf(cfg, cfg.events[e]), cfg.events[e].locator.scope)
    ensures ConsumerStages(acts) && CompletedIn(Run(cfg, START, acts), e) && !WordsKept(cfg, Run(cfg, START, acts).mem.db, e)
  {
    hide CollisionsIgnoreScope, JobOf, Stage, StagedFingerprints, KindAt, MarkAt, Words, Pointing, SaysTwice, Extract, Run, DeliveryOf, RepeatsNew,
         CompletedIn, ConsumerStages;
    var v, u, x := cfg.events[e], cfg.events[o], cfg.extractor;
    var content := ContentOf(cfg, v);
    OtherScopeSaysOnce(x, content, v.locator.scope, u.locator.scope);
    var first, p := FirstDelivery(cfg, o, i);
    var a := DeliveryOf(0, o, "", 0.0, first);
    var w1 := Run(cfg, START, a);
    JobIff(cfg, v);
    JobCandidates(cfg, v);
    var job := JobOf(cfg, v).value;
    RepeatsIff(x, content, v.locator.scope);
    NoRepeatIsNew(StagedFingerprints(w1.mem.db, job.src), job.cands);
    var ids := IdsBeyond(w1.mem.db, |job.cands|);
    UndisturbedDelivery(cfg, w1, 1, e, "", 0.0, ids);
    var b := DeliveryOf(1, e, "", 0.0, ids);
    RunAppends(cfg, START, a, b);
    acts := a + b;
    DeliveryIsOfConsumer(0, o, "", 0.0, first);
    DeliveryIsOfConsumer(1, e, "", 0.0, ids);
    ConsumersAppend(a, b);
    NothingProposed(cfg);
    RunKeepsInv(cfg, START, a);
    RunKeepsInv(cfg, w1, b);
    OthersWords(cfg, w1.mem.db, Run(cfg, w1, b).mem.db, e, o, j, i, p);
  }

  lemma OtherScopeSaysOnce(x: Extractor, content: string, s: Scope, t: Scope)
    requires CollisionsIgnoreScope(x) && !SaysTwice(x, content, s)
    ensures !SaysTwice(x, content, t)
  {
    hide CollisionsIgnoreScope, Repeats, SaysTwice, Extract;
    RepeatsIff(x, content, s);
    RepeatsIff(x, content, t);
    if Repeats(Extract(x, content, t)) {
      RepeatsIgnoreScope(x, content, t, s);
    }
  }

  lemma ConsumersAppend(a: seq<Action>, b: seq<Action>)
    requires ConsumerStages(a) && ConsumerStages(b)
    ensures ConsumerStages(a + b)
  {
  }

  /** New ids, longer than all that are there. */
  lemma IdsBeyond(db: Db, n: nat) returns (ids: seq<Id>)
    ensures |ids| == n && FreshIds(db, ids)
  {
    var longest := LongestId(db.proposals.Keys);
    ids := seq(n, k requires 0 <= k => seq(longest + 1 + k, i => 'a'));
    forall k | 0 <= k < n ensures ids[k] !in db.proposals { assert |ids[k]| == longest + 1 + k; }
  }

  lemma {:induction false} LongestId(ids: set<Id>) returns (longest: nat)
    ensures forall id :: id in ids ==> |id| <= longest
    decreases |ids|
  {
    longest := 0;
    if ids != {} {
      var id :| id in ids;
      var others := LongestId(ids - {id});
      longest := Max(others, |id|);
    }
  }

  lemma SameMarkIsOne(db: Db, p: Id, q: Id, project: Id, message: Id, mark: string)
    requires Mem.SourcesUnique(db) && p in db.proposals && q in db.proposals
    requires Marked(db.proposals[p], project, message, mark) && Marked(db.proposals[q], project, message, mark)
    ensures p == q
  {
    assert Mem.SameSource(db, p, q);
  }

  lemma OthersWords(cfg: Config, before: Db, after: Db, e: nat, o: nat, j: nat, i: nat, p: Id)
    requires Confuses(cfg, e, o, j, i) && Mem.Later(before, after) && Mem.SourcesUnique(after) && p in before.proposals
    requires var u := cfg.events[o];
             && Marked(before.proposals[p], ProjectOf(u), MessageOf(u), MarkAt(cfg.extractor, ContentOf(cfg, u), u.locator.scope, i))
             && Some(before.proposals[p].kind) == KindAt(cfg.extractor, ContentOf(cfg, u), i)
             && before.proposals[p].content == Words(cfg.extractor, ContentOf(cfg, u), i)
    ensures !WordsKept(cfg, after, e)
  {
    hide KindAt, MarkAt, Words, Pointing;
    var v := cfg.events[e];
    if Proposed(cfg, after, v, j) {
      var q :| q in after.proposals
               && Marked(after.proposals[q], ProjectOf(v), MessageOf(v), MarkAt(cfg.extractor, ContentOf(cfg, v), v.locator.scope, j))
               && Some(after.proposals[q].kind) == KindAt(cfg.extractor, ContentOf(cfg, v), j)
               && after.proposals[q].content == Words(cfg.extractor, ContentOf(cfg, v), j);
      assert p in after.proposals && Mem.SettlesTo(before.proposals[p], after.proposals[p]);
      SameMarkIsOne(after, p, q, ProjectOf(v), MessageOf(v), MarkAt(cfg.extractor, ContentOf(cfg, v), v.locator.scope, j));
    }
  }

  /** Exactly when a completed event has each sentence proposed in its own words, in every run in which deliveries do
    * the staging: when no run completes it, or when its fingerprints are not confused. */
  lemma WordsKeptIff(cfg: Config, e: nat)
    requires CollisionsIgnoreScope(cfg.extractor) && e in cfg.events && cfg.events[e].kind == "message.accepted" && Pointing(cfg, cfg.events[e])
    ensures (forall acts :: ConsumerStages(acts) && CompletedIn(Run(cfg, START, acts), e) ==> WordsKept(cfg, Run(cfg, START, acts).mem.db, e))
            <==> SaysTwice(cfg.extractor, ContentOf(cfg, cfg.events[e]), cfg.events[e].locator.scope) || TellsApart(cfg, e)
  {
    hide CollisionsIgnoreScope, SaysTwice, Pointing, Confuses, WordsKept, Run, ConsumerStages, CompletedIn;
    if SaysTwice(cfg.extractor, ContentOf(cfg, cfg.events[e]), cfg.events[e].locator.scope) {
      CompletableIff(cfg, e);
      assert !CanComplete(cfg, e);
    } else if TellsApart(cfg, e) {
      forall acts | ConsumerStages(acts) && CompletedIn(Run(cfg, START, acts), e) ensures WordsKept(cfg, Run(cfg, START, acts).mem.db, e) {
        CompletedKeepsWords(cfg, acts, e);
      }
    } else {
      var o, j, i :| Confuses(cfg, e, o, j, i);
      var acts := ConfusedRun(cfg, e, o, j, i);
    }
  }
}

/** What becomes of an event: which events can ever be completed, and what a late report does to a
  * completed one.
  */
module IngestionOutcomes {
  import opened Basics
  import opened ProjectMemory
  import opened Ingestion
  import Mem = ProjectMemoryRuns
  import R = Receipts

  predicate CompletedIn(w: World, e: nat) { e in w.receipts && w.receipts[e].phase == R.Reported(R.Completed) }

  /** The places `i` and `j` have one fingerprint. */
  predicate SameWords(cands: seq<Candidate>, i: nat, j: nat)
    requires i < |cands| && j < |cands|
  {
    cands[i].fingerprint == cands[j].fingerprint
  }

  predicate Repeats(cands: seq<Candidate>) { exists i: nat, j: nat :: i < j < |cands| && SameWords(cands, i, j) }

  /* ---- Candidates of one message under different scopes ---- */

  /** Whether two sentences have the same fingerprint does not depend on the scope, as for a hash
    * without collisions. */
  ghost predicate CollisionsIgnoreScope(ex: Extractor) {
    forall k1, w1, k2, w2, s, t ::
      ex.fingerprint(k1, w1, s) == ex.fingerprint(k2, w2, s) ==> ex.fingerprint(k1, w1, t) == ex.fingerprint(k2, w2, t)
  }

  lemma {:induction false} CandidatesUnderScopes(ex: Extractor, sentences: seq<string>, s: Scope, t: Scope)
    ensures var a, b := CandidatesOf(ex, sentences, s), CandidatesOf(ex, sentences, t);
            && |a| == |b|
            && forall k :: 0 <= k < |a| ==>
                 && a[k].kind == b[k].kind && a[k].content == b[k].content
                 && a[k].fingerprint == ex.fingerprint(a[k].kind, a[k].content, s)
                 && b[k].fingerprint == ex.fingerprint(b[k].kind, b[k].content, t)
    decreases |sentences|
  {
    if sentences != [] {
      CandidatesUnderScopes(ex, sentences[1..], s, t);
    }
  }

  lemma RepeatsIgnoreScope(ex: Extractor, content: string, s: Scope, t: Scope)
    requires CollisionsIgnoreScope(ex) && Repeats(Extract(ex, content, s))
    ensures Repeats(Extract(ex, content, t))
  {
    var a, b := Extract(ex, content, s), Extract(ex, content, t);
    CandidatesUnderScopes(ex, Take(ex.sentences(Take(content, 12000)), 40), s, t);
    var i: nat, j: nat :| i < j < |a| && SameWords(a, i, j);
    assert SameWords(b, i, j);
  }

  /* ---- A message that repeats itself ---- */

  predicate Concerns(cfg: Config, e: nat, message: Id) {
    Consumed(cfg, e) && JobOf(cfg, cfg.events[e]).Some? && JobOf(cfg, cfg.events[e]).value.src.message == message
  }

  /** Every event of the message has candidates that repeat. */
  ghost predicate Fruitless(cfg: Config, message: Id) {
    forall e :: Concerns(cfg, e, message) ==> Repeats(JobOf(cfg, cfg.events[e]).value.cands)
  }

  lemma OneRepeatIsFruitless(cfg: Config, e: nat)
    requires CollisionsIgnoreScope(cfg.extractor) && e in cfg.events
    requires var job := JobOf(cfg, cfg.events[e]); job.Some? && Repeats(job.value.cands)
    ensures Fruitless(cfg, JobOf(cfg, cfg.events[e]).value.src.message)
  {
    hide CollisionsIgnoreScope, Repeats, Extract;
    var message := JobOf(cfg, cfg.events[e]).value.src.message;
    forall o | Concerns(cfg, o, message) ensures Repeats(JobOf(cfg, cfg.events[o]).value.cands) {
      RepeatsIgnoreScope(cfg.extractor, cfg.messages[message].content, cfg.events[e].locator.scope, cfg.events[o].locator.scope);
    }
  }

  predicate BarrenDelivery(cfg: Config, d: Delivery, message: Id) {
    match d
    case Staging(_, _, job, _, existing) => job.src.message == message && existing.Some? ==> existing.value == {}
    case Ready(event, _, verdict) => verdict == R.Completed ==> !Concerns(cfg, event, message)
    case _ => true
  }

  predicate Unproposed(db: Db, message: Id) { forall p :: p in db.proposals ==> db.proposals[p].message != message }

  /** The message has no proposal and no delivery that could complete. */
  ghost predicate Barren(cfg: Config, w: World, message: Id) {
    && Unproposed(w.mem.db, message)
    && (forall r :: r in w.deliveries ==> BarrenDelivery(cfg, w.deliveries[r], message))
    && (forall e :: CompletedIn(w, e) ==> !Concerns(cfg, e, message))
  }

  /** Staging is done by deliveries alone; reviewers and direct writers may act. */
  predicate ConsumerStages(acts: seq<Action>) { forall k :: 0 <= k < |acts| ==> !(acts[k].Govern? && acts[k].action.StageAll?) }

  lemma ReviewProposesNothing(text: Text, w: Mem.World, a: Mem.Action, message: Id)
    requires !a.StageAll? && Unproposed(w.db, message)
    ensures Unproposed(Mem.Apply(text, w, a).db, message)
  {
    hide OpenApproval, OpenRejection, RevisionTaken;
  }

  lemma TryOfRepeats(db: Db, src: Source, cands: seq<Candidate>, ids: seq<Id>)
    requires |ids| == |cands| && Repeats(cands)
    ensures Stage(db, src, {}, cands, ids).Failed?
  {
    var i: nat, j: nat :| i < j < |cands| && SameWords(cands, i, j);
    RepeatedSentenceNeverStages(db, src, {}, cands, ids, i, j);
  }

  lemma TryOfOthers(text: Text, db: Db, src: Source, existing: set<string>, cands: seq<Candidate>, ids: seq<Id>, message: Id)
    requires Mem.DbInv(text, db) && |ids| == |cands| && Stage(db, src, existing, cands, ids).Ok?
    requires Unproposed(db, message) && src.message != message
    ensures Unproposed(Stage(db, src, existing, cands, ids).value, message)
  {
    hide Mem.DbInv, Stage;
    Mem.StageOnlyAddsPending(text, db, src, existing, cands, ids);
  }

  lemma BarrenTables(cfg: Config, w: World, a: Action, message: Id)
    requires Inv(cfg, w) && Fruitless(cfg, message) && Barren(cfg, w, message)
    requires !(a.Govern? && a.action.StageAll?)
    ensures Unproposed(Apply(cfg, w, a).mem.db, message)
  {
    hide Mem.DbInv, Stage, Repeats, JobOf, Unproposed, R.Step, Advance, Mem.Apply;
    if !Enabled(cfg, w, a) {
    } else if a.Govern? {
      ReviewProposesNothing(cfg.text, w.mem, a.action, message);
    } else {
      WorkerDbIsNext(cfg, w, a);
      if a.CommitStage? {
        var d := w.deliveries[a.run];
        assert DeliverySound(cfg, w.mem.db, d) && BarrenDelivery(cfg, d, message);
        if d.job.src.message == message {
          assert Concerns(cfg, d.event, message);
          TryOfRepeats(w.mem.db, d.job.src, d.job.cands, a.ids);
        } else if Stage(w.mem.db, d.job.src, d.existing.value, d.job.cands, a.ids).Ok? {
          TryOfOthers(cfg.text, w.mem.db, d.job.src, d.existing.value, d.job.cands, a.ids, message);
        }
      }
    }
  }

  lemma BarrenAdvance(cfg: Config, w: World, a: Action, message: Id)
    requires Enabled(cfg, w, a) && !a.Govern? && !a.DeleteMessage? && Advance(cfg, w, a).Some?
    requires RunOf(a) in w.deliveries ==>
               DeliverySound(cfg, w.mem.db, w.deliveries[RunOf(a)]) && BarrenDelivery(cfg, w.deliveries[RunOf(a)], message)
    requires Fruitless(cfg, message) && Unproposed(w.mem.db, message)
    ensures BarrenDelivery(cfg, Advance(cfg, w, a).value, message)
  {
    hide JobOf, Stage, EventStaged, R.Wins;
    match a {
      case Locate(run) =>
        var e := w.deliveries[run].event;
        if Concerns(cfg, e, message) {
          assert Repeats(JobOf(cfg, cfg.events[e]).value.cands);
        }
      case CommitStage(run, ids, listed) =>
        var d := w.deliveries[run];
        if d.job.src.message == message {
          assert Concerns(cfg, d.event, message);
          TryOfRepeats(w.mem.db, d.job.src, d.job.cands, ids);
        }
      case _ =>
    }
  }

  lemma StepKeepsBarren(cfg: Config, w: World, a: Action, message: Id)
    requires Inv(cfg, w) && Fruitless(cfg, message) && Barren(cfg, w, message)
    requires !(a.Govern? && a.action.StageAll?)
    ensures Barren(cfg, Apply(cfg, w, a), message)
  {
    hide Mem.Inv, Mem.Apply, Stage, JobOf, Unproposed, Advance, Fruitless, BarrenDelivery, DeliverySound, Concerns;
    BarrenTables(cfg, w, a, message);
    var w' := Apply(cfg, w, a);
    forall r | r in w'.deliveries ensures BarrenDelivery(cfg, w'.deliveries[r], message) {
      if !(r in w.deliveries && w'.deliveries[r] == w.deliveries[r]) {
        BarrenAdvance(cfg, w, a, message);
      }
    }
    forall e | CompletedIn(w', e) ensures !Concerns(cfg, e, message) {
      if !CompletedIn(w, e) {
        var d := w.deliveries[RunOf(a)];
        assert a.Report? && d.Ready? && d.event == e && d.verdict == R.Completed && BarrenDelivery(cfg, d, message);
        NotConcerned(cfg, d, message);
      }
    }
  }

  lemma NotConcerned(cfg: Config, d: Delivery, message: Id)
    requires BarrenDelivery(cfg, d, message) && d.Ready? && d.verdict == R.Completed
    ensures !Concerns(cfg, d.event, message)
  {
  }

  lemma {:induction false} RunKeepsBarren(cfg: Config, w: World, acts: seq<Action>, message: Id)
    requires Inv(cfg, w) && Fruitless(cfg, message) && Barren(cfg, w, message) && ConsumerStages(acts)
    ensures Barren(cfg, Run(cfg, w, acts), message)
    decreases |acts|
  {
    hide Inv, Barren, Fruitless, Apply;
    if acts != [] {
      StepKeepsInv(cfg, w, acts[0]);
      StepKeepsBarren(cfg, w, acts[0], message);
      RunKeepsBarren(cfg, Apply(cfg, w, acts[0]), acts[1..], message);
    }
  }

  /** If under the scope of each of its events a message has two sentences of one fingerprint, it never has a
    * proposal, and none of these events is ever completed, however often they are delivered. */
  lemma RepeatedMessageStaysOut(cfg: Config, acts: seq<Action>, message: Id)
    requires Fruitless(cfg, message) && ConsumerStages(acts)
    ensures Unproposed(Run(cfg, START, acts).mem.db, message)
    ensures forall e :: Concerns(cfg, e, message) ==> !CompletedIn(Run(cfg, START, acts), e)
  {
    hide JobOf, Repeats, Fruitless, Run;
    RunKeepsBarren(cfg, START, acts, message);
  }

  /* ---- One delivery that nothing disturbs ---- */

  /** What the worker of one delivery does when all goes well. Once the claim is won by taking over, or
    * once there is nothing to stage, the actions that are not needed do nothing. */
  function DeliveryOf(run: nat, e: nat, worker: string, now: real, ids: seq<Id>): seq<Action> {
    [Probe(run, e, worker, now), InsertClaim(run), Locate(run), BeginStage(run, true), CommitStage(run, ids, true), Report(run, now)]
  }

  /** No receipt but that of `event` has changed. */
  ghost predicate OtherReceipts(before: World, w: World, event: nat) {
    forall e :: e != event ==> (e in w.receipts <==> e in before.receipts) && (e in w.receipts ==> w.receipts[e] == before.receipts[e])
  }

  /** The delivery `run` holds `d`, its event's receipt is being processed, and nothing else has changed. */
  ghost predicate Holds(before: World, w: World, run: nat, d: Delivery, db: Db) {
    && run in w.deliveries && w.deliveries[run] == d && w.deleted == before.deleted && w.mem.db == db
    && d.event in w.receipts && w.receipts[d.event].phase == R.Processing && OtherReceipts(before, w, d.event)
    && (forall r :: r in before.deliveries && r != run ==> r in w.deliveries && w.deliveries[r] == before.deliveries[r])
    && w.deliveries.Keys <= before.deliveries.Keys + {run}
  }

  /** An event that a new delivery can claim. */
  predicate Due(cfg: Config, w: World, run: nat, e: nat, now: real) {
    && run !in w.deliveries && e in cfg.events && cfg.events[e].kind == EVENT_TYPE
    && (e in w.receipts ==> R.Claimable(cfg.lease, w.receipts[e], now))
  }

  /** An unclaimed event whose message can be staged. */
  predicate Deliverable(cfg: Config, w: World, run: nat, e: nat, now: real) {
    Due(cfg, w, run, e, now) && JobOf(cfg, cfg.events[e]).Some? && JobOf(cfg, cfg.events[e]).value.src.message !in w.deleted
  }

  lemma ClaimStep(cfg: Config, w: World, run: nat, e: nat, worker: string, now: real) returns (attempts: nat)
    requires Due(cfg, w, run, e, now)
    ensures var w1 := Apply(cfg, Apply(cfg, w, Probe(run, e, worker, now)), InsertClaim(run));
            Holds(w, w1, run, Claimed(e, attempts), w.mem.db)
    ensures attempts == if e in w.receipts then w.receipts[e].attempts + 1 else 1
  {
    hide JobOf, Stage;
    attempts := if e in w.receipts then w.receipts[e].attempts + 1 else 1;
  }

  lemma LocateStep(cfg: Config, before: World, w: World, run: nat, e: nat, attempts: nat)
    requires Holds(before, w, run, Claimed(e, attempts), before.mem.db)
    requires e in cfg.events && JobOf(cfg, cfg.events[e]).Some? && JobOf(cfg, cfg.events[e]).value.src.message !in w.deleted
    ensures var job := JobOf(cfg, cfg.events[e]).value;
            Holds(before, Apply(cfg, w, Locate(run)), run,
                  if job.cands == [] then Ready(e, attempts, R.Completed) else Staging(e, attempts, job, 0, None), before.mem.db)
  {
    hide JobOf, Stage;
  }

  lemma BeginStep(cfg: Config, before: World, w: World, run: nat, d: Delivery)
    requires d.Staging? && d.existing.None? && d.job.src.message !in w.deleted && Holds(before, w, run, d, before.mem.db)
    ensures Holds(before, Apply(cfg, w, BeginStage(run, true)), run,
                  d.(existing := Some(StagedFingerprints(before.mem.db, d.job.src))), before.mem.db)
  {
    hide Stage, StagedFingerprints;
  }

  lemma CommitStep(cfg: Config, before: World, w: World, run: nat, d: Delivery, ids: seq<Id>)
    requires d.Staging? && d.existing.Some? && d.tries == 0 && |ids| == |d.job.cands| && Holds(before, w, run, d, before.mem.db)
    ensures var tried := Stage(before.mem.db, d.job.src, d.existing.value, d.job.cands, ids);
            Holds(before, Apply(cfg, w, CommitStage(run, ids, true)), run,
                  if tried.Ok? then Ready(d.event, d.attempts, R.Completed) else d.(tries := 1, existing := None),
                  Mem.After(before.mem.db, tried))
  {
    hide Stage, Mem.CommitTxn, OpenApproval, OpenRejection;
  }

  lemma StageSteps(cfg: Config, before: World, w: World, run: nat, e: nat, attempts: nat, job: Job, ids: seq<Id>)
    requires Holds(before, w, run, Staging(e, attempts, job, 0, None), before.mem.db)
    requires job.src.message !in w.deleted && |ids| == |job.cands|
    ensures var tried := Stage(before.mem.db, job.src, StagedFingerprints(before.mem.db, job.src), job.cands, ids);
            Holds(before, Apply(cfg, Apply(cfg, w, BeginStage(run, true)), CommitStage(run, ids, true)), run,
                  if tried.Ok? then Ready(e, attempts, R.Completed) else Staging(e, attempts, job, 1, None),
                  Mem.After(before.mem.db, tried))
  {
    hide Stage, StagedFingerprints, Apply, Holds, Mem.After;
    BeginStep(cfg, before, w, run, Staging(e, attempts, job, 0, None));
    CommitStep(cfg, before, Apply(cfg, w, BeginStage(run, true)), run,
               Staging(e, attempts, job, 0, Some(StagedFingerprints(before.mem.db, job.src))), ids);
  }

  lemma NothingToStage(cfg: Config, w: World, run: nat, ids: seq<Id>)
    requires run in w.deliveries && w.deliveries[run].Ready?
    ensures Apply(cfg, Apply(cfg, w, BeginStage(run, true)), CommitStage(run, ids, true)) == w
  {
  }

  lemma ReportStep(cfg: Config, before: World, w: World, run: nat, d: Delivery, db: Db, now: real)
    requires Holds(before, w, run, d, db) && (d.Ready? || d.Staging?)
    ensures var w1 := Apply(cfg, w, Report(run, now));
            && w1.mem.db == db && w1.deleted == before.deleted && OtherReceipts(before, w1, d.event)
            && (CompletedIn(w1, d.event) <==> d.Ready? && d.verdict == R.Completed)
            && (forall r :: r in before.deliveries && r != run ==> r in w1.deliveries && w1.deliveries[r] == before.deliveries[r])
            && w1.deliveries.Keys <= before.deliveries.Keys + {run}
  {
    hide Stage;
  }

  lemma RunOfSix(cfg: Config, w: World, a: seq<Action>)
    requires |a| == 6
    ensures Run(cfg, w, a) ==
              Apply(cfg, Apply(cfg, Apply(cfg, Apply(cfg, Apply(cfg, Apply(cfg, w, a[0]), a[1]), a[2]), a[3]), a[4]), a[5])
  {
    hide Apply;
    RunOfThree(cfg, w, a);
    RunOfThree(cfg, Apply(cfg, Apply(cfg, Apply(cfg, w, a[0]), a[1]), a[2]), a[3..]);
    assert a[3..][3..] == [];
  }

  lemma RunOfThree(cfg: Config, w: World, a: seq<Action>)
    requires |a| >= 3
    ensures Run(cfg, w, a) == Run(cfg, Apply(cfg, Apply(cfg, Apply(cfg, w, a[0]), a[1]), a[2]), a[3..])
  {
    hide Apply;
    RunOfOne(cfg, w, a);
    RunOfOne(cfg, Apply(cfg, w, a[0]), a[1..]);
    RunOfOne(cfg, Apply(cfg, Apply(cfg, w, a[0]), a[1]), a[2..]);
    assert a[1..][1..] == a[2..] && a[2..][1..] == a[3..];
  }

  lemma RunOfOne(cfg: Config, w: World, a: seq<Action>)
    requires a != []
    ensures Run(cfg, w, a) == Run(cfg, Apply(cfg, w, a[0]), a[1..])
  {
  }

  predicate FreshIds(db: Db, ids: seq<Id>) {
    forall k :: 0 <= k < |ids| ==> ids[k] !in db.proposals && forall j :: 0 <= j < k ==> ids[j] != ids[k]
  }

  /** Two candidates that are not staged yet have one fingerprint. */
  predicate RepeatsNew(staged: set<string>, cands: seq<Candidate>) {
    exists i: nat, j: nat :: i < j < |cands| && SameWords(cands, i, j) && cands[i].fingerprint !in staged
  }

  lemma StagedIsTaken(db: Db, src: Source, fingerprint: string)
    ensures fingerprint in StagedFingerprints(db, src) <==> SourceTaken(db, src.project, src.message, fingerprint)
  {
    if SourceTaken(db, src.project, src.message, fingerprint) {
      var p :| p in db.proposals && db.proposals[p].project == src.project && db.proposals[p].message == src.message
                 && db.proposals[p].fingerprint == fingerprint;
    }
  }

  /** A try right after its read, with new ids, fails exactly over a repetition. */
  lemma FreshTryIff(db: Db, src: Source, cands: seq<Candidate>, ids: seq<Id>)
    requires |ids| == |cands| && FreshIds(db, ids)
    ensures Stage(db, src, StagedFingerprints(db, src), cands, ids).Ok? <==> !RepeatsNew(StagedFingerprints(db, src), cands)
  {
    hide Stage, StagedFingerprints, SourceTaken;
    var existing := StagedFingerprints(db, src);
    StageSucceedsIff(db, src, existing, cands, ids);
    if RepeatsNew(existing, cands) {
      var i: nat, j: nat :| i < j < |cands| && SameWords(cands, i, j) && cands[i].fingerprint !in existing;
      assert !Insertable(db, src, existing, cands, ids, j);
    } else {
      forall k | 0 <= k < |cands| ensures Insertable(db, src, existing, cands, ids, k) {
        StagedIsTaken(db, src, cands[k].fingerprint);
        forall j | 0 <= j < k && cands[j].fingerprint !in existing ensures cands[j].fingerprint != cands[k].fingerprint {
          assert SameWords(cands, j, k) <==> cands[j].fingerprint == cands[k].fingerprint;
        }
      }
    }
  }

  /** In any state, a delivery that nothing disturbs completes its event if and only if the candidates not
    * staged yet have pairwise different fingerprints. */
  lemma UndisturbedDelivery(cfg: Config, w: World, run: nat, e: nat, worker: string, now: real, ids: seq<Id>)
    requires Deliverable(cfg, w, run, e, now)
    requires |ids| == |JobOf(cfg, cfg.events[e]).value.cands| && FreshIds(w.mem.db, ids)
    ensures var w1, job := Run(cfg, w, DeliveryOf(run, e, worker, now, ids)), JobOf(cfg, cfg.events[e]).value;
            && (CompletedIn(w1, e) <==> !RepeatsNew(StagedFingerprints(w.mem.db, job.src), job.cands))
            && w1.mem.db == Mem.After(w.mem.db, Stage(w.mem.db, job.src, StagedFingerprints(w.mem.db, job.src), job.cands, ids))
            && w1.deleted == w.deleted && OtherReceipts(w, w1, e)
            && (forall r :: r in w.deliveries && r != run ==> r in w1.deliveries && w1.deliveries[r] == w.deliveries[r])
            && w1.deliveries.Keys <= w.deliveries.Keys + {run}
  {
    hide Apply, JobOf, Stage, StagedFingerprints, Holds, RepeatsNew, FreshIds, CompletedIn;
    var job, acts := JobOf(cfg, cfg.events[e]).value, DeliveryOf(run, e, worker, now, ids);
    RunOfSix(cfg, w, acts);
    var attempts := ClaimStep(cfg, w, run, e, worker, now);
    var w1 := Apply(cfg, Apply(cfg, w, acts[0]), acts[1]);
    KeepsDeleted(w, w1, run, Claimed(e, attempts), w.mem.db);
    LocateStep(cfg, w, w1, run, e, attempts);
    var w2 := Apply(cfg, w1, acts[2]);
    FreshTryIff(w.mem.db, job.src, job.cands, ids);
    if job.cands == [] {
      KeepsDeleted(w, w2, run, Ready(e, attempts, R.Completed), w.mem.db);
      NothingToStage(cfg, w2, run, ids);
      ReportStep(cfg, w, w2, run, Ready(e, attempts, R.Completed), w.mem.db, now);
      assert !RepeatsNew(StagedFingerprints(w.mem.db, job.src), job.cands) by { NothingRepeats(StagedFingerprints(w.mem.db, job.src)); }
      StageNothing(w.mem.db, job.src, StagedFingerprints(w.mem.db, job.src));
    } else {
      KeepsDeleted(w, w2, run, Staging(e, attempts, job, 0, None), w.mem.db);
      StageSteps(cfg, w, w2, run, e, attempts, job, ids);
      var tried := Stage(w.mem.db, job.src, StagedFingerprints(w.mem.db, job.src), job.cands, ids);
      ReportStep(cfg, w, Apply(cfg, Apply(cfg, w2, acts[3]), acts[4]), run,
                 if tried.Ok? then Ready(e, attempts, R.Completed) else Staging(e, attempts, job, 1, None),
                 Mem.After(w.mem.db, tried), now);
    }
  }

  lemma StageNothing(db: Db, src: Source, existing: set<string>)
    ensures Stage(db, src, existing, [], []) == Ok(db)
  {
  }

  lemma NothingRepeats(staged: set<string>)
    ensures !RepeatsNew(staged, [])
  {
  }

  lemma LocateNothing(cfg: Config, before: World, w: World, run: nat, e: nat, attempts: nat)
    requires Holds(before, w, run, Claimed(e, attempts), before.mem.db) && e in cfg.events
    requires JobOf(cfg, cfg.events[e]).Some? ==> JobOf(cfg, cfg.events[e]).value.src.message in w.deleted
    ensures Holds(before, Apply(cfg, w, Locate(run)), run, Ready(e, attempts, R.Ignored), before.mem.db)
  {
    hide JobOf, Stage;
  }

  lemma ReportedAs(cfg: Config, before: World, w: World, run: nat, d: Delivery, db: Db, now: real)
    requires Holds(before, w, run, d, db) && d.Ready?
    ensures d.event in Apply(cfg, w, Report(run, now)).receipts
    ensures Apply(cfg, w, Report(run, now)).receipts[d.event].phase == R.Reported(d.verdict)
    ensures d.verdict == R.Failed ==>
              Apply(cfg, w, Report(run, now)).receipts[d.event].availableAt == now + R.WAITS[Min(Max(1, d.attempts), 8) - 1]
  {
    hide Stage, R.Backoff;
    R.WaitsOf(d.attempts);
  }

  /** A delivery of an event without a job, or whose message was deleted, ends with the receipt ignored and changes
    * nothing else. */
  lemma IgnoredDelivery(cfg: Config, w: World, run: nat, e: nat, worker: string, now: real, ids: seq<Id>)
    requires Due(cfg, w, run, e, now)
    requires JobOf(cfg, cfg.events[e]).Some? ==> JobOf(cfg, cfg.events[e]).value.src.message in w.deleted
    ensures var w1 := Run(cfg, w, DeliveryOf(run, e, worker, now, ids));
            e in w1.receipts && w1.receipts[e].phase == R.Reported(R.Ignored) && w1.mem.db == w.mem.db && OtherReceipts(w, w1, e)
  {
    hide Apply, JobOf, Holds, CompletedIn;
    var acts := DeliveryOf(run, e, worker, now, ids);
    RunOfSix(cfg, w, acts);
    var attempts := ClaimStep(cfg, w, run, e, worker, now);
    var w1 := Apply(cfg, Apply(cfg, w, acts[0]), acts[1]);
    KeepsDeleted(w, w1, run, Claimed(e, attempts), w.mem.db);
    LocateNothing(cfg, w, w1, run, e, attempts);
    var w2, d := Apply(cfg, w1, acts[2]), Ready(e, attempts, R.Ignored);
    KeepsDeleted(w, w2, run, d, w.mem.db);
    NothingToStage(cfg, w2, run, ids);
    ReportStep(cfg, w, w2, run, d, w.mem.db, now);
    ReportedAs(cfg, w, w2, run, d, w.mem.db, now);
  }

  lemma RefusedCommit(cfg: Config, before: World, w: World, run: nat, d: Delivery, ids: seq<Id>)
    requires d.Staging? && d.existing.Some? && |ids| == |d.job.cands| && Holds(before, w, run, d, before.mem.db)
    requires Stage(before.mem.db, d.job.src, d.existing.value, d.job.cands, ids).Failed?
    ensures Holds(before, Apply(cfg, w, CommitStage(run, ids, true)), run,
                  if d.tries >= 3 then Ready(d.event, d.attempts, R.Failed) else d.(tries := d.tries + 1, existing := None), before.mem.db)
  {
    hide Stage, Mem.CommitTxn, OpenApproval, OpenRejection;
  }

  /** A try that is refused is repeated, three times in all; after the fourth the delivery has failed. */
  lemma RefusedTry(cfg: Config, before: World, w: World, run: nat, e: nat, attempts: nat, job: Job, tries: nat, ids: seq<Id>)
    requires Holds(before, w, run, Staging(e, attempts, job, tries, None), before.mem.db)
    requires job.src.message !in before.deleted && |ids| == |job.cands|
    requires Stage(before.mem.db, job.src, StagedFingerprints(before.mem.db, job.src), job.cands, ids).Failed?
    ensures Holds(before, Apply(cfg, Apply(cfg, w, BeginStage(run, true)), CommitStage(run, ids, true)), run,
                  if tries >= 3 then Ready(e, attempts, R.Failed) else Staging(e, attempts, job, tries + 1, None), before.mem.db)
  {
    hide Stage, StagedFingerprints, Apply, Holds;
    KeepsDeleted(before, w, run, Staging(e, attempts, job, tries, None), before.mem.db);
    BeginStep(cfg, before, w, run, Staging(e, attempts, job, tries, None));
    RefusedCommit(cfg, before, Apply(cfg, w, BeginStage(run, true)), run,
                  Staging(e, attempts, job, tries, Some(StagedFingerprints(before.mem.db, job.src))), ids);
  }

  /** A delivery with four tries. */
  function PersistentDelivery(run: nat, e: nat, worker: string, now: real, ids: seq<Id>): seq<Action> {
    [Probe(run, e, worker, now), InsertClaim(run), Locate(run), BeginStage(run, true), CommitStage(run, ids, true), BeginStage(run, true),
     CommitStage(run, ids, true), BeginStage(run, true), CommitStage(run, ids, true), BeginStage(run, true), CommitStage(run, ids, true),
     Report(run, now)]
  }

  /** The number of the next attempt. */
  function AttemptOf(w: World, e: nat): nat { if e in w.receipts then w.receipts[e].attempts + 1 else 1 }

  /** A delivery of a message that repeats itself ends, after four tries, with the receipt failed, due again after the
    * wait of this attempt, and changes nothing else. */
  lemma RefusedDeliveryFails(cfg: Config, w: World, run: nat, e: nat, worker: string, now: real, ids: seq<Id>)
    requires Deliverable(cfg, w, run, e, now)
    requires |ids| == |JobOf(cfg, cfg.events[e]).value.cands| && FreshIds(w.mem.db, ids)
    requires var job := JobOf(cfg, cfg.events[e]).value; RepeatsNew(StagedFingerprints(w.mem.db, job.src), job.cands)
    ensures var w1 := Run(cfg, w, PersistentDelivery(run, e, worker, now, ids));
            && e in w1.receipts && w1.receipts[e].phase == R.Reported(R.Failed) && w1.mem.db == w.mem.db && OtherReceipts(w, w1, e)
            && w1.receipts[e].availableAt == now + R.WAITS[Min(Max(1, AttemptOf(w, e)), 8) - 1]
  {
    hide Apply, JobOf, Stage, StagedFingerprints, Holds, RepeatsNew, FreshIds, CompletedIn;
    var job, acts := JobOf(cfg, cfg.events[e]).value, PersistentDelivery(run, e, worker, now, ids);
    RunOfSix(cfg, w, acts[..6]);
    RunAppends(cfg, w, acts[..6], acts[6..]);
    assert acts[..6] + acts[6..] == acts;
    RunOfSix(cfg, Run(cfg, w, acts[..6]), acts[6..]);
    FreshTryIff(w.mem.db, job.src, job.cands, ids);
    NothingRepeats(StagedFingerprints(w.mem.db, job.src));
    var attempts := ClaimStep(cfg, w, run, e, worker, now);
    var w1 := Apply(cfg, Apply(cfg, w, acts[0]), acts[1]);
    KeepsDeleted(w, w1, run, Claimed(e, attempts), w.mem.db);
    LocateStep(cfg, w, w1, run, e, attempts);
    var w2 := Apply(cfg, w1, acts[2]);
    RefusedTry(cfg, w, w2, run, e, attempts, job, 0, ids);
    var w3 := Apply(cfg, Apply(cfg, w2, acts[3]), acts[4]);
    RefusedTry(cfg, w, w3, run, e, attempts, job, 1, ids);
    var w4 := Apply(cfg, Apply(cfg, w3, acts[5]), acts[6]);
    RefusedTry(cfg, w, w4, run, e, attempts, job, 2, ids);
    var w5 := Apply(cfg, Apply(cfg, w4, acts[7]), acts[8]);
    RefusedTry(cfg, w, w5, run, e, attempts, job, 3, ids);
    var w6 := Apply(cfg, Apply(cfg, w5, acts[9]), acts[10]);
    ReportStep(cfg, w, w6, run, Ready(e, attempts, R.Failed), w.mem.db, now);
    ReportedAs(cfg, w, w6, run, Ready(e, attempts, R.Failed), w.mem.db, now);
  }

  lemma StagedTaken(db: Db, src: Source)
    ensures forall f :: f in StagedFingerprints(db, src) ==> SourceTaken(db, src.project, src.message, f)
  {
  }

  lemma UnlistedCommit(cfg: Config, before: World, w: World, run: nat, d: Delivery, ids: seq<Id>)
    requires d.Staging? && d.existing.Some? && |ids| == |d.job.cands| && Holds(before, w, run, d, before.mem.db)
    requires Stage(before.mem.db, d.job.src, d.existing.value, d.job.cands, ids).Ok?
    ensures Holds(before, Apply(cfg, w, CommitStage(run, ids, false)), run, Ready(d.event, d.attempts, R.Failed),
                  Stage(before.mem.db, d.job.src, d.existing.value, d.job.cands, ids).value)
  {
    hide Stage, Mem.CommitTxn, OpenApproval, OpenRejection;
  }

  /** A delivery whose proposals are staged and cannot be read back ends with the receipt failed, and the proposals stay. */
  lemma UnlistedDeliveryFails(cfg: Config, w: World, run: nat, e: nat, worker: string, now: real, ids: seq<Id>)
    requires Deliverable(cfg, w, run, e, now) && JobOf(cfg, cfg.events[e]).value.cands != []
    requires |ids| == |JobOf(cfg, cfg.events[e]).value.cands| && FreshIds(w.mem.db, ids)
    requires var job := JobOf(cfg, cfg.events[e]).value; !RepeatsNew(StagedFingerprints(w.mem.db, job.src), job.cands)
    ensures var w1, job := Run(cfg, w, DeliveryOf(run, e, worker, now, ids)[4 := CommitStage(run, ids, false)]), JobOf(cfg, cfg.events[e]).value;
            && e in w1.receipts && w1.receipts[e].phase == R.Reported(R.Failed)
            && Stage(w.mem.db, job.src, StagedFingerprints(w.mem.db, job.src), job.cands, ids) == Ok(w1.mem.db)
            && AllStaged(w1.mem.db, job)
  {
    hide Apply, JobOf, Stage, StagedFingerprints, Holds, RepeatsNew, FreshIds, CompletedIn, AllStaged;
    var job, acts := JobOf(cfg, cfg.events[e]).value, DeliveryOf(run, e, worker, now, ids)[4 := CommitStage(run, ids, false)];
    RunOfSix(cfg, w, acts);
    FreshTryIff(w.mem.db, job.src, job.cands, ids);
    var attempts := ClaimStep(cfg, w, run, e, worker, now);
    var w1 := Apply(cfg, Apply(cfg, w, acts[0]), acts[1]);
    KeepsDeleted(w, w1, run, Claimed(e, attempts), w.mem.db);
    LocateStep(cfg, w, w1, run, e, attempts);
    var w2, existing := Apply(cfg, w1, acts[2]), StagedFingerprints(w.mem.db, job.src);
    KeepsDeleted(w, w2, run, Staging(e, attempts, job, 0, None), w.mem.db);
    BeginStep(cfg, w, w2, run, Staging(e, attempts, job, 0, None));
    var w3 := Apply(cfg, w2, acts[3]);
    UnlistedCommit(cfg, w, w3, run, Staging(e, attempts, job, 0, Some(existing)), ids);
    var db := Stage(w.mem.db, job.src, existing, job.cands, ids).value;
    ReportStep(cfg, w, Apply(cfg, w3, acts[4]), run, Ready(e, attempts, R.Failed), db, now);
    ReportedAs(cfg, w, Apply(cfg, w3, acts[4]), run, Ready(e, attempts, R.Failed), db, now);
    StagedTaken(w.mem.db, job.src);
    StageStagesAll(w.mem.db, job.src, existing, job.cands, ids);
  }

  lemma KeepsDeleted(before: World, w: World, run: nat, d: Delivery, db: Db)
    requires Holds(before, w, run, d, db)
    ensures run in w.deliveries && w.deliveries[run] == d && w.deleted == before.deleted
  {
  }

  /* ---- Which events can be completed ---- */

  function NewIds(n: nat): (ids: seq<Id>)
    ensures |ids| == n && forall k :: 0 <= k < n ==> |ids[k]| == k
  {
    seq(n, k requires 0 <= k => seq(k, i => 'a'))
  }

  ghost predicate CanComplete(cfg: Config, e: nat) {
    exists acts :: ConsumerStages(acts) && CompletedIn(Run(cfg, START, acts), e)
  }

  /** An event that leads to a job without repetitions is completed in some run. */
  lemma DistinctIsCompleted(cfg: Config, e: nat)
    requires Consumed(cfg, e) && JobOf(cfg, cfg.events[e]).Some? && !Repeats(JobOf(cfg, cfg.events[e]).value.cands)
    ensures CanComplete(cfg, e)
  {
    hide JobOf, Repeats, RepeatsNew, Run, DeliveryOf;
    var job := JobOf(cfg, cfg.events[e]).value;
    var ids := NewIds(|job.cands|);
    var acts := DeliveryOf(0, e, "", 0.0, ids);
    UndisturbedDelivery(cfg, START, 0, e, "", 0.0, ids);
    NoRepeatIsNew(StagedFingerprints(EMPTY_DB, job.src), job.cands);
    DeliveryIsOfConsumer(0, e, "", 0.0, ids);
    assert ConsumerStages(acts) && CompletedIn(Run(cfg, START, acts), e);
  }

  /** Exactly which messages are ever ingested: those of which some event leads to a job whose candidates all
    * have different fingerprints. */
  lemma MessageCanCompleteIff(cfg: Config, message: Id)
    ensures (exists e :: Concerns(cfg, e, message) && CanComplete(cfg, e)) <==> !Fruitless(cfg, message)
  {
    hide JobOf, Repeats, Run;
    if Fruitless(cfg, message) {
      forall e | Concerns(cfg, e, message) ensures !CanComplete(cfg, e) {
        forall acts | ConsumerStages(acts) ensures !CompletedIn(Run(cfg, START, acts), e) {
          RepeatedMessageStaysOut(cfg, acts, message);
        }
      }
    } else {
      var e :| Concerns(cfg, e, message) && !Repeats(JobOf(cfg, cfg.events[e]).value.cands);
      DistinctIsCompleted(cfg, e);
    }
  }

  /** Exactly which events are completed in some run: those of the consumer that lead to a job whose candidates
    * all have different fingerprints, if that does not depend on the scope. */
  lemma CanCompleteIff(cfg: Config, e: nat)
    requires CollisionsIgnoreScope(cfg.extractor)
    ensures CanComplete(cfg, e) <==>
              Consumed(cfg, e) && JobOf(cfg, cfg.events[e]).Some? && !Repeats(JobOf(cfg, cfg.events[e]).value.cands)
  {
    hide CollisionsIgnoreScope, JobOf, Repeats, Run, Fruitless;
    if CanComplete(cfg, e) {
      var acts :| ConsumerStages(acts) && CompletedIn(Run(cfg, START, acts), e);
      CompletedMeansStagedExactlyOnce(cfg, acts, e);
      if Repeats(JobOf(cfg, cfg.events[e]).value.cands) {
        OneRepeatIsFruitless(cfg, e);
        RepeatedMessageStaysOut(cfg, acts, JobOf(cfg, cfg.events[e]).value.src.message);
      }
    }
    if Consumed(cfg, e) && JobOf(cfg, cfg.events[e]).Some? && !Repeats(JobOf(cfg, cfg.events[e]).value.cands) {
      DistinctIsCompleted(cfg, e);
    }
  }

  lemma NoRepeatIsNew(staged: set<string>, cands: seq<Candidate>)
    requires !Repeats(cands)
    ensures !RepeatsNew(staged, cands)
  {
  }

  lemma DeliveryIsOfConsumer(run: nat, e: nat, worker: string, now: real, ids: seq<Id>)
    ensures ConsumerStages(DeliveryOf(run, e, worker, now, ids))
  {
  }

  /** A splitter that finds every text twice. */
  const TWICE := Extractor((s: string) => [s, s], (s: string) => Some("fact"), (k: string, w: string, s: Scope) => w, (k: string, w: string) => w)

  lemma TwiceRepeats(scope: Scope)
    ensures CollisionsIgnoreScope(TWICE) && Repeats(Extract(TWICE, "x", scope))
  {
    var cands := Extract(TWICE, "x", scope);
    assert cands == CandidatesOf(TWICE, ["x", "x"], scope) && ["x", "x"][1..] == ["x"];
    assert SameWords(cands, 0, 1);
  }

  const SAID_TWICE := Event(EVENT_TYPE, "w", "c", "m", Locator(Some(LOCATOR_VERSION), "j", "a", "a", "p", Scope(None, None, None, None)))

  /** One such event: a user message that says the same sentence twice. */
  lemma SaidTwice(text: Text, lease: real)
    ensures var cfg := Config(text, lease, TWICE, map[0 := SAID_TWICE], map["m" := Message("c", "user", "x")]);
            JobOf(cfg, cfg.events[0]).Some? && !CanComplete(cfg, 0)
  {
    hide CanComplete, CollisionsIgnoreScope, Repeats, Extract;
    var cfg := Config(text, lease, TWICE, map[0 := SAID_TWICE], map["m" := Message("c", "user", "x")]);
    assert Strip("m") == "m" && Strip("j") == "j" && Strip("a") == "a" && Strip("p") == "p";
    TwiceRepeats(SAID_TWICE.locator.scope);
    CanCompleteIff(cfg, 0);
  }

  /* ---- A late report ---- */

  lemma {:induction false} RunAppends(cfg: Config, w: World, a: seq<Action>, b: seq<Action>)
    ensures Run(cfg, w, a + b) == Run(cfg, Run(cfg, w, a), b)
    decreases |a|
  {
    hide Apply;
    if a == [] {
      assert a + b == b;
    } else {
      assert (a + b)[1..] == a[1..] + b;
      RunAppends(cfg, Apply(cfg, w, a[0]), a[1..], b);
    }
  }

  /** A worker that claims the event, locates it and then finds that it may not stage. */
  function Refused(run: nat, e: nat): seq<Action> { [Probe(run, e, "", 0.0), InsertClaim(run), Locate(run), BeginStage(run, false)] }

  lemma RefusedDelivery(cfg: Config, e: nat)
    requires Deliverable(cfg, START, 1, e, 0.0) && JobOf(cfg, cfg.events[e]).value.cands != []
    ensures var w := Run(cfg, START, Refused(1, e));
            && w.mem.db == EMPTY_DB && w.deliveries == map[1 := Ready(e, 1, R.Failed)] && w.deleted == {}
            && e in w.receipts && w.receipts[e].phase == R.Processing && w.receipts[e].claimedAt == 0.0
  {
    hide JobOf, Stage;
    RunOfThree(cfg, START, Refused(1, e));
    assert Refused(1, e)[3..] == [BeginStage(1, false)];
  }

  /** A completed receipt does not stay completed: a worker whose lease was taken over reports its failure
    * after the event was completed, and the receipt is failed. So it goes for every event that has anything
    * to stage. */
  lemma LateReportUndoes(cfg: Config, e: nat) returns (acts: seq<Action>, n: nat)
    requires e in cfg.events && cfg.events[e].kind == EVENT_TYPE && JobOf(cfg, cfg.events[e]).Some?
    requires var cands := JobOf(cfg, cfg.events[e]).value.cands; cands != [] && !Repeats(cands)
    ensures n < |acts| && ConsumerStages(acts) && CompletedIn(Run(cfg, START, acts[..n]), e)
    ensures var w := Run(cfg, START, acts); e in w.receipts && w.receipts[e].phase == R.Reported(R.Failed)
  {
    hide JobOf, Repeats, RepeatsNew, Stage, Run, StagedFingerprints, Apply;
    var job := JobOf(cfg, cfg.events[e]).value;
    RefusedDelivery(cfg, e);
    var first, ids := Refused(1, e), NewIds(|job.cands|);
    var w1 := Run(cfg, START, first);
    UndisturbedDelivery(cfg, w1, 2, e, "", cfg.lease, ids);
    NoRepeatIsNew(StagedFingerprints(EMPTY_DB, job.src), job.cands);
    var second, third := DeliveryOf(2, e, "", cfg.lease, ids), [Report(1, cfg.lease)];
    RunAppends(cfg, START, first, second);
    RunAppends(cfg, START, first + second, third);
    acts, n := first + second + third, |first + second|;
    assert acts[..n] == first + second;
    LateReport(cfg, Run(cfg, w1, second), e, 1, cfg.lease);
  }

  lemma LateReport(cfg: Config, w: World, e: nat, run: nat, now: real)
    requires e in w.receipts && run in w.deliveries && w.deliveries[run] == Ready(e, 1, R.Failed)
    ensures var w1 := Run(cfg, w, [Report(run, now)]); e in w1.receipts && w1.receipts[e].phase == R.Reported(R.Failed)
  {
    assert [Report(run, now)][1..] == [];
  }
}

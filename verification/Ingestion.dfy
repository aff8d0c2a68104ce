/** The consumer of `message.accepted` events: workers claim an event's receipt, locate the message
  * and the frozen project scope, stage proposals, and report. Runs interleave any number of workers
  * with reviewers, direct writers, deletions of messages, crashes and late reports.
  */
module Ingestion {
  import opened Basics
  import opened ProjectMemory
  import Mem = ProjectMemoryRuns
  import R = Receipts

  datatype Message = Message(conversation: Id, role: string, content: string)

  /** The version 2 ingestion locator; `version` is absent when it is not a number. */
  datatype Locator = Locator(
    version: Option<int>, jobId: string, actorId: string, projectActorId: string, projectId: string, scope: Scope)

  datatype Event = Event(kind: string, workspace: Id, conversation: Id, messageId: string, locator: Locator)

  /** The sentence splitter, the marker tables and the two digests. */
  datatype Extractor = Extractor(
    sentences: string -> seq<string>, kindOf: string -> Option<string>,
    fingerprint: (string, string, Scope) -> string, suggestedKey: (string, string) -> string)

  /** What never changes: the events, and the messages as they were accepted. */
  datatype Config = Config(
    text: Text, lease: real, extractor: Extractor, events: map<nat, Event>, messages: map<Id, Message>)

  const EVENT_TYPE := "message.accepted"
  const LOCATOR_VERSION := 2
  const STAGE_TRIES := 4

  /* ---- From an event to its candidates ---- */

  function CandidatesOf(ex: Extractor, sentences: seq<string>, scope: Scope): seq<Candidate> {
    if sentences == [] then []
    else
      var rest := CandidatesOf(ex, sentences[1..], scope);
      match ex.kindOf(sentences[0])
      case None => rest
      case Some(kind) =>
        var words := Take(sentences[0], 1200);
        [Candidate(ex.fingerprint(kind, words, scope), ex.suggestedKey(kind, words), kind, words)] + rest
  }

  function Extract(ex: Extractor, content: string, scope: Scope): seq<Candidate> {
    CandidatesOf(ex, Take(ex.sentences(Take(content, 12000)), 40), scope)
  }

  datatype Job = Job(src: Source, cands: seq<Candidate>)

  /** Where the event points, if it points at a user message of its conversation through a usable
    * locator that names an actor and a project. */
  function JobOf(cfg: Config, e: Event): Option<Job> {
    var id := Strip(e.messageId);
    var l := e.locator;
    var actor, project := Strip(l.actorId), Strip(l.projectId);
    if id == "" || id !in cfg.messages || cfg.messages[id].conversation != e.conversation then None
    else if cfg.messages[id].role != "user" then None
    else if l.version != Some(LOCATOR_VERSION) || Strip(l.jobId) == "" then None
    else if actor != "" && Strip(l.projectActorId) != "" && actor != Strip(l.projectActorId) then None
    else if actor == "" || project == "" then None
    else
      Some(Job(Source(e.workspace, project, e.conversation, id, l.scope), Extract(cfg.extractor, cfg.messages[id].content, l.scope)))
  }

  /* ---- Workers ---- */

  /** How far one delivery has come. `existing` is what the open staging transaction has read. */
  datatype Delivery =
    | Missed(event: nat, worker: string, now: real)
    | Claimed(event: nat, attempts: nat)
    | Staging(event: nat, attempts: nat, job: Job, tries: nat, existing: Option<set<string>>)
    | Ready(event: nat, attempts: nat, verdict: R.Verdict)

  datatype World = World(mem: Mem.World, receipts: map<nat, R.Receipt>, deliveries: map<nat, Delivery>, deleted: set<Id>)

  const START := World(Mem.START, map[], map[], {})

  datatype Action =
    | Govern(action: Mem.Action)
    | DeleteMessage(message: Id)
    | Probe(run: nat, event: nat, worker: string, now: real)
    | InsertClaim(run: nat)
    | Locate(run: nat)
    | BeginStage(run: nat, allowed: bool)
    | CommitStage(run: nat, ids: seq<Id>, listed: bool)
    | Report(run: nat, now: real)
    | Crash(run: nat)

  function Row(w: World, event: nat): Option<R.Receipt> {
    if event in w.receipts then Some(w.receipts[event]) else None
  }

  function StagedFingerprints(db: Db, src: Source): set<string> {
    set p | p in db.proposals && db.proposals[p].project == src.project && db.proposals[p].message == src.message
      :: db.proposals[p].fingerprint
  }

  /** The receipt statement an action issues for its event, if it issues one. */
  function Statement(w: World, a: Action): Option<(nat, R.Action)> {
    match a
    case Probe(run, event, worker, now) => Some((event, R.TakeOver(worker, now)))
    case InsertClaim(run) =>
      if run in w.deliveries && w.deliveries[run].Missed?
      then Some((w.deliveries[run].event, R.Insert(w.deliveries[run].worker, w.deliveries[run].now))) else None
    case Report(run, now) =>
      if run in w.deliveries && w.deliveries[run].Ready?
      then Some((w.deliveries[run].event, R.Report(w.deliveries[run].verdict, now, w.deliveries[run].attempts))) else None
    case _ => None
  }

  predicate Enabled(cfg: Config, w: World, a: Action) {
    match a
    case Probe(run, event, _, _) => run !in w.deliveries && event in cfg.events && cfg.events[event].kind == EVENT_TYPE
    case InsertClaim(run) => run in w.deliveries && w.deliveries[run].Missed?
    case Locate(run) => run in w.deliveries && w.deliveries[run].Claimed? && w.deliveries[run].event in cfg.events
    case BeginStage(run, _) => run in w.deliveries && w.deliveries[run].Staging? && w.deliveries[run].existing.None?
    case CommitStage(run, ids, _) =>
      run in w.deliveries && w.deliveries[run].Staging? && w.deliveries[run].existing.Some? && |ids| == |w.deliveries[run].job.cands|
    case Report(run, _) => run in w.deliveries && w.deliveries[run].Ready?
    case _ => true
  }

  /** The delivery `run` after an enabled action of its own; `None` when it is over. */
  function Advance(cfg: Config, w: World, a: Action): Option<Delivery>
    requires Enabled(cfg, w, a) && !a.Govern? && !a.DeleteMessage?
  {
    match a
    case Probe(run, event, worker, now) =>
      var row := Row(w, event);
      if R.Wins(cfg.lease, row, R.TakeOver(worker, now)) then Some(Claimed(event, row.value.attempts + 1))
      else Some(Missed(event, worker, now))
    case InsertClaim(run) =>
      var d := w.deliveries[run];
      if Row(w, d.event).None? then Some(Claimed(d.event, 1)) else None
    case Locate(run) =>
      var d := w.deliveries[run];
      var job := JobOf(cfg, cfg.events[d.event]);
      if job.None? || job.value.src.message in w.deleted then Some(Ready(d.event, d.attempts, R.Ignored))
      else if job.value.cands == [] then Some(Ready(d.event, d.attempts, R.Completed))
      else Some(Staging(d.event, d.attempts, job.value, 0, None))
    case BeginStage(run, allowed) =>
      var d := w.deliveries[run];
      if !allowed || d.job.src.message in w.deleted then Some(Ready(d.event, d.attempts, R.Failed))
      else Some(d.(existing := Some(StagedFingerprints(w.mem.db, d.job.src))))
    case CommitStage(run, ids, listed) =>
      var d := w.deliveries[run];
      if Stage(w.mem.db, d.job.src, d.existing.value, d.job.cands, ids).Ok?
      then Some(Ready(d.event, d.attempts, if listed then R.Completed else R.Failed))
      else if d.tries + 1 >= STAGE_TRIES then Some(Ready(d.event, d.attempts, R.Failed))
      else Some(d.(tries := d.tries + 1, existing := None))
    case Report(_, _) => None
    case Crash(_) => None
  }

  function RunOf(a: Action): nat
    requires !a.Govern? && !a.DeleteMessage?
  {
    a.run
  }

  /** What the action asks of the memory tables. */
  function MemAction(w: World, a: Action): Option<Mem.Action> {
    match a
    case Govern(action) => Some(action)
    case CommitStage(run, ids, _) =>
      if run in w.deliveries && w.deliveries[run].Staging? && w.deliveries[run].existing.Some?
      then Some(Mem.StageAll(w.deliveries[run].job.src, w.deliveries[run].existing.value, w.deliveries[run].job.cands, ids))
      else None
    case _ => None
  }

  function Apply(cfg: Config, w: World, a: Action): World {
    if !Enabled(cfg, w, a) then w
    else
      var ask := MemAction(w, a);
      var mem := if ask.Some? then Mem.Apply(cfg.text, w.mem, ask.value) else w.mem;
      var st := Statement(w, a);
      var receipts :=
        if st.None? then w.receipts
        else
          var row := R.Step(cfg.lease, Row(w, st.value.0), st.value.1);
          if row.None? then w.receipts else w.receipts[st.value.0 := row.value];
      var deleted := if a.DeleteMessage? then w.deleted + {a.message} else w.deleted;
      var deliveries :=
        if a.Govern? || a.DeleteMessage? then w.deliveries
        else
          var d := Advance(cfg, w, a);
          if d.None? then w.deliveries - {RunOf(a)} else w.deliveries[RunOf(a) := d.value];
      World(mem, receipts, deliveries, deleted)
  }

  function Run(cfg: Config, w: World, acts: seq<Action>): World
    decreases |acts|
  {
    if acts == [] then w else Run(cfg, Apply(cfg, w, acts[0]), acts[1..])
  }

  /* ---- One staging transaction ---- */

  predicate AllStaged(db: Db, job: Job) {
    forall k :: 0 <= k < |job.cands| ==> SourceTaken(db, job.src.project, job.src.message, job.cands[k].fingerprint)
  }

  /** Candidate `k` can be inserted after the ones before it. */
  predicate Insertable(db: Db, src: Source, existing: set<string>, cands: seq<Candidate>, ids: seq<Id>, k: int)
    requires |ids| == |cands| && 0 <= k < |cands|
  {
    cands[k].fingerprint !in existing ==>
      && ids[k] !in db.proposals
      && !SourceTaken(db, src.project, src.message, cands[k].fingerprint)
      && forall j :: 0 <= j < k && cands[j].fingerprint !in existing ==>
           ids[j] != ids[k] && cands[j].fingerprint != cands[k].fingerprint
  }

  lemma TakenAfterInsert(db: Db, src: Source, c: Candidate, id: Id, fingerprint: string)
    requires id !in db.proposals
    ensures var db1 := db.(proposals := db.proposals[id := PendingRow(src, c)]);
            SourceTaken(db1, src.project, src.message, fingerprint) <==>
              (SourceTaken(db, src.project, src.message, fingerprint) || fingerprint == c.fingerprint)
  {
    var db1 := db.(proposals := db.proposals[id := PendingRow(src, c)]);
    if SourceTaken(db, src.project, src.message, fingerprint) {
      var p :| p in db.proposals && db.proposals[p].project == src.project && db.proposals[p].message == src.message
                 && db.proposals[p].fingerprint == fingerprint;
      assert p in db1.proposals && db1.proposals[p] == db.proposals[p];
    }
    if fingerprint == c.fingerprint { assert id in db1.proposals && db1.proposals[id] == PendingRow(src, c); }
  }

  /** The tables the rest of the candidates meet, once candidate 0 is skipped or inserted. */
  predicate AfterFirst(db: Db, db1: Db, src: Source, existing: set<string>, cands: seq<Candidate>, ids: seq<Id>)
    requires |ids| == |cands| && cands != []
  {
    if cands[0].fingerprint in existing then db1 == db
    else
      && ids[0] !in db.proposals
      && !SourceTaken(db, src.project, src.message, cands[0].fingerprint)
      && db1 == db.(proposals := db.proposals[ids[0] := PendingRow(src, cands[0])])
  }

  lemma InsertableTail(db: Db, db1: Db, src: Source, existing: set<string>, cands: seq<Candidate>, ids: seq<Id>, k: int)
    requires |ids| == |cands| && 0 <= k < |cands| - 1
    requires AfterFirst(db, db1, src, existing, cands, ids)
    ensures Insertable(db1, src, existing, cands[1..], ids[1..], k) <==> Insertable(db, src, existing, cands, ids, k + 1)
  {
    var cs, xs := cands[1..], ids[1..];
    if cands[0].fingerprint !in existing { TakenAfterInsert(db, src, cands[0], ids[0], cs[k].fingerprint); }
    assert cs[k] == cands[k + 1] && xs[k] == ids[k + 1];
    forall j | 0 <= j < k ensures cs[j] == cands[j + 1] && xs[j] == ids[j + 1] {}
    if Insertable(db1, src, existing, cs, xs, k) && cs[k].fingerprint !in existing {
      forall j | 0 <= j < k + 1 && cands[j].fingerprint !in existing
        ensures ids[j] != ids[k + 1] && cands[j].fingerprint != cands[k + 1].fingerprint
      {
        if j > 0 { assert cs[j - 1] == cands[j] && xs[j - 1] == ids[j]; }
      }
    }
  }

  lemma TailForAll(db: Db, db1: Db, src: Source, existing: set<string>, cands: seq<Candidate>, ids: seq<Id>)
    requires |ids| == |cands| && cands != []
    requires AfterFirst(db, db1, src, existing, cands, ids)
    ensures (forall k :: 0 <= k < |cands| - 1 ==> Insertable(db1, src, existing, cands[1..], ids[1..], k))
              <==> (forall k :: 0 <= k < |cands| ==> Insertable(db, src, existing, cands, ids, k))
  {
    forall k | 0 <= k < |cands| - 1
      ensures Insertable(db1, src, existing, cands[1..], ids[1..], k) <==> Insertable(db, src, existing, cands, ids, k + 1)
    {
      InsertableTail(db, db1, src, existing, cands, ids, k);
    }
    assert Insertable(db, src, existing, cands, ids, 0);
    if forall k :: 0 <= k < |cands| - 1 ==> Insertable(db1, src, existing, cands[1..], ids[1..], k) {
      forall k | 0 <= k < |cands| ensures Insertable(db, src, existing, cands, ids, k) {
        if k > 0 { assert Insertable(db1, src, existing, cands[1..], ids[1..], k - 1); }
      }
    }
  }

  /** Exactly when a try succeeds: the candidates it did not find staged have new ids, sources nobody
    * else has staged since the read, and pairwise different fingerprints. */
  lemma {:induction false} StageSucceedsIff(db: Db, src: Source, existing: set<string>, cands: seq<Candidate>, ids: seq<Id>)
    requires |ids| == |cands|
    ensures Stage(db, src, existing, cands, ids).Ok? <==>
              forall k :: 0 <= k < |cands| ==> Insertable(db, src, existing, cands, ids, k)
    decreases |cands|
  {
    if cands != [] {
      var insert := db.(proposals := db.proposals[ids[0] := PendingRow(src, cands[0])]);
      var db1 := if cands[0].fingerprint in existing then db else insert;
      if AfterFirst(db, db1, src, existing, cands, ids) {
        StageSucceedsIff(db1, src, existing, cands[1..], ids[1..]);
        TailForAll(db, db1, src, existing, cands, ids);
      } else {
        assert !Insertable(db, src, existing, cands, ids, 0);
      }
    }
  }

  /** A message with two equal new fingerprints aborts every try, in any state of the tables. */
  lemma RepeatedSentenceNeverStages(db: Db, src: Source, existing: set<string>, cands: seq<Candidate>, ids: seq<Id>, i: nat, j: nat)
    requires |ids| == |cands| && i < j < |cands|
    requires cands[i].fingerprint == cands[j].fingerprint && cands[i].fingerprint !in existing
    ensures Stage(db, src, existing, cands, ids).Failed?
  {
    StageSucceedsIff(db, src, existing, cands, ids);
    assert !Insertable(db, src, existing, cands, ids, j);
  }

  /** A try that succeeds leaves every candidate staged; where all were staged before, it changes
    * nothing, even if its read was stale. */
  lemma {:induction false} StageStagesAll(db: Db, src: Source, existing: set<string>, cands: seq<Candidate>, ids: seq<Id>)
    requires |ids| == |cands| && Stage(db, src, existing, cands, ids).Ok?
    requires forall f :: f in existing ==> SourceTaken(db, src.project, src.message, f)
    ensures AllStaged(Stage(db, src, existing, cands, ids).value, Job(src, cands))
    ensures forall f :: SourceTaken(db, src.project, src.message, f) ==>
              SourceTaken(Stage(db, src, existing, cands, ids).value, src.project, src.message, f)
    ensures AllStaged(db, Job(src, cands)) ==> Stage(db, src, existing, cands, ids).value == db
    decreases |cands|
  {
    if cands != [] {
      var db1 := db;
      if cands[0].fingerprint !in existing {
        db1 := db.(proposals := db.proposals[ids[0] := PendingRow(src, cands[0])]);
        forall f
          ensures SourceTaken(db1, src.project, src.message, f) <==>
                    (SourceTaken(db, src.project, src.message, f) || f == cands[0].fingerprint)
        {
          TakenAfterInsert(db, src, cands[0], ids[0], f);
        }
      }
      StageStagesAll(db1, src, existing, cands[1..], ids[1..]);
      if AllStaged(db, Job(src, cands)) {
        assert SourceTaken(db, src.project, src.message, cands[0].fingerprint);
        assert AllStaged(db, Job(src, cands[1..]));
      }
      var db' := Stage(db, src, existing, cands, ids).value;
      forall k | 0 <= k < |cands| ensures SourceTaken(db', src.project, src.message, cands[k].fingerprint) {
        if k > 0 { assert cands[1..][k - 1] == cands[k]; assert AllStaged(db', Job(src, cands[1..])); }
      }
    }
  }

  /* ---- The invariant of a run ---- */

  /** An event the consumer is for. */
  predicate Consumed(cfg: Config, event: nat) { event in cfg.events && cfg.events[event].kind == EVENT_TYPE }

  ghost predicate EventStaged(cfg: Config, db: Db, event: nat) {
    && Consumed(cfg, event)
    && JobOf(cfg, cfg.events[event]).Some?
    && AllStaged(db, JobOf(cfg, cfg.events[event]).value)
  }

  ghost predicate DeliverySound(cfg: Config, db: Db, d: Delivery) {
    match d
    case Missed(event, _, _) => Consumed(cfg, event)
    case Claimed(event, _) => Consumed(cfg, event)
    case Staging(event, _, job, _, existing) =>
      && Consumed(cfg, event)
      && JobOf(cfg, cfg.events[event]) == Some(job)
      && (existing.Some? ==> forall f :: f in existing.value ==> SourceTaken(db, job.src.project, job.src.message, f))
    case Ready(event, _, verdict) => Consumed(cfg, event) && (verdict == R.Completed ==> EventStaged(cfg, db, event))
  }

  ghost predicate Inv(cfg: Config, w: World) {
    && Mem.Inv(cfg.text, w.mem)
    && (forall r :: r in w.deliveries ==> DeliverySound(cfg, w.mem.db, w.deliveries[r]))
    && (forall e :: e in w.receipts && w.receipts[e].phase == R.Reported(R.Completed) ==> EventStaged(cfg, w.mem.db, e))
  }

  /** Sources stay staged: proposals are never removed and never change project, message or fingerprint. */
  lemma StagedForGood(a: Db, b: Db, project: Id, message: Id, fingerprint: string)
    requires Mem.Later(a, b) && SourceTaken(a, project, message, fingerprint)
    ensures SourceTaken(b, project, message, fingerprint)
  {
    var p :| p in a.proposals && a.proposals[p].project == project && a.proposals[p].message == message
               && a.proposals[p].fingerprint == fingerprint;
    assert p in b.proposals && Mem.SettlesTo(a.proposals[p], b.proposals[p]);
  }

  lemma EventStagedForGood(cfg: Config, a: Db, b: Db, event: nat)
    requires Mem.Later(a, b) && EventStaged(cfg, a, event)
    ensures EventStaged(cfg, b, event)
  {
    var job := JobOf(cfg, cfg.events[event]).value;
    forall k | 0 <= k < |job.cands| ensures SourceTaken(b, job.src.project, job.src.message, job.cands[k].fingerprint) {
      StagedForGood(a, b, job.src.project, job.src.message, job.cands[k].fingerprint);
    }
  }

  lemma SoundForGood(cfg: Config, a: Db, b: Db, d: Delivery)
    requires Mem.Later(a, b) && DeliverySound(cfg, a, d)
    ensures DeliverySound(cfg, b, d)
  {
    match d {
      case Staging(event, _, job, _, existing) =>
        if existing.Some? {
          forall f | f in existing.value ensures SourceTaken(b, job.src.project, job.src.message, f) {
            StagedForGood(a, b, job.src.project, job.src.message, f);
          }
        }
      case Ready(event, _, verdict) =>
        if verdict == R.Completed { EventStagedForGood(cfg, a, b, event); }
      case _ =>
    }
  }

  /** The memory tables move as one step of the project-memory protocol, or not at all. */
  lemma MemStep(cfg: Config, w: World, a: Action)
    requires Inv(cfg, w)
    ensures Mem.Inv(cfg.text, Apply(cfg, w, a).mem) && Mem.Later(w.mem.db, Apply(cfg, w, a).mem.db)
  {
    hide DeliverySound, EventStaged, Mem.Chained, Mem.Owned, Mem.SourcesUnique, Advance, R.Step;
    var ask := MemAction(w, a);
    if ask.Some? { Mem.StepKeepsInv(cfg.text, w.mem, ask.value); }
  }

  /** The delivery after one of its staging tries. */
  lemma TrySound(cfg: Config, db: Db, d: Delivery, ids: seq<Id>)
    requires d.Staging? && d.existing.Some? && DeliverySound(cfg, db, d) && |ids| == |d.job.cands|
    requires Stage(db, d.job.src, d.existing.value, d.job.cands, ids).Ok?
    ensures EventStaged(cfg, Stage(db, d.job.src, d.existing.value, d.job.cands, ids).value, d.event)
  {
    StageStagesAll(db, d.job.src, d.existing.value, d.job.cands, ids);
    assert d.job == Job(d.job.src, d.job.cands);
  }

  lemma BeginSound(cfg: Config, db: Db, d: Delivery)
    requires d.Staging? && DeliverySound(cfg, db, d)
    ensures DeliverySound(cfg, db, d.(existing := Some(StagedFingerprints(db, d.job.src))))
  {
    forall f | f in StagedFingerprints(db, d.job.src) ensures SourceTaken(db, d.job.src.project, d.job.src.message, f) {
      var p :| p in db.proposals && db.proposals[p].project == d.job.src.project && db.proposals[p].message == d.job.src.message
                 && db.proposals[p].fingerprint == f;
    }
  }

  /** The memory tables after a step of a worker. */
  function WorkerDb(w: World, a: Action): Db {
    if a.CommitStage? && a.run in w.deliveries && w.deliveries[a.run].Staging? && w.deliveries[a.run].existing.Some?
       && |a.ids| == |w.deliveries[a.run].job.cands|
    then
      var d := w.deliveries[a.run];
      Mem.After(w.mem.db, Stage(w.mem.db, d.job.src, d.existing.value, d.job.cands, a.ids))
    else w.mem.db
  }

  lemma WorkerDbIsNext(cfg: Config, w: World, a: Action)
    requires Enabled(cfg, w, a) && !a.Govern?
    ensures Apply(cfg, w, a).mem.db == WorkerDb(w, a)
  {
  }

  lemma AdvanceSound(cfg: Config, w: World, a: Action)
    requires Enabled(cfg, w, a) && !a.Govern? && !a.DeleteMessage? && Advance(cfg, w, a).Some?
    requires RunOf(a) in w.deliveries ==> DeliverySound(cfg, w.mem.db, w.deliveries[RunOf(a)])
    ensures DeliverySound(cfg, WorkerDb(w, a), Advance(cfg, w, a).value)
  {
    match a {
      case Locate(run) =>
        var job := JobOf(cfg, cfg.events[w.deliveries[run].event]);
        if job.Some? && job.value.cands == [] { assert AllStaged(w.mem.db, job.value); }
      case BeginStage(run, allowed) =>
        BeginSound(cfg, w.mem.db, w.deliveries[run]);
      case CommitStage(run, ids, listed) =>
        var d := w.deliveries[run];
        if Stage(w.mem.db, d.job.src, d.existing.value, d.job.cands, ids).Ok? { TrySound(cfg, w.mem.db, d, ids); }
      case _ =>
    }
  }

  lemma StepKeepsInv(cfg: Config, w: World, a: Action)
    requires Inv(cfg, w)
    ensures Inv(cfg, Apply(cfg, w, a)) && Mem.Later(w.mem.db, Apply(cfg, w, a).mem.db)
  {
    MemStep(cfg, w, a);
    var w' := Apply(cfg, w, a);
    forall r | r in w'.deliveries ensures DeliverySound(cfg, w'.mem.db, w'.deliveries[r]) {
      if r in w.deliveries && w'.deliveries[r] == w.deliveries[r] {
        SoundForGood(cfg, w.mem.db, w'.mem.db, w.deliveries[r]);
      } else {
        AdvanceSound(cfg, w, a);
        WorkerDbIsNext(cfg, w, a);
      }
    }
    forall e | e in w'.receipts && w'.receipts[e].phase == R.Reported(R.Completed) ensures EventStaged(cfg, w'.mem.db, e) {
      if e in w.receipts && w.receipts[e] == w'.receipts[e] {
        EventStagedForGood(cfg, w.mem.db, w'.mem.db, e);
      } else {
        var d := w.deliveries[RunOf(a)];
        assert a.Report? && d.Ready? && d.event == e && d.verdict == R.Completed;
        EventStagedForGood(cfg, w.mem.db, w'.mem.db, e);
      }
    }
  }

  lemma {:induction false} RunKeepsInv(cfg: Config, w: World, acts: seq<Action>)
    requires Inv(cfg, w)
    ensures Inv(cfg, Run(cfg, w, acts)) && Mem.Later(w.mem.db, Run(cfg, w, acts).mem.db)
    decreases |acts|
  {
    if acts != [] {
      var w1 := Apply(cfg, w, acts[0]);
      StepKeepsInv(cfg, w, acts[0]);
      RunKeepsInv(cfg, w1, acts[1..]);
      Mem.LaterTransitive(w.mem.db, w1.mem.db, Run(cfg, w, acts).mem.db);
    }
  }

  /* ---- Theorems ---- */

  /** A completed receipt means that the event's message and locator were good and that each of its
    * candidates has exactly one proposal, whatever was delivered twice, stolen, crashed or late. */
  lemma CompletedMeansStagedExactlyOnce(cfg: Config, acts: seq<Action>, e: nat)
    ensures var w := Run(cfg, START, acts);
            e in w.receipts && w.receipts[e].phase == R.Reported(R.Completed) ==>
              && Consumed(cfg, e) && JobOf(cfg, cfg.events[e]).Some?
              && var job := JobOf(cfg, cfg.events[e]).value;
                 forall k :: 0 <= k < |job.cands| ==> StagedOnce(w.mem.db, job.src, job.cands[k].fingerprint)
  {
    RunKeepsInv(cfg, START, acts);
    var w := Run(cfg, START, acts);
    if e in w.receipts && w.receipts[e].phase == R.Reported(R.Completed) {
      var job := JobOf(cfg, cfg.events[e]).value;
      assert EventStaged(cfg, w.mem.db, e);
      forall k | 0 <= k < |job.cands| ensures StagedOnce(w.mem.db, job.src, job.cands[k].fingerprint) {
        TakenIsOnce(w.mem.db, job.src, job.cands[k].fingerprint);
      }
    }
  }

  /** Exactly one proposal has this source. */
  ghost predicate StagedOnce(db: Db, src: Source, fingerprint: string) {
    exists p :: p in db.proposals && HasSource(db.proposals[p], src, fingerprint)
      && forall q :: q in db.proposals && HasSource(db.proposals[q], src, fingerprint) ==> q == p
  }

  predicate HasSource(p: Proposal, src: Source, fingerprint: string) {
    p.project == src.project && p.message == src.message && p.fingerprint == fingerprint
  }

  lemma TakenIsOnce(db: Db, src: Source, fingerprint: string)
    requires Mem.SourcesUnique(db) && SourceTaken(db, src.project, src.message, fingerprint)
    ensures StagedOnce(db, src, fingerprint)
  {
    var p :| p in db.proposals && db.proposals[p].project == src.project && db.proposals[p].message == src.message
               && db.proposals[p].fingerprint == fingerprint;
    forall q | q in db.proposals && HasSource(db.proposals[q], src, fingerprint) ensures q == p {
      assert Mem.SameSource(db, q, p);
    }
    assert HasSource(db.proposals[p], src, fingerprint);
  }

  predicate WorkersOnly(acts: seq<Action>) { forall k :: 0 <= k < |acts| ==> !acts[k].Govern? }

  /** Items, heads and existing proposals are as they were; whatever is new is a pending proposal. */
  ghost predicate OnlyAddsPending(a: Db, b: Db) {
    && b.items == a.items && b.heads == a.heads
    && (forall p :: p in a.proposals ==> p in b.proposals && b.proposals[p] == a.proposals[p])
    && (forall p :: p in b.proposals && p !in a.proposals ==> b.proposals[p].status == Pending)
  }

  lemma WorkerStepOnlyAddsPending(cfg: Config, w: World, a: Action)
    requires Inv(cfg, w) && !a.Govern?
    ensures OnlyAddsPending(w.mem.db, Apply(cfg, w, a).mem.db)
  {
    hide DeliverySound, EventStaged, JobOf, Mem.Chained, Mem.Owned, Mem.SourcesUnique, Mem.Later, R.Step, Advance;
    if Enabled(cfg, w, a) {
      WorkerDbIsNext(cfg, w, a);
      if a.CommitStage? {
        var d := w.deliveries[a.run];
        if Stage(w.mem.db, d.job.src, d.existing.value, d.job.cands, a.ids).Ok? {
          Mem.StageOnlyAddsPending(cfg.text, w.mem.db, d.job.src, d.existing.value, d.job.cands, a.ids);
        }
      }
    }
  }

  /** Workers never write authoritative memory: without a reviewer or a writer, however long they run,
    * items and heads stay as they are, no proposal is touched, and whatever they add is pending. */
  lemma {:induction false} WorkersOnlyAddPending(cfg: Config, w: World, acts: seq<Action>)
    requires Inv(cfg, w) && WorkersOnly(acts)
    ensures OnlyAddsPending(w.mem.db, Run(cfg, w, acts).mem.db)
    decreases |acts|
  {
    hide Inv, Apply;
    if acts != [] {
      var w1 := Apply(cfg, w, acts[0]);
      StepKeepsInv(cfg, w, acts[0]);
      WorkerStepOnlyAddsPending(cfg, w, acts[0]);
      assert WorkersOnly(acts[1..]);
      WorkersOnlyAddPending(cfg, w1, acts[1..]);
    }
  }

  /** Once an event is staged, no later delivery of it changes the tables. */
  lemma RedeliveryChangesNothing(cfg: Config, w: World, run: nat, ids: seq<Id>, listed: bool)
    requires Inv(cfg, w) && run in w.deliveries && EventStaged(cfg, w.mem.db, w.deliveries[run].event)
    ensures Apply(cfg, w, CommitStage(run, ids, listed)).mem.db == w.mem.db
  {
    hide Mem.Inv, JobOf, R.Step, R.Wins, Advance;
    var d := w.deliveries[run];
    if Enabled(cfg, w, CommitStage(run, ids, listed)) {
      assert DeliverySound(cfg, w.mem.db, d) && d.job == Job(d.job.src, d.job.cands);
      if Stage(w.mem.db, d.job.src, d.existing.value, d.job.cands, ids).Ok? {
        StageStagesAll(w.mem.db, d.job.src, d.existing.value, d.job.cands, ids);
      }
    }
  }

  /* ---- Receipts inside a run ---- */

  /** The receipt statements a run issues for one event, in order. */
  function History(cfg: Config, w: World, acts: seq<Action>, event: nat): seq<R.Action>
    decreases |acts|
  {
    if acts == [] then []
    else
      var st := Statement(w, acts[0]);
      var rest := History(cfg, Apply(cfg, w, acts[0]), acts[1..], event);
      if Enabled(cfg, w, acts[0]) && st.Some? && st.value.0 == event then [st.value.1] + rest else rest
  }

  /** Every receipt of a run is the result of its own statements alone, so what holds of one event's
    * row, the lease distance, the back-off and the attempt count, holds in every run. */
  lemma ReceiptsFollowTheirHistory(cfg: Config, acts: seq<Action>, event: nat)
    ensures var h := History(cfg, START, acts, event);
            Row(Run(cfg, START, acts), event) == R.RowAt(cfg.lease, h, |h|)
  {
    HistoryExtends(cfg, START, acts, event, []);
    assert [] + History(cfg, START, acts, event) == History(cfg, START, acts, event);
  }

  lemma {:induction false} HistoryExtends(cfg: Config, w: World, acts: seq<Action>, event: nat, past: seq<R.Action>)
    requires Row(w, event) == R.RowAt(cfg.lease, past, |past|)
    ensures var h := past + History(cfg, w, acts, event);
            Row(Run(cfg, w, acts), event) == R.RowAt(cfg.lease, h, |h|)
    decreases |acts|
  {
    if acts == [] {
      assert past + [] == past;
    } else {
      var st := Statement(w, acts[0]);
      var w1 := Apply(cfg, w, acts[0]);
      if Enabled(cfg, w, acts[0]) && st.Some? && st.value.0 == event {
        var now := past + [st.value.1];
        RowOfPrefix(cfg.lease, past, now, |past|);
        HistoryExtends(cfg, w1, acts[1..], event, now);
        assert now + History(cfg, w1, acts[1..], event) == past + History(cfg, w, acts, event);
      } else {
        HistoryExtends(cfg, w1, acts[1..], event, past);
      }
    }
  }

  lemma {:induction false} RowOfPrefix(lease: real, a: seq<R.Action>, b: seq<R.Action>, n: nat)
    requires n <= |a| && a <= b
    ensures R.RowAt(lease, a, n) == R.RowAt(lease, b, n)
  {
    if n > 0 { RowOfPrefix(lease, a, b, n - 1); }
  }
}

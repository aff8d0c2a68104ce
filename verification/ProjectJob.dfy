/** Queued jobs hold frozen references to memory revisions; running a job turns the references that
  * are still current back into memory rows, and never looks for a replacement. */
module ProjectJob {
  import opened Basics
  import opened ProjectMemory
  import Mem = ProjectMemoryRuns

  /** A number as it arrives in the job row: missing, readable, or not a number. */
  datatype Field<+T> = Missing | Number(value: T) | Malformed

  datatype RawRef = RawRef(id: string, revision: Field<int>, score: Field<real>)

  datatype Ref = Ref(id: Id, revision: int, score: real)

  const MAX_REFS := 24

  function RefId(raw: RawRef): Id { Take(Strip(raw.id), 64) }

  /** The reference a raw row stands for, when its id is not blank and its numbers can be read. */
  function ReadRef(raw: RawRef): Option<Ref> {
    if RefId(raw) == "" || raw.revision.Malformed? || raw.score.Malformed? then None
    else
      var revision := if raw.revision.Number? && raw.revision.value != 0 then raw.revision.value else 1;
      var score := if raw.score.Number? then raw.score.value else 0.0;
      Some(Ref(RefId(raw), Max(1, revision), score))
  }

  predicate Speaks(text: string) { exists k :: 0 <= k < |text| && !IsSpace(text[k]) }

  /** Which rows are readable, and what is read: an id that is not blank, without the white space around it and in its
    * first 64 characters; a revision of at least 1, which a missing number or 0 stands for too; a missing score is 0. */
  lemma ReadRefIff(raw: RawRef)
    ensures ReadRef(raw).Some? <==> Speaks(raw.id) && raw.revision != Malformed && raw.score != Malformed
    ensures ReadRef(raw).Some? ==>
              && ReadRef(raw).value.id <= Strip(raw.id) && |ReadRef(raw).value.id| == Min(64, |Strip(raw.id)|)
              && (forall n :: raw.revision == Number(n) && n >= 1 ==> ReadRef(raw).value.revision == n)
              && ((forall n :: raw.revision == Number(n) ==> n < 1) ==> ReadRef(raw).value.revision == 1)
              && (forall r :: raw.score == Number(r) ==> ReadRef(raw).value.score == r)
              && (raw.score == Missing ==> ReadRef(raw).value.score == 0.0)
  {
    hide Strip;
    BlankIff(raw.id);
  }

  /** `id` is already taken by one of the first `n` readable rows. */
  predicate Repeated(raws: seq<RawRef>, n: nat, id: Id)
    requires n <= |raws|
  {
    exists k :: 0 <= k < n && ReadRef(raws[k]).Some? && ReadRef(raws[k]).value.id == id
  }

  /** The first readable row of each id, in order. */
  function Dedup(raws: seq<RawRef>, n: nat): seq<Ref>
    requires n <= |raws|
  {
    if n == 0 then []
    else
      var ref := ReadRef(raws[n - 1]);
      Dedup(raws, n - 1) + (if ref.Some? && !Repeated(raws, n - 1, ref.value.id) then [ref.value] else [])
  }

  method SnapshotRefs(all: seq<RawRef>) returns (refs: seq<Ref>)
    ensures refs == Dedup(Take(all, 24), |Take(all, 24)|)
  {
    var raws := Take(all, MAX_REFS);
    refs := [];
    var seen: set<Id> := {};
    for n := 0 to |raws|
      invariant refs == Dedup(raws, n)
      invariant forall id :: id in seen <==> Repeated(raws, n, id)
    {
      ghost var before := seen;
      var ref := ReadRef(raws[n]);
      if ref.Some? && ref.value.id !in seen {
        refs := refs + [ref.value];
        seen := seen + {ref.value.id};
      }
      forall id ensures id in seen <==> Repeated(raws, n + 1, id) {
        assert Repeated(raws, n, id) ==> Repeated(raws, n + 1, id);
        if ref.Some? && ref.value.id == id { assert Repeated(raws, n + 1, id); }
      }
    }
  }

  predicate HasId(refs: seq<Ref>, id: Id) { exists i :: 0 <= i < |refs| && refs[i].id == id }

  lemma HasIdAppend(refs: seq<Ref>, ref: Ref, id: Id)
    ensures HasId(refs + [ref], id) <==> (HasId(refs, id) || ref.id == id)
  {
    var all := refs + [ref];
    if HasId(refs, id) {
      var i :| 0 <= i < |refs| && refs[i].id == id;
      assert all[i].id == id;
    }
    if ref.id == id { assert all[|refs|].id == id; }
  }

  /** The frozen references have different ids, and every readable row is represented by its id. */
  lemma {:induction false} DedupKeepsEachIdOnce(raws: seq<RawRef>, n: nat)
    requires n <= |raws|
    ensures forall id :: HasId(Dedup(raws, n), id) <==> Repeated(raws, n, id)
    ensures forall i, j :: 0 <= i < j < |Dedup(raws, n)| ==> Dedup(raws, n)[i].id != Dedup(raws, n)[j].id
  {
    if n > 0 {
      DedupKeepsEachIdOnce(raws, n - 1);
      var ref := ReadRef(raws[n - 1]);
      var d := Dedup(raws, n - 1);
      assert d + [] == d;
      forall id ensures HasId(Dedup(raws, n), id) <==> Repeated(raws, n, id) {
        assert HasId(d, id) <==> Repeated(raws, n - 1, id);
        assert Repeated(raws, n, id) <==> (Repeated(raws, n - 1, id) || (ref.Some? && ref.value.id == id));
        if ref.Some? { HasIdAppend(d, ref.value, id); }
      }
      if ref.Some? && !Repeated(raws, n - 1, ref.value.id) {
        assert !HasId(d, ref.value.id);
        forall i | 0 <= i < |d| ensures d[i].id != ref.value.id {}
      }
    }
  }

  /* ---- Materializing ---- */

  datatype Memory = Memory(id: Id, item: Item, content: string, score: real)

  datatype Packet = Packet(memories: seq<Memory>, chars: nat, invalidated: nat)

  /** The row the join of items and active heads yields for `id`. */
  predicate Current(db: Db, workspace: Id, project: Id, id: Id) {
    && id in db.items
    && db.items[id].entry.workspace == workspace
    && db.items[id].entry.slot.project == project
    && exists s :: s in db.heads && db.heads[s].memory == id && db.heads[s].workspace == workspace
         && s.project == project && db.heads[s].state == Active
  }

  function CurrentRows(db: Db, workspace: Id, project: Id, ids: set<Id>): (rows: map<Id, Item>)
    ensures forall id :: id in rows <==> id in ids && Current(db, workspace, project, id)
    ensures forall id :: id in rows ==> id in db.items && rows[id] == db.items[id]
  {
    map id | id in ids && Current(db, workspace, project, id) :: db.items[id]
  }

  predicate InForce(v: Validity, now: real) {
    && !(v.expires.Some? && v.expires.value <= now)
    && !(v.from.Some? && v.from.value > now)
    && !(v.to.Some? && v.to.value <= now)
  }

  function Words(item: Item): string { Take(Strip(item.entry.content), 2400) }

  /** The reference still names the active head of its chain, at the frozen revision, in force, with
    * something to say. */
  predicate Live(db: Db, workspace: Id, project: Id, now: real, ref: Ref) {
    && Current(db, workspace, project, ref.id)
    && db.items[ref.id].revision == ref.revision
    && InForce(db.items[ref.id].entry.validity, now)
    && Words(db.items[ref.id]) != ""
  }

  /** A frozen reference is live exactly if an active head of the job's project names its item, the item is of the
    * project and of the frozen revision, its time has come and is not over, and it has something to say. */
  lemma LiveIff(db: Db, workspace: Id, project: Id, now: real, ref: Ref)
    ensures Live(db, workspace, project, now, ref) <==>
              && (exists s :: s in db.heads && s.project == project && db.heads[s].workspace == workspace && db.heads[s].memory == ref.id
                             && db.heads[s].state == Active)
              && ref.id in db.items
              && var item := db.items[ref.id];
                 && item.entry.workspace == workspace && item.entry.slot.project == project && item.revision == ref.revision
                 && (forall t :: item.entry.validity.expires == Some(t) ==> now < t)
                 && (forall t :: item.entry.validity.from == Some(t) ==> t <= now)
                 && (forall t :: item.entry.validity.to == Some(t) ==> now < t)
                 && Speaks(item.entry.content)
  {
    hide Strip;
    if ref.id in db.items {
      BlankIff(db.items[ref.id].entry.content);
    }
  }

  /** The rows for the first `n` references. */
  function Selected(db: Db, workspace: Id, project: Id, now: real, refs: seq<Ref>, n: nat): seq<Memory>
    requires n <= |refs|
  {
    if n == 0 then []
    else
      var before, ref := Selected(db, workspace, project, now, refs, n - 1), refs[n - 1];
      if Live(db, workspace, project, now, ref)
      then before + [Memory(ref.id, db.items[ref.id], Words(db.items[ref.id]), ref.score)]
      else before
  }

  function Chars(ms: seq<Memory>): nat {
    if ms == [] then 0 else Chars(ms[..|ms| - 1]) + |ms[|ms| - 1].content|
  }

  method Materialize(db: Db, workspace: Id, project: Id, now: real, refs: seq<Ref>) returns (packet: Packet)
    ensures packet.memories == Selected(db, workspace, project, now, refs, |refs|)
    ensures packet.chars == Chars(packet.memories)
    ensures |packet.memories| + packet.invalidated == |refs|
  {
    hide Words;
    var ids := set k | 0 <= k < |refs| :: refs[k].id;
    var current := CurrentRows(db, workspace, project, ids);
    hide CurrentRows, Current;
    var selected: seq<Memory> := [];
    var invalidated, used := 0, 0;
    for n := 0 to |refs|
      invariant selected == Selected(db, workspace, project, now, refs, n)
      invariant used == Chars(selected)
      invariant |selected| + invalidated == n
    {
      var ref := refs[n];
      assert ref.id in ids;
      if ref.id !in current || current[ref.id].revision != ref.revision {
        invalidated := invalidated + 1;
      } else {
        var row := current[ref.id];
        if row.entry.validity.expires.Some? && row.entry.validity.expires.value <= now {
          invalidated := invalidated + 1;
        } else if row.entry.validity.from.Some? && row.entry.validity.from.value > now {
          invalidated := invalidated + 1;
        } else if row.entry.validity.to.Some? && row.entry.validity.to.value <= now {
          invalidated := invalidated + 1;
        } else {
          var content := Words(row);
          if content == "" {
            invalidated := invalidated + 1;
          } else {
            ghost var before := selected;
            selected := selected + [Memory(ref.id, row, content, ref.score)];
            assert selected[..|selected| - 1] == before;
            used := used + |content|;
          }
        }
      }
    }
    return Packet(selected, used, invalidated);
  }

  /* ---- What a job sees over time ---- */

  /** The places of the live references. */
  function LivePlaces(db: Db, workspace: Id, project: Id, now: real, refs: seq<Ref>, n: nat): seq<nat>
    requires n <= |refs|
  {
    if n == 0 then []
    else
      LivePlaces(db, workspace, project, now, refs, n - 1) + (if Live(db, workspace, project, now, refs[n - 1]) then [n - 1] else [])
  }

  lemma {:induction false} LivePlacesAreTheLiveRefs(db: Db, workspace: Id, project: Id, now: real, refs: seq<Ref>, n: nat)
    requires n <= |refs|
    ensures var at := LivePlaces(db, workspace, project, now, refs, n);
            && (forall k :: k in at <==> 0 <= k < n && Live(db, workspace, project, now, refs[k]))
            && (forall i, j :: 0 <= i < j < |at| ==> at[i] < at[j])
  {
    hide Live;
    if n > 0 {
      LivePlacesAreTheLiveRefs(db, workspace, project, now, refs, n - 1);
      var at0 := LivePlaces(db, workspace, project, now, refs, n - 1);
      assert forall i :: 0 <= i < |at0| ==> at0[i] in at0;
    }
  }

  /** The selected rows are the live references, in frozen order, each with the row it was frozen at. */
  lemma {:induction false} SelectedAreTheLiveRefs(db: Db, workspace: Id, project: Id, now: real, refs: seq<Ref>, n: nat)
    requires n <= |refs|
    ensures var ms, at := Selected(db, workspace, project, now, refs, n), LivePlaces(db, workspace, project, now, refs, n);
            && |ms| == |at|
            && (forall k :: 0 <= k < |at| ==>
                  && at[k] < n && Live(db, workspace, project, now, refs[at[k]])
                  && ms[k] == Memory(refs[at[k]].id, db.items[refs[at[k]].id], Words(db.items[refs[at[k]].id]), refs[at[k]].score)
                  && ms[k].content <= Strip(ms[k].item.entry.content) && |ms[k].content| == Min(2400, |Strip(ms[k].item.entry.content)|))
  {
    if n > 0 { SelectedAreTheLiveRefs(db, workspace, project, now, refs, n - 1); }
  }

  /** The item exists and no head names it any more. */
  ghost predicate Superseded(db: Db, id: Id) {
    id in db.items && forall s :: s in db.heads ==> db.heads[s].memory != id
  }

  lemma SupersededForGood(a: Db, b: Db, id: Id)
    requires Mem.Chained(a) && Mem.Chained(b) && Mem.Later(a, b) && Superseded(a, id)
    ensures Superseded(b, id)
  {
    assert Mem.UnderHead(a, id);
    var slot := a.items[id].entry.slot;
    forall s | s in b.heads ensures b.heads[s].memory != id {
      assert Mem.HeadNames(b, s);
      if s == slot { assert Mem.HeadNames(a, slot) && Mem.HeadMoves(a.heads[slot], b.heads[slot]); }
    }
  }

  /** A reference whose chain has moved on is dead for good: no later run of the protocol makes it
    * current again, and, the ids being frozen, nothing is shown in its place. */
  lemma SupersededStaysOut(
    text: Text, past: seq<Mem.Action>, future: seq<Mem.Action>, workspace: Id, project: Id, now: real, refs: seq<Ref>, k: nat)
    requires k < |refs| && Superseded(Mem.Run(text, Mem.START, past).db, refs[k].id)
    ensures var ms := Selected(Mem.Run(text, Mem.Run(text, Mem.START, past), future).db, workspace, project, now, refs, |refs|);
            forall m :: m in ms ==> m.id != refs[k].id && HasId(refs, m.id)
  {
    var w := Mem.Run(text, Mem.START, past);
    Mem.RunKeepsInv(text, Mem.START, past);
    Mem.RunKeepsInv(text, w, future);
    var db' := Mem.Run(text, w, future).db;
    SupersededForGood(w.db, db', refs[k].id);
    var ms := Selected(db', workspace, project, now, refs, |refs|);
    SelectedAreTheLiveRefs(db', workspace, project, now, refs, |refs|);
    forall m | m in ms ensures m.id != refs[k].id && HasId(refs, m.id) {
      var i :| 0 <= i < |ms| && ms[i] == m;
      var at := LivePlaces(db', workspace, project, now, refs, |refs|)[i];
      assert refs[at].id == m.id && Live(db', workspace, project, now, refs[at]);
    }
  }

  lemma AppendSupersedesHead(db: Db, db': Db, id: Id, item: Item)
    requires Mem.Chained(db) && Mem.Appended(db, db', id, item) && item.entry.slot in db.heads
    ensures Superseded(db', db.heads[item.entry.slot].memory)
  {
    var slot := item.entry.slot;
    assert Mem.HeadNames(db, slot);
    forall s | s in db'.heads ensures db'.heads[s].memory != db.heads[slot].memory {
      if s != slot { assert Mem.HeadNames(db, s); }
    }
  }

  /** Committing a revision on top of a frozen reference's item supersedes it at once. */
  lemma CommitSupersedesHead(text: Text, w: Mem.World, tid: nat, id: Id, slot: Slot)
    requires Mem.Inv(text, w) && tid in w.open && Mem.Target(w.open[tid]) == Some(slot) && slot in w.db.heads
    requires Mem.CommitTxn(w.db, w.open[tid], id).Ok?
    ensures Superseded(Mem.Apply(text, w, Mem.Commit(tid, id)).db, w.db.heads[slot].memory)
  {
    var db' := Mem.CommitTxn(w.db, w.open[tid], id).value;
    match w.open[tid] {
      case Approving(a) =>
        Mem.CommittedRevisionAppends(w.db, id, a.entry, a.seen);
        AppendSupersedesHead(w.db, db', id, NextItem(a.entry, a.seen));
      case Writing(entry, seen) =>
        Mem.CommittedRevisionAppends(w.db, id, entry, seen);
        AppendSupersedesHead(w.db, db', id, NextItem(entry, seen));
    }
  }
}

/** The receipt of one outbox event: how workers claim it under a lease and how they report back.
  * Reports are not fenced by worker or attempt, so any worker that ever held a claim can still
  * overwrite the receipt later.
  */
module Receipts {
  import opened Basics

  datatype Verdict = Completed | Ignored | Failed

  datatype Phase = Processing | Reported(verdict: Verdict)

  datatype Receipt = Receipt(
    phase: Phase, attempts: nat, worker: string, claimedAt: real, availableAt: real, completedAt: Option<real>)

  /** The statements a worker issues against one event's row. A claim first tries to take over an
    * existing row and, when that matched nothing, to insert the first row. `attempts` of a report is
    * the attempt number the reporting worker was given. */
  datatype Action =
    | TakeOver(worker: string, now: real)
    | Insert(worker: string, now: real)
    | Report(verdict: Verdict, now: real, attempts: nat)

  function Pow2(n: nat): nat { if n == 0 then 1 else 2 * Pow2(n - 1) }

  function Backoff(attempts: nat): real {
    var delay := Pow2(Min(Max(1, attempts), 8)) as real;
    if delay < 300.0 then delay else 300.0
  }

  /** A row that may be taken over: failed and due again, or held by a lease that ran out. */
  predicate Claimable(lease: real, r: Receipt, now: real) {
    || (r.phase == Reported(Failed) && r.availableAt <= now)
    || (r.phase == Processing && r.claimedAt <= now - lease)
  }

  predicate Wins(lease: real, row: Option<Receipt>, a: Action) {
    match a
    case TakeOver(_, now) => row.Some? && Claimable(lease, row.value, now)
    case Insert(_, _) => row.None?
    case Report(_, _, _) => false
  }

  function Step(lease: real, row: Option<Receipt>, a: Action): Option<Receipt> {
    match a
    case TakeOver(worker, now) =>
      if Wins(lease, row, a) then
        Some(row.value.(phase := Processing, attempts := row.value.attempts + 1, worker := Take(worker, 96),
                        claimedAt := now, availableAt := now, completedAt := None))
      else row
    case Insert(worker, now) =>
      if row.None? then Some(Receipt(Processing, 1, Take(worker, 96), now, now, None)) else row
    case Report(verdict, now, attempts) =>
      if row.None? then row
      else if verdict == Failed then
        Some(row.value.(phase := Reported(Failed), availableAt := now + Backoff(attempts), completedAt := None))
      else
        Some(row.value.(phase := Reported(verdict), availableAt := now, completedAt := Some(now)))
  }

  /** The receipts table. */
  class ReceiptTable {
    var rows: map<nat, Receipt>
    const lease: real

    constructor (leaseSeconds: real)
      ensures rows == map[] && lease == MaxReal(5.0, leaseSeconds)
    {
      rows := map[];
      lease := MaxReal(5.0, leaseSeconds);
    }

    function Row(event: nat): Option<Receipt>
      reads this
    {
      if event in rows then Some(rows[event]) else None
    }

    /** Both statements of a claim, with nothing in between: the attempt number when it is won. */
    method Claim(event: nat, worker: string, now: real) returns (attempts: Option<nat>)
      modifies this`rows
      ensures forall e :: e != event ==> (e in rows <==> e in old(rows)) && (e in rows ==> rows[e] == old(rows)[e])
      ensures Row(event) == Step(lease, Step(lease, old(Row(event)), TakeOver(worker, now)), Insert(worker, now))
      ensures attempts.Some? <==>
                Wins(lease, old(Row(event)), TakeOver(worker, now)) || Wins(lease, old(Row(event)), Insert(worker, now))
      ensures attempts.Some? ==> event in rows && attempts.value == rows[event].attempts
    {
      if event in rows && Claimable(lease, rows[event], now) {
        var row := rows[event];
        rows := rows[event := row.(phase := Processing, attempts := row.attempts + 1, worker := Take(worker, 96),
                                   claimedAt := now, availableAt := now, completedAt := None)];
        return Some(rows[event].attempts);
      }
      if event in rows {
        return None;
      }
      rows := rows[event := Receipt(Processing, 1, Take(worker, 96), now, now, None)];
      return Some(1);
    }

    method Finish(event: nat, verdict: Verdict, now: real, attempts: nat)
      modifies this`rows
      ensures forall e :: e != event ==> (e in rows <==> e in old(rows)) && (e in rows ==> rows[e] == old(rows)[e])
      ensures Row(event) == Step(lease, old(Row(event)), Report(verdict, now, attempts))
    {
      if event in rows {
        var delay := if verdict == Failed then Backoff(attempts) else 0.0;
        var done := if verdict == Failed then None else Some(now);
        rows := rows[event := rows[event].(phase := Reported(verdict), availableAt := now + delay, completedAt := done)];
      }
    }
  }

  /* ---- Runs of one event ---- */

  /** The row after the first `n` actions. */
  function RowAt(lease: real, acts: seq<Action>, n: nat): Option<Receipt>
    requires n <= |acts|
  {
    if n == 0 then None else Step(lease, RowAt(lease, acts, n - 1), acts[n - 1])
  }

  predicate WinsAt(lease: real, acts: seq<Action>, i: nat)
    requires i < |acts|
  {
    Wins(lease, RowAt(lease, acts, i), acts[i])
  }

  lemma {:induction false} HeldSince(lease: real, acts: seq<Action>, i: nat, n: nat)
    requires lease >= 0.0 && i < n <= |acts| && WinsAt(lease, acts, i)
    requires forall k :: i < k < n ==> !acts[k].Report?
    ensures var row := RowAt(lease, acts, n); row.Some? && row.value.phase == Processing && row.value.claimedAt >= acts[i].now
    decreases n
  {
    if i + 1 < n { HeldSince(lease, acts, i, n - 1); }
  }

  /** Two claims of one event with no report between them are at least a lease apart, on the clocks
    * the two workers read and however many other claims came in between. */
  lemma ClaimsAreALeaseApart(lease: real, acts: seq<Action>, i: nat, j: nat)
    requires lease >= 0.0 && i < j < |acts| && WinsAt(lease, acts, i) && WinsAt(lease, acts, j)
    requires forall k :: i < k < j ==> !acts[k].Report?
    ensures acts[j].now >= acts[i].now + lease
  {
    HeldSince(lease, acts, i, j);
  }

  lemma {:induction false} FailedSince(lease: real, acts: seq<Action>, i: nat, n: nat)
    requires i < n <= |acts| && acts[i].Report? && acts[i].verdict == Failed && RowAt(lease, acts, i).Some?
    requires forall k :: i < k < n ==> !acts[k].Report? && !WinsAt(lease, acts, k)
    ensures var row := RowAt(lease, acts, n);
            row.Some? && row.value.phase == Reported(Failed) && row.value.availableAt == acts[i].now + Backoff(acts[i].attempts)
    decreases n
  {
    if i + 1 < n {
      FailedSince(lease, acts, i, n - 1);
      assert !WinsAt(lease, acts, n - 1);
    }
  }

  lemma {:induction false} Pow2Grows(m: nat, n: nat)
    requires m <= n
    ensures 1 <= Pow2(m) <= Pow2(n)
    decreases n
  {
    if m < n { Pow2Grows(m, n - 1); }
    else if m > 0 { Pow2Grows(m - 1, n - 1); }
  }

  /** A receipt that is still failed from attempt `n` is not claimed again before 2^min(n, 8) seconds
    * have passed since that report; the 300-second ceiling never applies. */
  lemma BackoffIsRespected(lease: real, acts: seq<Action>, i: nat, j: nat)
    requires i < j < |acts| && acts[i].Report? && acts[i].verdict == Failed && RowAt(lease, acts, i).Some?
    requires WinsAt(lease, acts, j)
    requires forall k :: i < k < j ==> !acts[k].Report? && !WinsAt(lease, acts, k)
    ensures acts[j].now >= acts[i].now + Pow2(Min(Max(1, acts[i].attempts), 8)) as real
  {
    FailedSince(lease, acts, i, j);
    Pow2Grows(Min(Max(1, acts[i].attempts), 8), 8);
    assert Pow2(8) == 256;
  }

  /** While nobody wins and nobody reports, the row stays as the last winning claim left it. */
  lemma {:induction false} ClaimStands(lease: real, acts: seq<Action>, i: nat, n: nat)
    requires i < n <= |acts| && WinsAt(lease, acts, i)
    requires forall k :: i < k < n ==> !acts[k].Report? && !WinsAt(lease, acts, k)
    ensures var row := RowAt(lease, acts, n); row.Some? && row.value.phase == Processing && row.value.claimedAt == acts[i].now
    decreases n
  {
    if i + 1 < n {
      ClaimStands(lease, acts, i, n - 1);
      assert !WinsAt(lease, acts, n - 1);
    }
  }

  /** A claim that was not reported is taken over from the moment its lease has run, and not earlier. */
  lemma LeaseEndsIff(lease: real, acts: seq<Action>, i: nat, j: nat)
    requires i < j < |acts| && WinsAt(lease, acts, i) && acts[j].TakeOver?
    requires forall k :: i < k < j ==> !acts[k].Report? && !WinsAt(lease, acts, k)
    ensures WinsAt(lease, acts, j) <==> acts[j].now >= acts[i].now + lease
  {
    ClaimStands(lease, acts, i, j);
  }

  /** The seconds until the next try after the first, the second, and any later attempt. */
  const WAITS: seq<real> := [2.0, 4.0, 8.0, 16.0, 32.0, 64.0, 128.0, 256.0]

  /** A failed receipt is taken over from the moment the wait of its attempt is over, and not earlier. */
  lemma DueAgainIff(lease: real, acts: seq<Action>, i: nat, j: nat)
    requires i < j < |acts| && acts[i].Report? && acts[i].verdict == Failed && RowAt(lease, acts, i).Some? && acts[j].TakeOver?
    requires forall k :: i < k < j ==> !acts[k].Report? && !WinsAt(lease, acts, k)
    ensures WinsAt(lease, acts, j) <==> acts[j].now >= acts[i].now + WAITS[Min(Max(1, acts[i].attempts), 8) - 1]
  {
    FailedSince(lease, acts, i, j);
    WaitsOf(acts[i].attempts);
  }

  lemma WaitsOf(attempts: nat)
    ensures Backoff(attempts) == WAITS[Min(Max(1, attempts), 8) - 1]
  {
    var n := Min(Max(1, attempts), 8);
    assert Pow2(1) == 2 && Pow2(2) == 4 && Pow2(3) == 8 && Pow2(4) == 16;
    assert Pow2(5) == 2 * Pow2(4) && Pow2(6) == 2 * Pow2(5) && Pow2(7) == 2 * Pow2(6) && Pow2(8) == 2 * Pow2(7);
    assert n == 1 || n == 2 || n == 3 || n == 4 || n == 5 || n == 6 || n == 7 || n == 8;
  }

  function WinCount(lease: real, acts: seq<Action>, n: nat): nat
    requires n <= |acts|
  {
    if n == 0 then 0 else WinCount(lease, acts, n - 1) + (if WinsAt(lease, acts, n - 1) then 1 else 0)
  }

  /** The attempt counter is the number of claims won so far, and the row exists once one was. */
  lemma {:induction false} AttemptsCountClaims(lease: real, acts: seq<Action>, n: nat)
    requires n <= |acts|
    ensures var row := RowAt(lease, acts, n);
            (row.None? <==> WinCount(lease, acts, n) == 0) && (row.Some? ==> row.value.attempts == WinCount(lease, acts, n))
  {
    if n > 0 { AttemptsCountClaims(lease, acts, n - 1); }
  }

  /** Completed, ignored and not-yet-due failed rows are never taken over: only a report makes a
    * settled event claimable again. */
  lemma {:induction false} SettledUntilReported(lease: real, acts: seq<Action>, i: nat, n: nat)
    requires i < n <= |acts| && acts[i].Report? && acts[i].verdict in {Completed, Ignored} && RowAt(lease, acts, i).Some?
    requires forall k :: i < k < n ==> !acts[k].Report?
    ensures RowAt(lease, acts, n) == RowAt(lease, acts, i + 1)
    ensures forall k :: i < k < n ==> !WinsAt(lease, acts, k)
    decreases n
  {
    if i + 1 < n { SettledUntilReported(lease, acts, i, n - 1); }
  }

  predicate CompletedAt(lease: real, acts: seq<Action>, n: nat)
    requires n <= |acts|
  {
    var row := RowAt(lease, acts, n);
    row.Some? && row.value.phase == Reported(Completed)
  }

  predicate ReportsCompletion(a: Action) { a.Report? ==> a.verdict == Completed }

  lemma CompletedStep(lease: real, acts: seq<Action>, n: nat)
    requires n < |acts| && CompletedAt(lease, acts, n)
    ensures CompletedAt(lease, acts, n + 1) <==> ReportsCompletion(acts[n])
  {
  }

  /** A completed receipt stays completed if and only if every report that follows says so, whatever claims
    * are tried in between. */
  lemma {:induction false} CompletedStaysIff(lease: real, acts: seq<Action>, i: nat, n: nat)
    requires i <= n <= |acts| && CompletedAt(lease, acts, i)
    ensures (forall k: nat :: i <= k <= n ==> CompletedAt(lease, acts, k)) <==> (forall k: nat :: i <= k < n ==> ReportsCompletion(acts[k]))
    decreases n
  {
    hide CompletedAt, ReportsCompletion;
    if i < n {
      CompletedStaysIff(lease, acts, i, n - 1);
      if CompletedAt(lease, acts, n - 1) {
        CompletedStep(lease, acts, n - 1);
      }
    }
  }
}

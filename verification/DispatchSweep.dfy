// One whole sweep of the worker, undisturbed (runOnce in
// src/corporate/dispatch-worker.service.ts): the loop over the batch with its
// counters, as a run of the worker's steps, and the progress it makes.

module DispatchSweep {
  import opened Wrappers
  import opened RosterStore
  import opened Campaigns
  import opened Dispatch

  // What the environment does to one row: the minted token, what the provider
  // answers, and at which call of the row an exception is thrown: 0 for the
  // claim, up to 7 for the settling write; from 8 on, nowhere.
  datatype Env = Env(token: string, reference: string, expiresAt: int, outcome: Delivery, throwAt: nat)

  const SETTLE := 7
  const NOWHERE := 8

  function StepNumber(i: nat, env: Env): WorkerStep {
    match i
    case 0 => ClaimJob
    case 1 => ReadChannel
    case 2 => MintLookup
    case 3 => MintContact
    case 4 => MintCampaign
    case 5 => MintWrite(env.token, env.reference, env.expiresAt)
    case 6 => Deliver(env.outcome)
    case _ => Settle
  }

  // Calls that a failing row skips cannot throw.
  function Choose(p: Progress, i: nat, env: Env): WorkerStep {
    if env.throwAt != i then StepNumber(i, env)
    else if i == 0 then ClaimThrows
    else if p.worker.Busy? && p.worker.stage.Failing? && i != SETTLE then StepNumber(i, env)
    else Throw
  }

  // The rest of a row, from call i on.
  function RowFrom(p: Progress, i: nat, env: Env): Progress
    decreases NOWHERE - i
  {
    if i >= NOWHERE then p else RowFrom(Advance(p, Choose(p, i, env)), i + 1, env)
  }

  // The rows of the batch, each in its own environment.
  function RowsFrom(p: Progress, rows: nat, first: nat, envs: nat -> Env): Progress
    decreases rows
  {
    if rows == 0 then p else RowsFrom(RowFrom(p, 0, envs(first)), rows - 1, first + 1, envs)
  }

  function BatchDone(t: Tables, envs: nat -> Env): Progress {
    RowsFrom(Progress(t, Busy(Batch(t.jobs), 0, Next)), |Batch(t.jobs)|, 0, envs)
  }

  // A whole sweep.
  function SweepOf(t: Tables, envs: nat -> Env): Tables {
    Advance(BatchDone(t, envs), Finish).tables
  }

  // ── The counters ──────────────────────────────────────────────────

  datatype Tally = Tally(processed: nat, dispatched: nat, failed: nat, retried: nat)

  function Plus(a: Tally, b: Tally): Tally {
    Tally(a.processed + b.processed, a.dispatched + b.dispatched, a.failed + b.failed, a.retried + b.retried)
  }

  const NOTHING := Tally(0, 0, 0, 0)

  // What the settling write is about to make of the row.
  function Verdict(w: Worker): Tally {
    if !Holds(w) then NOTHING
    else
      match w.stage
      case Failing(_) => NOTHING.(failed := 1)
      case Sent(_, Delivered) => NOTHING.(dispatched := 1)
      case Sent(_, Rejected(_, permanent)) =>
        if !permanent && w.attemptNo < MAX_DISPATCH_ATTEMPTS then NOTHING.(retried := 1) else NOTHING.(failed := 1)
      case _ => NOTHING
  }

  // The row just before its settling write.
  function RowToSettle(p: Progress, i: nat, env: Env): Progress
    decreases SETTLE - i
  {
    if i >= SETTLE then p else RowToSettle(Advance(p, Choose(p, i, env)), i + 1, env)
  }

  function RowTally(p: Progress, env: Env): Tally {
    var claimed := Holds(Advance(p, Choose(p, 0, env)).worker);
    Plus(if claimed then NOTHING.(processed := 1) else NOTHING, Verdict(RowToSettle(p, 0, env).worker))
  }

  function RowsTally(p: Progress, rows: nat, first: nat, envs: nat -> Env): Tally
    decreases rows
  {
    if rows == 0 then NOTHING
    else Plus(RowTally(p, envs(first)), RowsTally(RowFrom(p, 0, envs(first)), rows - 1, first + 1, envs))
  }

  function SweepTally(t: Tables, envs: nat -> Env): Tally {
    RowsTally(Progress(t, Busy(Batch(t.jobs), 0, Next)), |Batch(t.jobs)|, 0, envs)
  }

  // ── Steps that do nothing ─────────────────────────────────────────

  predicate RowStart(p: Progress) {
    p.worker.Busy? && p.worker.stage.Next? && p.worker.attemptNo == 0 && p.worker.batch != []
  }

  // A row that is over, or was never ours: the worker is at its next row.
  predicate Left(p: Progress, batch: seq<BatchRow>) {
    batch != [] && p.worker == Busy(batch[1..], 0, Next)
  }

  lemma {:induction false} LeftStays(p: Progress, i: nat, env: Env, batch: seq<BatchRow>)
    requires Left(p, batch) && i > 0
    ensures RowFrom(p, i, env) == p
    ensures RowToSettle(p, i, env) == p
    decreases NOWHERE - i
  {
    if i < NOWHERE {
      assert Advance(p, Choose(p, i, env)) == p;
      LeftStays(p, i + 1, env, batch);
    }
  }

  // A failing row goes straight to its settling write.
  lemma {:induction false} FailingGoesToSettle(p: Progress, i: nat, env: Env)
    requires Holds(p.worker) && p.worker.stage.Failing? && 0 < i <= SETTLE
    ensures RowFrom(p, i, env) == RowFrom(p, SETTLE, env)
    ensures RowToSettle(p, i, env) == p
    decreases NOWHERE - i
  {
    if i < SETTLE {
      assert Advance(p, Choose(p, i, env)) == p;
      FailingGoesToSettle(p, i + 1, env);
    }
  }

  lemma LastStep(p: Progress, env: Env)
    ensures RowFrom(p, SETTLE, env) == Advance(p, Choose(p, SETTLE, env))
    ensures RowToSettle(p, SETTLE, env) == p
  {
    hide Advance;
    hide Choose;
  }

  lemma OneStep(p: Progress, i: nat, env: Env)
    requires i < SETTLE
    ensures RowFrom(p, i, env) == RowFrom(Advance(p, Choose(p, i, env)), i + 1, env)
    ensures RowToSettle(p, i, env) == RowToSettle(Advance(p, Choose(p, i, env)), i + 1, env)
  {
    hide Advance;
    hide Choose;
  }

  // ── The worker ────────────────────────────────────────────────────

  class DispatchWorkerService {
    var tables: Tables
    var tally: Tally

    constructor (tables: Tables)
      ensures this.tables == tables && tally == NOTHING
    {
      this.tables, tally := tables, NOTHING;
    }

    // updateMany on a job still in processing; throws says that the call does.
    method Settle(j: nat, attemptNo: nat, stage: Stage, throws: bool)
      requires j < |tables.jobs| && (stage.Sent? || stage.Failing?)
      modifies this
      ensures tally == old(tally)
      ensures tables ==
        if throws || old(tables).jobs[j].status != Processing then old(tables)
        else old(tables).(jobs := old(tables).jobs[j := Settled(old(tables).jobs[j], attemptNo, stage)])
    {
      if !throws && tables.jobs[j].status == Processing {
        tables := tables.(jobs := tables.jobs[j := Settled(tables.jobs[j], attemptNo, stage)]);
      }
    }

    // The body of the loop, for the first row of the batch.
    method ProcessRow(batch: seq<BatchRow>, env: Env)
      requires batch != []
      modifies this
      ensures
        var p := Progress(old(tables), Busy(batch, 0, Next));
        && Progress(tables, Busy(batch[1..], 0, Next)) == RowFrom(p, 0, env)
        && tally == Plus(old(tally), RowTally(p, env))
    {
      hide RowFrom;
      hide RowToSettle;
      hide RowTally;
      hide Verdict;
      StartOfRow(tables, batch, env);
      var j := batch[0].jobId;
      if env.throwAt == 0 || j >= |tables.jobs| || tables.jobs[j].status != Pending {
        return;
      }
      tables := tables.(jobs := tables.jobs[j :=
        tables.jobs[j].(status := Processing, attempts := tables.jobs[j].attempts + 1)]);
      tally := tally.(processed := tally.processed + 1);
      FinishRow(batch, env);
    }

    // The rest of a row whose job was claimed.
    method FinishRow(batch: seq<BatchRow>, env: Env)
      requires batch != [] && env.throwAt != 0
      requires batch[0].jobId < |tables.jobs| && tables.jobs[batch[0].jobId].status == Processing
      modifies this
      ensures
        var p := Progress(old(tables), Busy(batch, batch[0].attempts + 1, Claiming));
        && Progress(tables, Busy(batch[1..], 0, Next)) == RowFrom(p, 1, env)
        && tally == Plus(old(tally), Verdict(RowToSettle(p, 1, env).worker))
    {
      hide RowFrom;
      hide RowToSettle;
      hide Advance;
      hide Settled;
      hide MintWriteStep;
      var j, attemptNo := batch[0].jobId, batch[0].attempts + 1;
      ghost var p1 := Progress(tables, Busy(batch, attemptNo, Claiming));
      ghost var p2 := Advance(p1, Choose(p1, 1, env));
      OneStep(p1, 1, env);
      ReadRow(p1, env);
      if env.throwAt == 1 {
        LeftStays(p2, 2, env, batch);
        return;
      }
      var job := tables.jobs[j];
      if !Reachable(tables.contacts, job.contactId) {
        FailRow(batch, 2, attemptNo, ContactUnreachable, env);
        return;
      }
      ghost var p3 := Advance(p2, Choose(p2, 2, env));
      OneStep(p2, 2, env);
      LookupRow(p2, env);
      if env.throwAt == 2 {
        LeftStays(p3, 3, env, batch);
        return;
      }
      var existing := ClaimOfJob(tables.claims, j);
      if existing.Some? && tables.claims[existing.value].status != Open {
        FailRow(batch, 3, attemptNo, AlreadyFinalized, env);
        return;
      }
      ghost var p4 := Advance(p3, Choose(p3, 3, env));
      OneStep(p3, 3, env);
      MintContactRow(p3, env);
      if env.throwAt == 3 {
        LeftStays(p4, 4, env, batch);
        return;
      }
      ReadCampaign(batch, attemptNo, existing, tables.contacts[job.contactId], env);
    }

    // The last read of the mint, and the calls after it.
    method ReadCampaign(batch: seq<BatchRow>, attemptNo: nat, existing: Option<nat>, contact: Contact, env: Env)
      requires batch != [] && ChannelOf(contact).Some?
      requires batch[0].jobId < |tables.jobs| && tables.jobs[batch[0].jobId].status == Processing
      modifies this
      ensures
        var p := Progress(old(tables), Busy(batch, attemptNo, ContactRead(existing, contact)));
        && Progress(tables, Busy(batch[1..], 0, Next)) == RowFrom(p, 4, env)
        && tally == Plus(old(tally), Verdict(RowToSettle(p, 4, env).worker))
    {
      hide RowFrom;
      hide RowToSettle;
      hide Advance;
      hide Settled;
      var job := tables.jobs[batch[0].jobId];
      ghost var p4 := Progress(tables, Busy(batch, attemptNo, ContactRead(existing, contact)));
      ghost var p5 := Advance(p4, Choose(p4, 4, env));
      OneStep(p4, 4, env);
      MintCampaignRow(p4, env);
      if env.throwAt == 4 {
        LeftStays(p5, 5, env, batch);
        return;
      }
      var snapshot := SnapshotOfCampaign(tables.campaigns, job.campaignId);
      if snapshot.None? {
        FailRow(batch, 5, attemptNo, SnapshotMissing, env);
        return;
      }
      var ready := MintReady(existing, contact, tables.campaigns[job.campaignId].message, snapshot.value);
      MintAndDeliver(batch, attemptNo, ready, env);
    }

    // A permanent failure found at call i.
    method FailRow(batch: seq<BatchRow>, ghost i: nat, attemptNo: nat, reason: FailReason, env: Env)
      requires batch != [] && 0 < i <= SETTLE
      requires batch[0].jobId < |tables.jobs| && tables.jobs[batch[0].jobId].status == Processing
      modifies this
      ensures
        var p := Progress(old(tables), Busy(batch, attemptNo, Failing(reason)));
        && Progress(tables, Busy(batch[1..], 0, Next)) == RowFrom(p, i, env)
        && tally == Plus(old(tally), Verdict(RowToSettle(p, i, env).worker))
    {
      hide RowFrom;
      hide RowToSettle;
      hide Settled;
      ghost var p := Progress(tables, Busy(batch, attemptNo, Failing(reason)));
      FailingGoesToSettle(p, i, env);
      LastStep(p, env);
      tally := tally.(failed := tally.failed + 1);
      Settle(batch[0].jobId, attemptNo, Failing(reason), env.throwAt == SETTLE);
    }

    method MintAndDeliver(batch: seq<BatchRow>, attemptNo: nat, ready: Stage, env: Env)
      requires batch != [] && ready.MintReady? && ChannelOf(ready.contact).Some?
      requires batch[0].jobId < |tables.jobs| && tables.jobs[batch[0].jobId].status == Processing
      modifies this
      ensures
        var p := Progress(old(tables), Busy(batch, attemptNo, ready));
        && Progress(tables, Busy(batch[1..], 0, Next)) == RowFrom(p, 5, env)
        && tally == Plus(old(tally), Verdict(RowToSettle(p, 5, env).worker))
    {
      hide RowFrom;
      hide RowToSettle;
      hide Advance;
      hide Settled;
      hide MintWriteStep;
      ghost var p5 := Progress(tables, Busy(batch, attemptNo, ready));
      ghost var p6 := Advance(p5, Choose(p5, 5, env));
      OneStep(p5, 5, env);
      MintRow(p5, env);
      if env.throwAt == 5 {
        LeftStays(p6, 6, env, batch);
        return;
      }
      var minted := MintWriteStep(
        tables.jobs, tables.claims, Busy(batch, attemptNo, ready), env.token, env.reference, env.expiresAt);
      tables := tables.(claims := minted.0);
      if !minted.1.stage.Minted? {
        LeftStays(p6, 6, env, batch);
        return;
      }
      var claimId := minted.1.stage.claimId;
      ghost var p7 := Advance(p6, Choose(p6, 6, env));
      OneStep(p6, 6, env);
      DeliverRow(p6, env);
      if env.throwAt == 6 {
        LeftStays(p7, 7, env, batch);
        return;
      }
      LastStep(p7, env);
      SettleRow(p7, env);
      var result := env.outcome;
      if result.Delivered? {
        tally := tally.(dispatched := tally.dispatched + 1);
      } else if !result.permanent && attemptNo < MAX_DISPATCH_ATTEMPTS {
        tally := tally.(retried := tally.retried + 1);
      } else {
        tally := tally.(failed := tally.failed + 1);
      }
      Settle(batch[0].jobId, attemptNo, Sent(claimId, result), env.throwAt == SETTLE);
    }

    // The loop over the batch.
    method SweepRows(batch: seq<BatchRow>, envs: nat -> Env)
      modifies this
      ensures
        var start := Progress(old(tables), Busy(batch, 0, Next));
        && Progress(tables, Busy([], 0, Next)) == RowsFrom(start, |batch|, 0, envs)
        && tally == Plus(old(tally), RowsTally(start, |batch|, 0, envs))
        && tables.campaigns == old(tables).campaigns
    {
      hide RowFrom;
      hide RowTally;
      hide RowsFrom;
      hide RowsTally;
      ghost var start := Progress(tables, Busy(batch, 0, Next));
      ghost var total := RowsTally(start, |batch|, 0, envs);
      var i := 0;
      while i < |batch|
        invariant i <= |batch|
        invariant tables.campaigns == start.tables.campaigns
        invariant RowsFrom(Progress(tables, Busy(batch[i..], 0, Next)), |batch| - i, i, envs)
               == RowsFrom(start, |batch|, 0, envs)
        invariant Plus(tally, RowsTally(Progress(tables, Busy(batch[i..], 0, Next)), |batch| - i, i, envs))
               == Plus(old(tally), total)
      {
        ghost var before := Progress(tables, Busy(batch[i..], 0, Next));
        RowsStep(before, |batch| - i, i, envs);
        ProcessRow(batch[i..], envs(i));
        assert batch[i..][1..] == batch[i + 1..];
        RowKeepsCampaigns(before, 0, envs(i));
        i := i + 1;
      }
      assert batch[i..] == [];
      RowsEnd(Progress(tables, Busy([], 0, Next)), i, envs);
    }

    method RunOnce(paused: bool, envs: nat -> Env) returns (report: Tally, completedCampaigns: nat)
      modifies this
      ensures paused ==> tables == old(tables) && report == NOTHING && completedCampaigns == 0
      ensures !paused ==> tables == SweepOf(old(tables), envs) && report == SweepTally(old(tables), envs)
      ensures
        var done := BatchDone(old(tables), envs).tables;
        paused || completedCampaigns == CountFinished(old(tables).campaigns, done.jobs)
    {
      hide RowsFrom;
      hide RowsTally;
      hide Batch;
      hide Complete;
      hide CountFinished;
      tally := NOTHING;
      if paused {
        return NOTHING, 0;
      }
      SweepRows(Batch(tables.jobs), envs);
      completedCampaigns := CountFinished(tables.campaigns, tables.jobs);
      tables := tables.(campaigns := Complete(tables.campaigns, tables.jobs));
      report := tally;
    }
  }

  function CountFinished(campaigns: seq<Campaign>, jobs: seq<Job>): nat {
    |set c | 0 <= c < |campaigns| && Finished(campaigns[c], c, jobs)|
  }

  lemma RowsStep(p: Progress, rows: nat, first: nat, envs: nat -> Env)
    requires rows > 0
    ensures RowsFrom(p, rows, first, envs) == RowsFrom(RowFrom(p, 0, envs(first)), rows - 1, first + 1, envs)
    ensures RowsTally(p, rows, first, envs) ==
      Plus(RowTally(p, envs(first)), RowsTally(RowFrom(p, 0, envs(first)), rows - 1, first + 1, envs))
  {
    hide RowFrom;
    hide RowTally;
  }

  lemma RowsEnd(p: Progress, first: nat, envs: nat -> Env)
    ensures RowsFrom(p, 0, first, envs) == p && RowsTally(p, 0, first, envs) == NOTHING
  {
  }

  // ── One call at a time ────────────────────────────────────────────

  lemma ClaimRow(p: Progress, env: Env)
    requires RowStart(p)
    ensures
      var after, row := Advance(p, Choose(p, 0, env)), p.worker.batch[0];
      if env.throwAt == 0 || row.jobId >= |p.tables.jobs| || p.tables.jobs[row.jobId].status != Pending then
        after == Progress(p.tables, Busy(p.worker.batch[1..], 0, Next))
      else
        var job := p.tables.jobs[row.jobId];
        after == Progress(
          p.tables.(jobs := p.tables.jobs[row.jobId := job.(status := Processing, attempts := job.attempts + 1)]),
          Busy(p.worker.batch, row.attempts + 1, Claiming))
  {
  }

  // The first call decides whether there is a row to process.
  lemma StartOfRow(t: Tables, batch: seq<BatchRow>, env: Env)
    requires batch != []
    ensures
      var p, j := Progress(t, Busy(batch, 0, Next)), batch[0].jobId;
      if env.throwAt == 0 || j >= |t.jobs| || t.jobs[j].status != Pending then
        && RowFrom(p, 0, env) == Progress(t, Busy(batch[1..], 0, Next))
        && RowTally(p, env) == NOTHING
      else
        var job := t.jobs[j].(status := Processing, attempts := t.jobs[j].attempts + 1);
        var claimed := Progress(t.(jobs := t.jobs[j := job]), Busy(batch, batch[0].attempts + 1, Claiming));
        && RowFrom(p, 0, env) == RowFrom(claimed, 1, env)
        && RowTally(p, env) == Plus(NOTHING.(processed := 1), Verdict(RowToSettle(claimed, 1, env).worker))
  {
    hide RowFrom;
    hide RowToSettle;
    hide Advance;
    hide Choose;
    hide Verdict;
    var p := Progress(t, Busy(batch, 0, Next));
    var after := Advance(p, Choose(p, 0, env));
    OneStep(p, 0, env);
    ClaimRow(p, env);
    if !Holds(after.worker) {
      LeftStays(after, 1, env, batch);
      NothingHeld(after.worker);
    }
  }

  lemma NothingHeld(w: Worker)
    requires !Holds(w)
    ensures Verdict(w) == NOTHING
  {
  }

  lemma ReadRow(p: Progress, env: Env)
    requires Holds(p.worker) && p.worker.stage.Claiming? && HeldJob(p.worker) < |p.tables.jobs|
    ensures Advance(p, Choose(p, 1, env)) == p.(worker :=
      if env.throwAt == 1 then Busy(p.worker.batch[1..], 0, Next)
      else if Reachable(p.tables.contacts, p.tables.jobs[HeldJob(p.worker)].contactId) then p.worker.(stage := Reached)
      else p.worker.(stage := Failing(ContactUnreachable)))
  {
  }

  lemma LookupRow(p: Progress, env: Env)
    requires Holds(p.worker) && p.worker.stage.Reached?
    ensures Advance(p, Choose(p, 2, env)) == p.(worker :=
      if env.throwAt == 2 then Busy(p.worker.batch[1..], 0, Next) else MintLookupStep(p.tables.claims, p.worker))
  {
    hide MintLookupStep;
  }

  lemma MintContactRow(p: Progress, env: Env)
    requires Holds(p.worker) && p.worker.stage.LookedUp?
    ensures Advance(p, Choose(p, 3, env)) == p.(worker :=
      if env.throwAt == 3 then Busy(p.worker.batch[1..], 0, Next) else MintContactStep(p.tables, p.worker))
  {
    hide MintContactStep;
  }

  lemma MintCampaignRow(p: Progress, env: Env)
    requires Holds(p.worker) && p.worker.stage.ContactRead?
    ensures Advance(p, Choose(p, 4, env)) == p.(worker :=
      if env.throwAt == 4 then Busy(p.worker.batch[1..], 0, Next) else MintCampaignStep(p.tables, p.worker))
  {
    hide MintCampaignStep;
  }

  lemma MintRow(p: Progress, env: Env)
    requires Holds(p.worker) && p.worker.stage.MintReady? && HeldJob(p.worker) < |p.tables.jobs|
    requires ChannelOf(p.worker.stage.contact).Some?
    ensures
      var minted := MintWriteStep(p.tables.jobs, p.tables.claims, p.worker, env.token, env.reference, env.expiresAt);
      && Advance(p, Choose(p, 5, env)) ==
           (if env.throwAt == 5 then p.(worker := Busy(p.worker.batch[1..], 0, Next))
            else Progress(p.tables.(claims := minted.0), minted.1))
      && (minted.1 == Busy(p.worker.batch[1..], 0, Next) || (minted.1.Busy? && minted.1.stage.Minted?
            && minted.1 == p.worker.(stage := minted.1.stage)))
  {
    hide TokenTaken;
    hide ReferenceTaken;
  }

  lemma DeliverRow(p: Progress, env: Env)
    requires Holds(p.worker) && p.worker.stage.Minted?
    ensures Advance(p, Choose(p, 6, env)) == p.(worker :=
      if env.throwAt == 6 then Busy(p.worker.batch[1..], 0, Next)
      else p.worker.(stage := Sent(p.worker.stage.claimId, env.outcome)))
  {
  }

  lemma SettleRow(p: Progress, env: Env)
    requires Holds(p.worker) && p.worker.stage.Sent? && HeldJob(p.worker) < |p.tables.jobs|
    ensures
      var j := HeldJob(p.worker);
      Advance(p, Choose(p, SETTLE, env)) == Progress(
        if env.throwAt == SETTLE || p.tables.jobs[j].status != Processing then p.tables
        else p.tables.(jobs := p.tables.jobs[j := Settled(p.tables.jobs[j], p.worker.attemptNo, p.worker.stage)]),
        Busy(p.worker.batch[1..], 0, Next))
  {
    hide Settled;
  }

  lemma {:induction false} RowKeepsCampaigns(p: Progress, i: nat, env: Env)
    ensures RowFrom(p, i, env).tables.campaigns == p.tables.campaigns
    decreases NOWHERE - i
  {
    if i < NOWHERE {
      StepKeepsCampaigns(p, Choose(p, i, env));
      RowKeepsCampaigns(Advance(p, Choose(p, i, env)), i + 1, env);
    }
  }

  lemma StepKeepsCampaigns(p: Progress, step: WorkerStep)
    requires !step.Finish?
    ensures Advance(p, step).tables.campaigns == p.tables.campaigns
  {
    hide ClaimStep;
    hide ReadChannelStep;
    hide MintLookupStep;
    hide MintContactStep;
    hide MintCampaignStep;
    hide MintWriteStep;
    hide SettleStep;
  }
}

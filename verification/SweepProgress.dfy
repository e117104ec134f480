// Sweeps make progress: every job a sweep claims uses up one of its three
// attempts or leaves the queue, so the queue drains and the campaigns complete.

module SweepProgress {
  import opened Campaigns
  import opened Dispatch
  import opened DispatchSweep

  // ── What a row does to its job ────────────────────────────────────

  // Which stages call i may find the worker in.
  predicate StageAt(i: nat, stage: Stage) {
    match i
    case 1 => stage.Claiming?
    case 2 => stage.Reached? || stage.Failing?
    case 3 => stage.LookedUp? || stage.Failing?
    case 4 => (stage.ContactRead? && ChannelOf(stage.contact).Some?) || stage.Failing?
    case 5 => (stage.MintReady? && ChannelOf(stage.contact).Some?) || stage.Failing?
    case 6 => stage.Minted? || stage.Failing?
    case 7 => stage.Sent? || stage.Failing?
    case _ => false
  }

  // A worker in the middle of the row of job j.
  predicate MidRow(p: Progress, i: nat, batch: seq<BatchRow>, attemptNo: nat, jobs: seq<Job>) {
    && batch != [] && batch[0].jobId < |jobs| && jobs[batch[0].jobId].status == Processing
    && p.worker.Busy? && p.worker.batch == batch && p.worker.attemptNo == attemptNo && StageAt(i, p.worker.stage)
    && p.tables.jobs == jobs
  }

  // How a claimed job may come out of its row: abandoned in processing, or
  // settled with its attempts as they were, and back in the queue only if this
  // was not the last attempt.
  predicate ComesOut(before: Job, after: Job, attemptNo: nat) {
    && after.campaignId == before.campaignId && after.contactId == before.contactId
    && after.attempts == before.attempts
    && (after.status == Pending ==> attemptNo < MAX_DISPATCH_ATTEMPTS)
  }

  predicate RowDone(p: Progress, batch: seq<BatchRow>, attemptNo: nat, jobs: seq<Job>) {
    && batch != [] && batch[0].jobId < |jobs|
    && p.worker == Busy(batch[1..], 0, Next)
    && |p.tables.jobs| == |jobs|
    && p.tables.jobs == jobs[batch[0].jobId := p.tables.jobs[batch[0].jobId]]
    && ComesOut(jobs[batch[0].jobId], p.tables.jobs[batch[0].jobId], attemptNo)
  }

  lemma StepInRow(p: Progress, i: nat, env: Env, batch: seq<BatchRow>, attemptNo: nat, jobs: seq<Job>)
    requires MidRow(p, i, batch, attemptNo, jobs) && 1 <= i <= SETTLE
    ensures
      var after := Advance(p, Choose(p, i, env));
      || RowDone(after, batch, attemptNo, jobs)
      || (i < SETTLE && MidRow(after, i + 1, batch, attemptNo, jobs))
  {
    hide TokenTaken;
    hide ReferenceTaken;
    hide Rotated;
    hide FirstMint;
    hide ChannelOf;
  }

  lemma {:induction false} RestOfRow(p: Progress, i: nat, env: Env, batch: seq<BatchRow>, attemptNo: nat, jobs: seq<Job>)
    requires MidRow(p, i, batch, attemptNo, jobs) && 1 <= i <= SETTLE
    ensures RowDone(RowFrom(p, i, env), batch, attemptNo, jobs)
    decreases NOWHERE - i
  {
    hide Advance;
    hide Choose;
    hide MidRow;
    hide RowDone;
    var after := Advance(p, Choose(p, i, env));
    StepInRow(p, i, env, batch, attemptNo, jobs);
    if RowDone(after, batch, attemptNo, jobs) {
      RowDoneIsLeft(after, batch, attemptNo, jobs);
      LeftStays(after, i + 1, env, batch);
    } else {
      RestOfRow(after, i + 1, env, batch, attemptNo, jobs);
    }
  }

  lemma RowDoneIsLeft(p: Progress, batch: seq<BatchRow>, attemptNo: nat, jobs: seq<Job>)
    requires RowDone(p, batch, attemptNo, jobs)
    ensures Left(p, batch)
  {
  }

  // A row whose batch entry is up to date.
  predicate FreshRow(row: BatchRow, jobs: seq<Job>) {
    row.jobId < |jobs| && jobs[row.jobId].status == Pending && row.attempts == jobs[row.jobId].attempts
  }

  function Taken(job: Job): Job {
    job.(status := Processing, attempts := job.attempts + 1)
  }

  // A fresh row is skipped if its claim throws; otherwise it costs an attempt.
  lemma RowOutcome(t: Tables, batch: seq<BatchRow>, env: Env)
    requires batch != [] && FreshRow(batch[0], t.jobs)
    ensures
      var p, j := Progress(t, Busy(batch, 0, Next)), batch[0].jobId;
      var after := RowFrom(p, 0, env);
      && after.worker == Busy(batch[1..], 0, Next)
      && |after.tables.jobs| == |t.jobs|
      && after.tables.jobs == t.jobs[j := after.tables.jobs[j]]
      && RowTally(p, env).processed == (if env.throwAt == 0 then 0 else 1)
      && (if env.throwAt == 0 then after.tables.jobs[j] == t.jobs[j]
          else ComesOut(Taken(t.jobs[j]), after.tables.jobs[j], t.jobs[j].attempts + 1))
  {
    hide RowFrom;
    hide RowTally;
    hide RowToSettle;
    hide Verdict;
    hide ComesOut;
    hide MidRow;
    StartOfRow(t, batch, env);
    var j := batch[0].jobId;
    if env.throwAt != 0 {
      var jobs := t.jobs[j := Taken(t.jobs[j])];
      var p := Progress(t.(jobs := jobs), Busy(batch, batch[0].attempts + 1, Claiming));
      ClaimedIsMidRow(t, batch);
      RestOfRow(p, 1, env, batch, batch[0].attempts + 1, jobs);
      VerdictCountsNoClaims(RowToSettle(p, 1, env).worker);
    }
  }

  lemma ClaimedIsMidRow(t: Tables, batch: seq<BatchRow>)
    requires batch != [] && FreshRow(batch[0], t.jobs)
    ensures
      var jobs := t.jobs[batch[0].jobId := Taken(t.jobs[batch[0].jobId])];
      var p := Progress(t.(jobs := jobs), Busy(batch, batch[0].attempts + 1, Claiming));
      MidRow(p, 1, batch, batch[0].attempts + 1, jobs)
  {
  }

  lemma VerdictCountsNoClaims(w: Worker)
    ensures Verdict(w).processed == 0
  {
  }

  // ── The counters agree with the table ─────────────────────────────

  // For a row without exceptions the counter that went up says what became of
  // the job; none did exactly if the mint collided and left it in processing.
  lemma CountersMatchTheTable(t: Tables, batch: seq<BatchRow>, env: Env)
    requires batch != [] && FreshRow(batch[0], t.jobs) && env.throwAt >= NOWHERE
    ensures
      var p, j := Progress(t, Busy(batch, 0, Next)), batch[0].jobId;
      var tally := RowTally(p, env);
      var after := RowFrom(p, 0, env).tables.jobs;
      && j < |after|
      && tally.processed == 1 && tally.dispatched + tally.retried + tally.failed <= 1
      && (tally.dispatched == 1 <==> after[j].status == Dispatched)
      && (tally.retried == 1 <==> after[j].status == Pending)
      && (tally.failed == 1 <==> after[j].status == Failed)
  {
    hide RowFrom;
    hide RowTally;
    hide RowToSettle;
    hide Verdict;
    StartOfRow(t, batch, env);
    var j := batch[0].jobId;
    var jobs := t.jobs[j := Taken(t.jobs[j])];
    var p := Progress(t.(jobs := jobs), Busy(batch, batch[0].attempts + 1, Claiming));
    VerdictCountsNoClaims(RowToSettle(p, 1, env).worker);
    VerdictIsKept(p, 1, env, batch, batch[0].attempts + 1, jobs);
  }

  predicate Agrees(tally: Tally, job: Job) {
    && tally.dispatched + tally.retried + tally.failed <= 1
    && (tally.dispatched == 1 <==> job.status == Dispatched)
    && (tally.retried == 1 <==> job.status == Pending)
    && (tally.failed == 1 <==> job.status == Failed)
  }

  lemma {:induction false} VerdictIsKept(
    p: Progress, i: nat, env: Env, batch: seq<BatchRow>, attemptNo: nat, jobs: seq<Job>)
    requires MidRow(p, i, batch, attemptNo, jobs) && 1 <= i <= SETTLE && env.throwAt >= NOWHERE
    ensures
      var after := RowFrom(p, i, env).tables.jobs;
      batch[0].jobId < |after| && Agrees(Verdict(RowToSettle(p, i, env).worker), after[batch[0].jobId])
    decreases NOWHERE - i
  {
    hide Advance;
    hide Choose;
    hide RowFrom;
    hide RowToSettle;
    hide Verdict;
    hide Agrees;
    if i == SETTLE {
      LastStep(p, env);
      SettlesAsJudged(p, env, batch, attemptNo, jobs);
    } else {
      OneStep(p, i, env);
      var after := Advance(p, Choose(p, i, env));
      StepInRow(p, i, env, batch, attemptNo, jobs);
      if MidRow(after, i + 1, batch, attemptNo, jobs) {
        VerdictIsKept(after, i + 1, env, batch, attemptNo, jobs);
      } else {
        LeftStays(after, i + 1, env, batch);
        LeftUnjudged(p, i, env, batch, attemptNo, jobs);
      }
    }
  }

  lemma SettlesAsJudged(p: Progress, env: Env, batch: seq<BatchRow>, attemptNo: nat, jobs: seq<Job>)
    requires MidRow(p, SETTLE, batch, attemptNo, jobs) && env.throwAt >= NOWHERE
    ensures
      var after := Advance(p, Choose(p, SETTLE, env)).tables.jobs;
      batch[0].jobId < |after| && Agrees(Verdict(p.worker), after[batch[0].jobId])
  {
  }

  lemma LeftUnjudged(p: Progress, i: nat, env: Env, batch: seq<BatchRow>, attemptNo: nat, jobs: seq<Job>)
    requires MidRow(p, i, batch, attemptNo, jobs) && 1 <= i < SETTLE && env.throwAt >= NOWHERE
    requires Left(Advance(p, Choose(p, i, env)), batch)
    ensures
      var after := Advance(p, Choose(p, i, env));
      batch[0].jobId < |after.tables.jobs| && Agrees(Verdict(after.worker), after.tables.jobs[batch[0].jobId])
  {
    hide TokenTaken;
    hide ReferenceTaken;
  }

  // ── The measure ───────────────────────────────────────────────────

  function AttemptsLeft(job: Job): int {
    if job.status == Pending then MAX_DISPATCH_ATTEMPTS - job.attempts else 0
  }

  // The attempts still to be had over the whole queue.
  function Remaining(jobs: seq<Job>): int {
    if jobs == [] then 0 else Remaining(jobs[..|jobs| - 1]) + AttemptsLeft(jobs[|jobs| - 1])
  }

  function PendingCount(jobs: seq<Job>): nat {
    |PendingRows(jobs)|
  }

  predicate AttemptsBounded(jobs: seq<Job>) {
    forall j :: 0 <= j < |jobs| && jobs[j].status == Pending ==> jobs[j].attempts < MAX_DISPATCH_ATTEMPTS
  }

  lemma {:induction false} RemainingAfterWrite(jobs: seq<Job>, j: nat, job: Job)
    requires j < |jobs|
    ensures Remaining(jobs[j := job]) == Remaining(jobs) - AttemptsLeft(jobs[j]) + AttemptsLeft(job)
  {
    var n := |jobs| - 1;
    var after := jobs[j := job];
    if j == n {
      assert after[..n] == jobs[..n];
    } else {
      assert after[..n] == jobs[..n][j := job];
      RemainingAfterWrite(jobs[..n], j, job);
    }
  }

  lemma {:induction false} RemainingBounds(jobs: seq<Job>)
    requires AttemptsBounded(jobs)
    ensures PendingCount(jobs) <= Remaining(jobs) <= 3 * PendingCount(jobs)
  {
    if jobs != [] {
      RemainingBounds(jobs[..|jobs| - 1]);
    }
  }

  lemma {:induction false} PendingRowsAreFresh(jobs: seq<Job>)
    ensures forall i :: 0 <= i < |PendingRows(jobs)| ==> FreshRow(PendingRows(jobs)[i], jobs)
    ensures forall i, k :: 0 <= i < k < |PendingRows(jobs)| ==> PendingRows(jobs)[i].jobId < PendingRows(jobs)[k].jobId
    ensures forall j :: 0 <= j < |jobs| && jobs[j].status == Pending ==> PendingRows(jobs) != []
  {
    if jobs != [] {
      var n := |jobs| - 1;
      PendingRowsAreFresh(jobs[..n]);
      forall i | 0 <= i < |PendingRows(jobs[..n])| ensures FreshRow(PendingRows(jobs[..n])[i], jobs) {
        assert FreshRow(PendingRows(jobs[..n])[i], jobs[..n]);
      }
    }
  }

  // ── One sweep ─────────────────────────────────────────────────────

  predicate FreshBatch(batch: seq<BatchRow>, jobs: seq<Job>) {
    && (forall i :: 0 <= i < |batch| ==> FreshRow(batch[i], jobs))
    && (forall i, k :: 0 <= i < k < |batch| ==> batch[i].jobId < batch[k].jobId)
  }

  lemma BatchIsFresh(jobs: seq<Job>)
    ensures FreshBatch(Batch(jobs), jobs)
    ensures |Batch(jobs)| == if PendingCount(jobs) <= BATCH_SIZE then PendingCount(jobs) else BATCH_SIZE
  {
    hide FreshRow;
    PendingRowsAreFresh(jobs);
  }

  // A row leaves the rest of the batch as it was read.
  lemma RowKeepsTheRest(t: Tables, batch: seq<BatchRow>, env: Env)
    requires batch != [] && FreshBatch(batch, t.jobs)
    ensures
      var after := RowFrom(Progress(t, Busy(batch, 0, Next)), 0, env);
      after.worker == Busy(batch[1..], 0, Next) && FreshBatch(batch[1..], after.tables.jobs)
  {
    hide RowFrom;
    hide RowTally;
    RowOutcome(t, batch, env);
    var after := RowFrom(Progress(t, Busy(batch, 0, Next)), 0, env).tables.jobs;
    forall i | 0 <= i < |batch[1..]| ensures FreshRow(batch[1..][i], after) {
      assert FreshRow(batch[i + 1], t.jobs) && batch[0].jobId < batch[i + 1].jobId;
    }
  }

  lemma RowMakesProgress(t: Tables, batch: seq<BatchRow>, env: Env)
    requires batch != [] && FreshBatch(batch, t.jobs) && AttemptsBounded(t.jobs)
    ensures
      var p := Progress(t, Busy(batch, 0, Next));
      var after := RowFrom(p, 0, env);
      && AttemptsBounded(after.tables.jobs)
      && Remaining(after.tables.jobs) + RowTally(p, env).processed <= Remaining(t.jobs)
      && RowTally(p, env).processed == (if env.throwAt == 0 then 0 else 1)
  {
    hide RowFrom;
    hide RowTally;
    RowOutcome(t, batch, env);
    var j := batch[0].jobId;
    var after := RowFrom(Progress(t, Busy(batch, 0, Next)), 0, env).tables.jobs;
    RemainingAfterWrite(t.jobs, j, after[j]);
    forall k | 0 <= k < |after| && after[k].status == Pending ensures after[k].attempts < MAX_DISPATCH_ATTEMPTS {
      if k != j {
        assert after[k] == t.jobs[k];
      }
    }
  }

  // However the rows go, the worker comes to the end of its batch.
  lemma {:induction false} RowsComeToRest(t: Tables, batch: seq<BatchRow>, first: nat, envs: nat -> Env)
    requires FreshBatch(batch, t.jobs)
    ensures RowsFrom(Progress(t, Busy(batch, 0, Next)), |batch|, first, envs).worker == Busy([], 0, Next)
    decreases |batch|
  {
    hide RowFrom;
    hide RowTally;
    hide RowsFrom;
    hide RowsTally;
    hide FreshBatch;
    var p := Progress(t, Busy(batch, 0, Next));
    if batch == [] {
      RowsEnd(p, first, envs);
    } else {
      RowsStep(p, |batch|, first, envs);
      RowKeepsTheRest(t, batch, envs(first));
      RowsComeToRest(RowFrom(p, 0, envs(first)).tables, batch[1..], first + 1, envs);
    }
  }

  // Every claim goes through; deliveries may fail in every way.
  ghost predicate ClaimsGoThrough(envs: nat -> Env) {
    forall i: nat :: envs(i).throwAt != 0
  }

  lemma {:induction false} RowsMakeProgress(t: Tables, batch: seq<BatchRow>, first: nat, envs: nat -> Env)
    requires FreshBatch(batch, t.jobs) && AttemptsBounded(t.jobs)
    ensures
      var p := Progress(t, Busy(batch, 0, Next));
      var after := RowsFrom(p, |batch|, first, envs);
      && AttemptsBounded(after.tables.jobs)
      && Remaining(after.tables.jobs) + RowsTally(p, |batch|, first, envs).processed <= Remaining(t.jobs)
      && (ClaimsGoThrough(envs) ==> RowsTally(p, |batch|, first, envs).processed == |batch|)
    decreases |batch|
  {
    hide RowFrom;
    hide RowTally;
    hide RowsFrom;
    hide RowsTally;
    hide Remaining;
    hide FreshBatch;
    hide AttemptsBounded;
    var p := Progress(t, Busy(batch, 0, Next));
    if batch == [] {
      RowsEnd(p, first, envs);
    } else {
      RowsStep(p, |batch|, first, envs);
      RowKeepsTheRest(t, batch, envs(first));
      RowMakesProgress(t, batch, envs(first));
      RowsMakeProgress(RowFrom(p, 0, envs(first)).tables, batch[1..], first + 1, envs);
    }
  }

  // A sweep lowers the attempts left over the queue by at least the number of
  // jobs it claims, keeps every pending job under the limit, and, when claims go
  // through, claims the whole batch.
  lemma SweepMakesProgress(t: Tables, envs: nat -> Env)
    requires AttemptsBounded(t.jobs)
    ensures
      var after := SweepOf(t, envs);
      && AttemptsBounded(after.jobs)
      && Remaining(after.jobs) + SweepTally(t, envs).processed <= Remaining(t.jobs)
      && (ClaimsGoThrough(envs) ==> SweepTally(t, envs).processed == |Batch(t.jobs)|)
  {
    hide RowsFrom;
    hide RowsTally;
    hide Remaining;
    hide AttemptsBounded;
    hide FreshBatch;
    hide Batch;
    hide Complete;
    BatchIsFresh(t.jobs);
    RowsMakeProgress(t, Batch(t.jobs), 0, envs);
    RowsComeToRest(t, Batch(t.jobs), 0, envs);
  }

  // Enqueued jobs start without attempts.
  lemma {:induction false} EnqueueKeepsTheBound(jobs: seq<Job>, campaignId: nat, recipients: seq<nat>)
    requires AttemptsBounded(jobs)
    ensures AttemptsBounded(Enqueue(jobs, campaignId, recipients))
  {
    hide HasJob;
    if recipients != [] {
      EnqueueKeepsTheBound(jobs, campaignId, recipients[..|recipients| - 1]);
    }
  }

  // ── Many sweeps ───────────────────────────────────────────────────

  // Sweeps one after the other. Between two of them the other tables may change
  // in any way; the queue does not.
  ghost predicate SweptBy(ts: seq<Tables>, rounds: nat -> (nat -> Env)) {
    forall i :: 0 <= i < |ts| - 1 ==> ts[i + 1].jobs == SweepOf(ts[i], rounds(i)).jobs
  }

  lemma {:induction false} QueueShrinks(ts: seq<Tables>, rounds: nat -> (nat -> Env), i: nat)
    requires ts != [] && SweptBy(ts, rounds) && i < |ts| && AttemptsBounded(ts[0].jobs)
    requires forall k :: 0 <= k < i ==> ClaimsGoThrough(rounds(k))
    ensures AttemptsBounded(ts[i].jobs)
    ensures PendingCount(ts[i].jobs) == 0 || Remaining(ts[i].jobs) + i <= Remaining(ts[0].jobs)
  {
    hide SweepOf;
    hide SweepTally;
    hide ClaimsGoThrough;
    hide AttemptsBounded;
    hide Remaining;
    if i > 0 {
      QueueShrinks(ts, rounds, i - 1);
      SweepMakesProgress(ts[i - 1], rounds(i - 1));
      BatchIsFresh(ts[i - 1].jobs);
      RemainingBounds(ts[i].jobs);
      RemainingBounds(ts[i - 1].jobs);
    }
  }

  // From n pending jobs, three n sweeps leave nothing pending, whatever the
  // provider answers and wherever a row breaks off after its claim.
  lemma QueueDrains(ts: seq<Tables>, rounds: nat -> (nat -> Env), i: nat)
    requires ts != [] && SweptBy(ts, rounds) && AttemptsBounded(ts[0].jobs)
    requires 3 * PendingCount(ts[0].jobs) <= i < |ts|
    requires forall k :: 0 <= k < i ==> ClaimsGoThrough(rounds(k))
    ensures PendingCount(ts[i].jobs) == 0
  {
    QueueShrinks(ts, rounds, i);
    RemainingBounds(ts[0].jobs);
    RemainingBounds(ts[i].jobs);
  }

  lemma CompleteLeavesTheLive(campaigns: seq<Campaign>, jobs: seq<Job>, c: nat)
    requires c < |campaigns| && Complete(campaigns, jobs)[c].status == CampaignStatus.Dispatching
    ensures HasLiveJob(jobs, c)
  {
    hide HasLiveJob;
  }

  lemma SweepEndsInCompletion(t: Tables, envs: nat -> Env)
    ensures
      var done := BatchDone(t, envs).tables;
      SweepOf(t, envs) == done.(campaigns := Complete(done.campaigns, done.jobs))
  {
    hide RowsFrom;
    hide FreshBatch;
    hide Batch;
    hide Complete;
    BatchIsFresh(t.jobs);
    RowsComeToRest(t, Batch(t.jobs), 0, envs);
  }

  // A sweep leaves a campaign dispatching only if it left one of its jobs live.
  lemma SweepCompletes(t: Tables, envs: nat -> Env, c: nat)
    requires c < |SweepOf(t, envs).campaigns|
    requires SweepOf(t, envs).campaigns[c].status == CampaignStatus.Dispatching
    ensures HasLiveJob(SweepOf(t, envs).jobs, c)
  {
    hide SweepOf;
    hide BatchDone;
    hide HasLiveJob;
    hide AttemptsBounded;
    SweepEndsInCompletion(t, envs);
    var done := BatchDone(t, envs).tables;
    CompleteLeavesTheLive(done.campaigns, done.jobs, c);
  }

  // So when the queue is drained and no job was abandoned in processing, every
  // dispatching campaign is completed.
  lemma DrainedMeansCompleted(ts: seq<Tables>, rounds: nat -> (nat -> Env), i: nat, c: nat)
    requires ts != [] && SweptBy(ts, rounds) && AttemptsBounded(ts[0].jobs)
    requires 3 * PendingCount(ts[0].jobs) < i < |ts|
    requires forall k :: 0 <= k < i ==> ClaimsGoThrough(rounds(k))
    requires forall j :: 0 <= j < |ts[i].jobs| ==> ts[i].jobs[j].status != Processing
    requires c < |SweepOf(ts[i - 1], rounds(i - 1)).campaigns|
    ensures SweepOf(ts[i - 1], rounds(i - 1)).campaigns[c].status != CampaignStatus.Dispatching
  {
    hide SweepOf;
    hide AttemptsBounded;
    hide PendingRows;
    QueueDrains(ts, rounds, i);
    QueueShrinks(ts, rounds, i - 1);
    PendingRowsAreFresh(ts[i].jobs);
    if SweepOf(ts[i - 1], rounds(i - 1)).campaigns[c].status == CampaignStatus.Dispatching {
      SweepCompletes(ts[i - 1], rounds(i - 1), c);
      assert false;
    }
  }
}

// Why a job is never tried more than three times: sweeps do not overlap. If at
// most one worker is ever busy in a run (it may die in the middle and another
// may start over), the batch it works through is up to date, so the attempt
// number it settles with is the job's own.

module SingleSweeper {
  import opened Campaigns
  import opened Dispatch
  import opened DispatchSweep
  import opened SweepProgress
  import opened Protocol

  // No two workers are at work.
  predicate OneBusy(s: State) {
    forall v, w :: v in s.workers && w in s.workers && s.workers[v].Busy? && s.workers[w].Busy? ==> v == w
  }

  // At no moment of the run.
  ghost predicate SweepsDoNotOverlap(events: seq<Event>) {
    forall k: nat :: k <= |events| ==> OneBusy(Protocol.Run(events[..k]))
  }

  // The rows ahead of a worker are as the table has them, and it carries the
  // attempt number of the job in its hands.
  predicate OnTrack(jobs: seq<Job>, w: Worker) {
    w.Busy? && w.batch != [] ==>
      if w.stage.Next? then FreshBatch(w.batch, jobs)
      else
        && w.batch[0].jobId < |jobs| && jobs[w.batch[0].jobId].attempts == w.attemptNo
        && FreshBatch(w.batch[1..], jobs)
        && forall i :: 1 <= i < |w.batch| ==> w.batch[0].jobId < w.batch[i].jobId
  }

  ghost predicate Orderly(s: State) {
    AttemptsBounded(s.jobs) && forall w :: w in s.workers ==> OnTrack(s.jobs, s.workers[w])
  }

  // ── The worker's own steps ────────────────────────────────────────

  lemma FreshElsewhere(batch: seq<BatchRow>, jobs: seq<Job>, j: nat, job: Job)
    requires FreshBatch(batch, jobs) && j < |jobs| && forall i :: 0 <= i < |batch| ==> j < batch[i].jobId
    ensures FreshBatch(batch, jobs[j := job])
  {
    forall i | 0 <= i < |batch| ensures FreshRow(batch[i], jobs[j := job]) {
      assert FreshRow(batch[i], jobs);
    }
  }

  lemma FreshTail(batch: seq<BatchRow>, jobs: seq<Job>)
    requires batch != [] && FreshBatch(batch, jobs)
    ensures FreshRow(batch[0], jobs) && FreshBatch(batch[1..], jobs)
    ensures forall i :: 1 <= i < |batch| ==> batch[0].jobId < batch[i].jobId
  {
    forall i | 0 <= i < |batch[1..]| ensures FreshRow(batch[1..][i], jobs) {
      assert FreshRow(batch[i + 1], jobs);
    }
  }

  lemma TailIsAhead(batch: seq<BatchRow>, j: nat)
    requires batch != [] && forall i :: 1 <= i < |batch| ==> j < batch[i].jobId
    ensures forall i :: 0 <= i < |batch[1..]| ==> j < batch[1..][i].jobId
  {
  }

  lemma ClaimKeepsTrack(jobs: seq<Job>, w: Worker)
    requires AttemptsBounded(jobs) && OnTrack(jobs, w)
    ensures AttemptsBounded(ClaimStep(jobs, w).0) && OnTrack(ClaimStep(jobs, w).0, ClaimStep(jobs, w).1)
  {
    hide FreshBatch;
    if w.Busy? && w.stage.Next? && w.batch != [] {
      FreshTail(w.batch, jobs);
      var j := w.batch[0].jobId;
      TailIsAhead(w.batch, j);
      FreshElsewhere(w.batch[1..], jobs, j, jobs[j].(status := Processing, attempts := jobs[j].attempts + 1));
    }
  }

  lemma SettleKeepsTrack(jobs: seq<Job>, w: Worker)
    requires AttemptsBounded(jobs) && OnTrack(jobs, w)
    ensures AttemptsBounded(SettleStep(jobs, w).0) && OnTrack(SettleStep(jobs, w).0, SettleStep(jobs, w).1)
  {
    hide FreshBatch;
    if Holds(w) && (w.stage.Sent? || w.stage.Failing?) {
      var j := HeldJob(w);
      TailIsAhead(w.batch, j);
      FreshElsewhere(w.batch[1..], jobs, j, Settled(jobs[j], w.attemptNo, w.stage));
    }
  }

  lemma NextRowIsOnTrack(jobs: seq<Job>, w: Worker)
    requires w.Busy? && w.batch != [] && OnTrack(jobs, w)
    ensures OnTrack(jobs, NextRow(w))
  {
    hide FreshBatch;
    if w.stage.Next? {
      FreshTail(w.batch, jobs);
    }
  }

  // Every other step leaves the jobs alone and stays with its row or goes on.
  lemma OtherStepsAreQuiet(p: Progress, step: WorkerStep)
    requires !step.ClaimJob? && !step.Settle?
    ensures
      var after := Advance(p, step);
      && after.tables.jobs == p.tables.jobs
      && (|| after.worker == p.worker || after.worker == Idle
          || (p.worker.Busy? && p.worker.batch != [] && after.worker == NextRow(p.worker))
          || (Holds(p.worker) && after.worker.Busy? && !after.worker.stage.Next?
              && after.worker == p.worker.(stage := after.worker.stage)))
  {
    hide TokenTaken;
    hide ReferenceTaken;
    hide Complete;
    hide ChannelOf;
    hide SnapshotOfCampaign;
  }

  lemma StepKeepsTrack(p: Progress, step: WorkerStep)
    requires AttemptsBounded(p.tables.jobs) && OnTrack(p.tables.jobs, p.worker)
    ensures
      var after := Advance(p, step);
      AttemptsBounded(after.tables.jobs) && OnTrack(after.tables.jobs, after.worker)
  {
    hide AttemptsBounded;
    hide FreshBatch;
    hide ClaimStep;
    hide SettleStep;
    match step
    case ClaimJob => ClaimKeepsTrack(p.tables.jobs, p.worker);
    case Settle => SettleKeepsTrack(p.tables.jobs, p.worker);
    case _ => QuietKeepsTrack(p, step);
  }

  lemma QuietKeepsTrack(p: Progress, step: WorkerStep)
    requires !step.ClaimJob? && !step.Settle? && OnTrack(p.tables.jobs, p.worker)
    ensures Advance(p, step).tables.jobs == p.tables.jobs && OnTrack(p.tables.jobs, Advance(p, step).worker)
  {
    hide Advance;
    hide FreshBatch;
    OtherStepsAreQuiet(p, step);
    if p.worker.Busy? && p.worker.batch != [] {
      NextRowIsOnTrack(p.tables.jobs, p.worker);
    }
  }

  // ── Everybody else ────────────────────────────────────────────────

  lemma {:induction false} EnqueueExtends(jobs: seq<Job>, campaignId: nat, recipients: seq<nat>)
    ensures jobs <= Enqueue(jobs, campaignId, recipients)
  {
    hide HasJob;
    if recipients != [] {
      EnqueueExtends(jobs, campaignId, recipients[..|recipients| - 1]);
    }
  }

  lemma FreshInMore(batch: seq<BatchRow>, jobs: seq<Job>, more: seq<Job>)
    requires FreshBatch(batch, jobs) && jobs <= more
    ensures FreshBatch(batch, more)
  {
    forall i | 0 <= i < |batch| ensures FreshRow(batch[i], more) {
      assert FreshRow(batch[i], jobs);
    }
  }

  lemma OnTrackInMore(jobs: seq<Job>, more: seq<Job>, w: Worker)
    requires OnTrack(jobs, w) && jobs <= more
    ensures OnTrack(more, w)
  {
    hide FreshBatch;
    if w.Busy? && w.batch != [] {
      FreshInMore(if w.stage.Next? then w.batch else w.batch[1..], jobs, more);
    }
  }

  lemma CommitKeepsOrder(s: State, d: nat)
    requires Orderly(s)
    ensures Orderly(CommitStep(s, d))
  {
    hide OnTrack;
    hide AttemptsBounded;
    hide Enqueue;
    var dispatcher := DispatcherOf(s, d);
    var after := CommitStep(s, d);
    if dispatcher.Loaded? {
      EnqueueExtends(s.jobs, dispatcher.campaignId, dispatcher.recipients);
      EnqueueKeepsTheBound(s.jobs, dispatcher.campaignId, dispatcher.recipients);
    }
    forall w | w in after.workers ensures OnTrack(after.jobs, after.workers[w]) {
      OnTrackInMore(s.jobs, after.jobs, s.workers[w]);
    }
  }

  lemma NobodyBusyIsOnTrack(jobs: seq<Job>, w: Worker)
    requires !w.Busy?
    ensures OnTrack(jobs, w)
  {
  }

  lemma NewBatchIsOnTrack(jobs: seq<Job>)
    ensures OnTrack(jobs, Busy(Batch(jobs), 0, Next))
  {
    hide FreshBatch;
    BatchIsFresh(jobs);
  }

  lemma WorkKeepsOrder(s: State, w: nat, step: WorkerStep)
    requires Orderly(s) && OneBusy(s)
    ensures Orderly(WorkStep(s, w, step))
  {
    hide OnTrack;
    hide AttemptsBounded;
    hide Advance;
    var p := Progress(TablesOf(s), WorkerOf(s, w));
    var after := WorkStep(s, w, step);
    if !p.worker.Busy? {
      NobodyBusyIsOnTrack(s.jobs, p.worker);
      IdleDoesNothing(p, step);
    }
    StepKeepsTrack(p, step);
    forall v | v in after.workers ensures OnTrack(after.jobs, after.workers[v]) {
      if v != w {
        if p.worker.Busy? {
          assert !s.workers[v].Busy?;
          NobodyBusyIsOnTrack(after.jobs, s.workers[v]);
        }
      }
    }
  }

  lemma IdleDoesNothing(p: Progress, step: WorkerStep)
    requires !p.worker.Busy?
    ensures Advance(p, step) == p
  {
  }

  lemma StepKeepsOrder(s: State, e: Event)
    requires Orderly(s) && OneBusy(s)
    ensures Orderly(Protocol.Apply(s, e))
  {
    hide OnTrack;
    hide AttemptsBounded;
    hide OneBusy;
    hide WorkStep;
    hide CommitStep;
    hide ReturnStep;
    hide ReviseStep;
    hide PurgeStep;
    match e
    case CommitRows(d) => CommitKeepsOrder(s, d);
    case Work(w, step) => WorkKeepsOrder(s, w, step);
    case BeginSweep(w) => NewBatchIsOnTrack(s.jobs);
    case WorkerDies(w) => NobodyBusyIsOnTrack(s.jobs, Idle);
    case Return(c, otpOk, session, now) => ReturnKeepsQueue(s, c, otpOk, session, now);
    case ReviseCampaign(orgId, id, actor, catalog, action) => ReviseKeepsQueue(s, orgId, id, actor, catalog, action);
    case PurgeRoster(now) => PurgeKeepsQueue(s, now);
    case _ =>
  }

  lemma ReturnKeepsQueue(s: State, c: nat, otpOk: bool, session: string, now: int)
    ensures
      var after := ReturnStep(s, c, otpOk, session, now);
      after.jobs == s.jobs && after.workers == s.workers
  {
  }

  lemma ReviseKeepsQueue(
    s: State, orgId: nat, id: nat, actor: nat, catalog: Catalog, action: Campaigns.Action)
    ensures
      var after := ReviseStep(s, orgId, id, actor, catalog, action);
      after.jobs == s.jobs && after.workers == s.workers
  {
    hide Revise;
  }

  lemma PurgeKeepsQueue(s: State, now: int)
    ensures PurgeStep(s, now).jobs == s.jobs && PurgeStep(s, now).workers == s.workers
  {
  }

  // ── Every run ─────────────────────────────────────────────────────

  lemma PrefixDoesNotOverlap(events: seq<Event>, n: nat)
    requires SweepsDoNotOverlap(events) && n <= |events|
    ensures SweepsDoNotOverlap(events[..n]) && OneBusy(Protocol.Run(events[..n]))
  {
    hide OneBusy;
    hide RunFrom;
    forall k: nat | k <= |events[..n]| ensures OneBusy(Protocol.Run(events[..n][..k])) {
      assert events[..n][..k] == events[..k];
    }
  }

  lemma {:induction false} OneSweeperStaysOrderly(events: seq<Event>)
    requires SweepsDoNotOverlap(events)
    ensures Orderly(Protocol.Run(events))
  {
    hide Protocol.Apply;
    hide Orderly;
    hide OneBusy;
    hide SweepsDoNotOverlap;
    if events == [] {
      NobodyAtWork();
    } else {
      var n := |events| - 1;
      PrefixDoesNotOverlap(events, n);
      OneSweeperStaysOrderly(events[..n]);
      StepKeepsOrder(Protocol.Run(events[..n]), events[n]);
    }
  }

  lemma NobodyAtWork()
    ensures Orderly(START)
  {
  }

  // In every run whose sweeps do not overlap, however often a worker dies and
  // another starts over, a job in the queue has been tried less than three times.
  lemma PendingJobsHaveAttemptsLeft(events: seq<Event>, j: nat)
    requires SweepsDoNotOverlap(events)
    requires j < |Protocol.Run(events).jobs| && Protocol.Run(events).jobs[j].status == Pending
    ensures Protocol.Run(events).jobs[j].attempts < MAX_DISPATCH_ATTEMPTS
  {
    hide Protocol.Run;
    OneSweeperStaysOrderly(events);
  }

  // So from what any such run leaves in the queue a sweep makes progress,
  lemma SweepMakesProgressAfter(events: seq<Event>, t: Tables, envs: nat -> Env)
    requires SweepsDoNotOverlap(events) && t.jobs == Protocol.Run(events).jobs
    ensures
      var after := SweepOf(t, envs);
      && Remaining(after.jobs) + SweepTally(t, envs).processed <= Remaining(t.jobs)
      && (ClaimsGoThrough(envs) ==> SweepTally(t, envs).processed == |Batch(t.jobs)|)
  {
    hide Protocol.Run;
    hide SweepOf;
    hide SweepTally;
    hide Remaining;
    OneSweeperStaysOrderly(events);
    SweepMakesProgress(t, envs);
  }

  // three sweeps for each pending job drain it,
  lemma QueueDrainsAfter(events: seq<Event>, ts: seq<Tables>, rounds: nat -> (nat -> Env), i: nat)
    requires SweepsDoNotOverlap(events) && ts != [] && ts[0].jobs == Protocol.Run(events).jobs
    requires SweptBy(ts, rounds) && 3 * PendingCount(ts[0].jobs) <= i < |ts|
    requires forall k :: 0 <= k < i ==> ClaimsGoThrough(rounds(k))
    ensures PendingCount(ts[i].jobs) == 0
  {
    hide Protocol.Run;
    OneSweeperStaysOrderly(events);
    QueueDrains(ts, rounds, i);
  }

  // and once it is drained with no job abandoned, no campaign is left dispatching.
  lemma DrainedMeansCompletedAfter(events: seq<Event>, ts: seq<Tables>, rounds: nat -> (nat -> Env), i: nat, c: nat)
    requires SweepsDoNotOverlap(events) && ts != [] && ts[0].jobs == Protocol.Run(events).jobs
    requires SweptBy(ts, rounds) && 3 * PendingCount(ts[0].jobs) < i < |ts|
    requires forall k :: 0 <= k < i ==> ClaimsGoThrough(rounds(k))
    requires forall j :: 0 <= j < |ts[i].jobs| ==> ts[i].jobs[j].status != Processing
    requires c < |SweepOf(ts[i - 1], rounds(i - 1)).campaigns|
    ensures SweepOf(ts[i - 1], rounds(i - 1)).campaigns[c].status != CampaignStatus.Dispatching
  {
    hide Protocol.Run;
    hide SweepOf;
    OneSweeperStaysOrderly(events);
    DrainedMeansCompleted(ts, rounds, i, c);
  }

  // ── Exactly when the limit holds ──────────────────────────────────

  // A retry decided on the attempt number of the batch when the job itself has
  // used its attempts up.
  predicate StaleRetry(s: State, e: Event) {
    && e.Work? && e.step.Settle?
    && var w := WorkerOf(s, e.worker);
    && Holds(w) && w.stage.Sent? && w.stage.outcome.Rejected? && !w.stage.outcome.permanent
    && HeldJob(w) < |s.jobs| && s.jobs[HeldJob(w)].status == Processing
    && w.attemptNo < MAX_DISPATCH_ATTEMPTS <= s.jobs[HeldJob(w)].attempts
  }

  lemma SettleBounds(jobs: seq<Job>, w: Worker)
    requires AttemptsBounded(jobs)
    ensures AttemptsBounded(SettleStep(jobs, w).0) <==>
      !(&& Holds(w) && w.stage.Sent? && w.stage.outcome.Rejected? && !w.stage.outcome.permanent
        && HeldJob(w) < |jobs| && jobs[HeldJob(w)].status == Processing
        && w.attemptNo < MAX_DISPATCH_ATTEMPTS <= jobs[HeldJob(w)].attempts)
  {
    var after := SettleStep(jobs, w).0;
    if Holds(w) && HeldJob(w) < |jobs| {
      assert after[HeldJob(w)] == after[HeldJob(w)];
    }
  }

  lemma ClaimBounds(jobs: seq<Job>, w: Worker)
    requires AttemptsBounded(jobs)
    ensures AttemptsBounded(ClaimStep(jobs, w).0)
  {
  }

  lemma WorkBounds(s: State, w: nat, step: WorkerStep)
    requires AttemptsBounded(s.jobs)
    ensures AttemptsBounded(WorkStep(s, w, step).jobs) <==> !StaleRetry(s, Work(w, step))
  {
    hide AttemptsBounded;
    hide ClaimStep;
    hide SettleStep;
    var p := Progress(TablesOf(s), WorkerOf(s, w));
    match step
    case ClaimJob => ClaimBounds(s.jobs, p.worker);
    case Settle => SettleBounds(s.jobs, p.worker);
    case _ => OtherStepsAreQuiet(p, step);
  }

  lemma StepBounds(s: State, e: Event)
    requires AttemptsBounded(s.jobs)
    ensures AttemptsBounded(Protocol.Apply(s, e).jobs) <==> !StaleRetry(s, e)
  {
    hide AttemptsBounded;
    hide WorkStep;
    hide ReturnStep;
    hide ReviseStep;
    hide PurgeStep;
    hide Enqueue;
    match e
    case Work(w, step) => WorkBounds(s, w, step);
    case CommitRows(d) =>
      var dispatcher := DispatcherOf(s, d);
      if dispatcher.Loaded? {
        EnqueueKeepsTheBound(s.jobs, dispatcher.campaignId, dispatcher.recipients);
      }
    case Return(c, otpOk, session, now) => ReturnKeepsQueue(s, c, otpOk, session, now);
    case ReviseCampaign(orgId, id, actor, catalog, action) => ReviseKeepsQueue(s, orgId, id, actor, catalog, action);
    case PurgeRoster(now) => PurgeKeepsQueue(s, now);
    case _ =>
  }

  ghost predicate BoundedAt(events: seq<Event>, k: nat) {
    k <= |events| ==> AttemptsBounded(Protocol.Run(events[..k]).jobs)
  }

  ghost predicate RetriesFairlyAt(events: seq<Event>, k: nat) {
    k < |events| ==> !StaleRetry(Protocol.Run(events[..k]), events[k])
  }

  lemma NextMoment(events: seq<Event>, k: nat)
    requires k < |events| && BoundedAt(events, k)
    ensures BoundedAt(events, k + 1) <==> RetriesFairlyAt(events, k)
  {
    hide Protocol.Apply;
    hide AttemptsBounded;
    hide StaleRetry;
    assert events[..k + 1][..k] == events[..k];
    StepBounds(Protocol.Run(events[..k]), events[k]);
  }

  lemma {:induction false} BoundedSoFar(events: seq<Event>, k: nat)
    requires k <= |events| && forall m: nat :: m < k ==> RetriesFairlyAt(events, m)
    ensures BoundedAt(events, k)
  {
    hide RetriesFairlyAt;
    if k == 0 {
      assert events[..0] == [];
    } else {
      BoundedSoFar(events, k - 1);
      NextMoment(events, k - 1);
    }
  }

  lemma BeyondTheEnd(events: seq<Event>, k: nat)
    ensures k >= |events| ==> RetriesFairlyAt(events, k)
    ensures k > |events| ==> BoundedAt(events, k)
  {
  }

  // At every moment of a run each pending job has attempts left, exactly if no
  // retry was decided on a stale attempt number.
  lemma LimitHoldsExactlyWhen(events: seq<Event>)
    ensures (forall k: nat :: BoundedAt(events, k)) <==> (forall k: nat :: RetriesFairlyAt(events, k))
  {
    hide RetriesFairlyAt;
    hide BoundedAt;
    if forall k: nat :: RetriesFairlyAt(events, k) {
      forall k: nat ensures BoundedAt(events, k) {
        if k <= |events| {
          BoundedSoFar(events, k);
        } else {
          BeyondTheEnd(events, k);
        }
      }
    }
    if forall k: nat :: BoundedAt(events, k) {
      forall k: nat ensures RetriesFairlyAt(events, k) {
        if k < |events| {
          NextMoment(events, k);
          assert BoundedAt(events, k + 1);
        } else {
          BeyondTheEnd(events, k);
        }
      }
    }
  }
}

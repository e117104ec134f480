// The workers' steps keep the protocol's invariant.

module WorkerSteps {
  import opened Wrappers
  import opened RosterStore
  import opened Campaigns
  import opened Dispatch
  import opened Protocol
  import opened Invariants
  import RosterRows

  // ── Putting a worker back ─────────────────────────────────────────

  // A worker may be replaced by one that is in order and holds the same job or
  // none.
  lemma ReplaceWorker(jobs: seq<Job>, claims: seq<Claim>, workers: map<nat, Worker>, w: nat, before: Worker, after: Worker)
    requires WorkersOk(jobs, claims, workers)
    requires before == (if w in workers then workers[w] else Idle)
    requires WorkerOk(jobs, claims, after)
    requires Holds(after) ==> Holds(before) && HeldJob(after) == HeldJob(before)
    ensures WorkersOk(jobs, claims, workers[w := after])
  {
    hide StageOk;
    var all := workers[w := after];
    forall v, u | v in all && u in all && v != u ensures !SameJob(all[v], all[u]) {
      if v == w && w in workers {
        assert !SameJob(workers[w], workers[u]);
      } else if u == w && w in workers {
        assert !SameJob(workers[v], workers[w]);
      } else if v != w && u != w {
        assert !SameJob(workers[v], workers[u]);
      }
    }
  }

  // ── Changing one job ──────────────────────────────────────────────

  // The columns a worker's write leaves alone.
  predicate SameIdentity(a: Job, b: Job) {
    a.campaignId == b.campaignId && a.contactId == b.contactId
  }

  lemma JobWriteKeepsJobs(roster: Roster, campaigns: seq<Campaign>, jobs: seq<Job>, j: nat, job: Job)
    requires JobsOk(roster, campaigns, jobs) && j < |jobs|
    requires SameIdentity(jobs[j], job) && (Live(job) ==> Live(jobs[j]))
    requires job.lastError.Some? ==> NeverUnprepared(job.lastError.value)
    ensures JobsOk(roster, campaigns, jobs[j := job])
  {
    var after := jobs[j := job];
    forall i | 0 <= i < |after| ensures JobOk(roster, campaigns, after[i]) {
      assert JobOk(roster, campaigns, jobs[i]);
    }
    forall c, x | 0 <= c < |campaigns| && InFlight(campaigns[c].status) && x in campaigns[c].recipients
      ensures HasJob(after, c, x)
    {
      assert HasJob(jobs, c, x);
      var i :| 0 <= i < |jobs| && jobs[i].campaignId == c && jobs[i].contactId == x;
      assert after[i].campaignId == c && after[i].contactId == x;
    }
  }

  lemma JobWriteKeepsClaims(jobs: seq<Job>, claims: seq<Claim>, j: nat, job: Job)
    requires ClaimsOk(jobs, claims) && RefsOk(jobs, claims) && j < |jobs|
    requires SameIdentity(jobs[j], job) && RefOk(claims, j, job)
    ensures ClaimsOk(jobs[j := job], claims) && RefsOk(jobs[j := job], claims)
  {
    hide Clash;
    var after := jobs[j := job];
    forall k | 0 <= k < |claims| ensures ClaimOk(after, claims[k]) {
      assert ClaimOk(jobs, claims[k]);
    }
  }

  // Nobody else holds a pending job, or the job another worker holds.
  lemma JobWriteKeepsOtherWorkers(
    jobs: seq<Job>, claims: seq<Claim>, workers: map<nat, Worker>, w: nat, j: nat, job: Job, after: Worker)
    requires WorkersOk(jobs, claims, workers) && j < |jobs|
    requires jobs[j].status == Pending || (w in workers && Holds(workers[w]) && HeldJob(workers[w]) == j)
    requires WorkerOk(jobs[j := job], claims, after)
    requires Holds(after) ==> HeldJob(after) == j
    ensures WorkersOk(jobs[j := job], claims, workers[w := after])
  {
    hide StageOk;
    var all := workers[w := after];
    forall v | v in workers && v != w ensures !(Holds(workers[v]) && HeldJob(workers[v]) == j) {
      assert WorkerOk(jobs, claims, workers[v]);
      if w in workers {
        assert !SameJob(workers[v], workers[w]);
      }
    }
    forall v | v in all ensures WorkerOk(jobs[j := job], claims, all[v]) {
      if v != w {
        assert WorkerOk(jobs, claims, workers[v]);
      }
    }
    forall v, u | v in all && u in all && v != u ensures !SameJob(all[v], all[u]) {
      if v != w && u != w {
        assert !SameJob(workers[v], workers[u]);
      }
    }
  }

  lemma ClaimJobKeepsInv(s: State, w: nat)
    requires Inv(s)
    ensures Inv(WorkStep(s, w, ClaimJob))
  {
    hide Sound;
    hide JobsOk;
    hide ClaimsOk;
    hide RefsOk;
    hide WorkersOk;
    var worker := WorkerOf(s, w);
    if worker.Busy? && worker.stage.Next? && worker.batch != [] {
      var row := worker.batch[0];
      if row.jobId < |s.jobs| && s.jobs[row.jobId].status == Pending {
        var j := row.jobId;
        var job := s.jobs[j].(status := Processing, attempts := s.jobs[j].attempts + 1);
        LastErrorIsOk(s.roster, s.campaigns, s.jobs, j);
        JobWriteKeepsJobs(s.roster, s.campaigns, s.jobs, j, job);
        JobWriteKeepsClaims(s.jobs, s.claims, j, job);
        JobWriteKeepsOtherWorkers(s.jobs, s.claims, s.workers, w, j, job, Busy(worker.batch, row.attempts + 1, Claiming));
      } else {
        ReplaceWorker(s.jobs, s.claims, s.workers, w, worker, NextRow(worker));
      }
    } else {
      SameWorkerAgain(s, w);
    }
  }

  lemma LastErrorIsOk(roster: Roster, campaigns: seq<Campaign>, jobs: seq<Job>, j: nat)
    requires JobsOk(roster, campaigns, jobs) && j < |jobs|
    ensures jobs[j].lastError.Some? ==> NeverUnprepared(jobs[j].lastError.value)
  {
    assert JobOk(roster, campaigns, jobs[j]);
  }

  // A step that changes nothing about the worker.
  lemma SameWorkerAgain(s: State, w: nat)
    requires WorkersOk(s.jobs, s.claims, s.workers)
    ensures WorkersOk(s.jobs, s.claims, s.workers[w := WorkerOf(s, w)])
  {
    ReplaceWorker(s.jobs, s.claims, s.workers, w, WorkerOf(s, w), WorkerOf(s, w));
  }

  lemma SettleKeepsInv(s: State, w: nat)
    requires Inv(s)
    ensures Inv(WorkStep(s, w, Settle))
  {
    hide Sound;
    hide JobsOk;
    hide ClaimsOk;
    hide RefsOk;
    hide WorkersOk;
    var worker := WorkerOf(s, w);
    if Holds(worker) && (worker.stage.Sent? || worker.stage.Failing?) {
      HeldIsOk(s, w);
      var j := HeldJob(worker);
      var job := Settled(s.jobs[j], worker.attemptNo, worker.stage);
      LastErrorIsOk(s.roster, s.campaigns, s.jobs, j);
      JobWriteKeepsJobs(s.roster, s.campaigns, s.jobs, j, job);
      JobWriteKeepsClaims(s.jobs, s.claims, j, job);
      JobWriteKeepsOtherWorkers(s.jobs, s.claims, s.workers, w, j, job, NextRow(worker));
    } else {
      SameWorkerAgain(s, w);
    }
  }

  lemma HeldIsOk(s: State, w: nat)
    requires WorkersOk(s.jobs, s.claims, s.workers) && Holds(WorkerOf(s, w))
    ensures w in s.workers && WorkerOk(s.jobs, s.claims, WorkerOf(s, w))
  {
    hide WorkerOk;
  }

  // ── What a held job can count on ──────────────────────────────────

  // A job in a worker's hands is live, so its campaign is dispatching: its
  // contact is on the roster, with a channel, and the campaign has a snapshot.
  lemma HeldJobIsPrepared(s: State, w: nat)
    requires Inv(s) && Holds(WorkerOf(s, w))
    ensures
      var j := HeldJob(WorkerOf(s, w));
      && j < |s.jobs|
      && Reachable(s.roster.contacts, s.jobs[j].contactId)
      && SnapshotOfCampaign(s.campaigns, s.jobs[j].campaignId).Some?
  {
    hide Disjoint;
    hide ClaimsOk;
    hide StageOk;
    hide DispatchersOk;
    HeldIsOk(s, w);
    var job := s.jobs[HeldJob(WorkerOf(s, w))];
    assert JobOk(s.roster, s.campaigns, job);
    assert WellFormed(s.campaigns[job.campaignId]);
    ContactableHasChannel(s.roster.contacts[job.contactId]);
  }

  lemma ContactableHasChannel(c: Contact)
    requires RosterRows.Contactable(c.email, c.phone)
    ensures ChannelOf(c).Some?
  {
    hide RosterRows.IsEmail;
    hide RosterRows.NormalizedPhone;
    hide RosterRows.IsRosterPhone;
  }

  predicate IsReading(step: WorkerStep) {
    || step.ReadChannel? || step.MintLookup? || step.MintContact? || step.MintCampaign?
    || step.Deliver? || step.Throw? || step.ClaimThrows?
  }

  // The reading steps move the worker and nothing else.
  lemma ReadingKeepsInv(s: State, w: nat, step: WorkerStep)
    requires Inv(s)
    requires IsReading(step)
    ensures Inv(WorkStep(s, w, step))
  {
    hide Sound;
    hide CampaignsOk;
    hide JobsOk;
    hide ClaimsOk;
    hide DispatchersOk;
    hide WorkersOk;
    var worker := WorkerOf(s, w);
    var after := WorkStep(s, w, step).workers[w];
    if Holds(worker) {
      HeldIsOk(s, w);
      HeldJobIsPrepared(s, w);
      AfterReading(TablesOf(s), worker, step);
    }
    ReplaceWorker(s.jobs, s.claims, s.workers, w, worker, after);
  }

  lemma AfterReading(t: Tables, worker: Worker, step: WorkerStep)
    requires IsReading(step)
    requires Holds(worker) && WorkerOk(t.jobs, t.claims, worker)
    requires Reachable(t.contacts, t.jobs[HeldJob(worker)].contactId)
    requires SnapshotOfCampaign(t.campaigns, t.jobs[HeldJob(worker)].campaignId).Some?
    ensures
      var after := Advance(Progress(t, worker), step);
      && after.tables == t
      && WorkerOk(t.jobs, t.claims, after.worker)
      && (Holds(after.worker) ==> HeldJob(after.worker) == HeldJob(worker))
  {
  }

  // ── Minting ───────────────────────────────────────────────────────

  lemma {:induction false} ClaimOfJobIs(claims: seq<Claim>, k: nat)
    requires k < |claims| && forall i, m :: 0 <= i < m < |claims| ==> claims[i].jobId != claims[m].jobId
    ensures ClaimOfJob(claims, claims[k].jobId) == Some(k)
  {
    if k < |claims| - 1 {
      ClaimOfJobIs(claims[..|claims| - 1], k);
    }
  }

  // A rotated claim, as far as anybody else can tell.
  predicate SameClaim(a: Claim, b: Claim) {
    a.jobId == b.jobId && a.reference == b.reference && a.status == b.status
    && a.session == b.session && a.otpVerifiedAt == b.otpVerifiedAt
  }

  lemma RotationKeepsClaims(jobs: seq<Job>, claims: seq<Claim>, k: nat, claim: Claim)
    requires ClaimsOk(jobs, claims) && RefsOk(jobs, claims) && k < |claims|
    requires SameClaim(claims[k], claim) && ClaimOk(jobs, claim)
    requires !TokenTaken(claims, claim.token, Some(k))
    ensures ClaimsOk(jobs, claims[k := claim]) && RefsOk(jobs, claims[k := claim])
  {
    var after := claims[k := claim];
    forall i, m | 0 <= i < m < |after| ensures !Clash(after[i], after[m]) {
      assert !Clash(claims[i], claims[m]);
    }
    forall j | 0 <= j < |jobs| ensures RefOk(after, j, jobs[j]) {
      assert RefOk(claims, j, jobs[j]);
    }
  }

  lemma {:induction false} SameLookups(claims: seq<Claim>, after: seq<Claim>, jobId: nat)
    requires |claims| == |after| && forall i :: 0 <= i < |claims| ==> claims[i].jobId == after[i].jobId
    ensures ClaimOfJob(claims, jobId) == ClaimOfJob(after, jobId)
  {
    if claims != [] {
      var n := |claims| - 1;
      SameLookups(claims[..n], after[..n], jobId);
    }
  }

  lemma RotationKeepsTheRest(s: State, k: nat, claim: Claim)
    requires AddressesOk(s.claims, s.addresses) && WinsOk(s.claims, s.wins) && ClientsOk(s.claims, s.clients)
    requires k < |s.claims| && s.claims[k].status == claim.status
    requires s.claims[k].otpVerifiedAt.Some? ==> claim.otpVerifiedAt.Some?
    ensures
      var after := s.claims[k := claim];
      AddressesOk(after, s.addresses) && WinsOk(after, s.wins) && ClientsOk(after, s.clients)
  {
    hide WonBy;
    var after := s.claims[k := claim];
    forall c | c in s.clients ensures ClientOk(after, s.clients[c]) {
      assert ClientOk(s.claims, s.clients[c]);
    }
  }

  lemma RotationKeepsWorkers(jobs: seq<Job>, claims: seq<Claim>, workers: map<nat, Worker>, k: nat, claim: Claim)
    requires WorkersOk(jobs, claims, workers) && k < |claims| && claims[k].jobId == claim.jobId
    ensures WorkersOk(jobs, claims[k := claim], workers)
  {
    hide ChannelOf;
    var after := claims[k := claim];
    forall w | w in workers ensures WorkerOk(jobs, after, workers[w]) {
      assert WorkerOk(jobs, claims, workers[w]);
      if Holds(workers[w]) {
        SameLookups(claims, after, HeldJob(workers[w]));
      }
    }
  }

  lemma RotateKeepsInv(s: State, w: nat, k: nat, token: string, expiresAt: int)
    requires Inv(s) && Holds(WorkerOf(s, w)) && WorkerOf(s, w).stage.MintReady?
    requires WorkerOf(s, w).stage.existing == Some(k) && !TokenTaken(s.claims, token, Some(k))
    ensures
      var worker := WorkerOf(s, w);
      && HeldJob(worker) < |s.jobs| && k < |s.claims| && ChannelOf(worker.stage.contact).Some?
      && Inv(s.(
           claims := s.claims[k := Rotated(s.claims[k], s.jobs[HeldJob(worker)], worker.stage, token, expiresAt)],
           workers := s.workers[w := worker.(stage := Minted(k))]))
  {
    hide Sound;
    hide CampaignsOk;
    hide JobsOk;
    hide ClaimsOk;
    hide RefsOk;
    hide AddressesOk;
    hide WinsOk;
    hide WorkersOk;
    hide DispatchersOk;
    hide ClientsOk;
    var worker := WorkerOf(s, w);
    HeldIsOk(s, w);
    var claim := Rotated(s.claims[k], s.jobs[HeldJob(worker)], worker.stage, token, expiresAt);
    ClaimIsOk(s.jobs, s.claims, k);
    RotationKeepsClaims(s.jobs, s.claims, k, claim);
    RotationKeepsTheRest(s, k, claim);
    RotationKeepsWorkers(s.jobs, s.claims, s.workers, k, claim);
    ReplaceWorker(s.jobs, s.claims[k := claim], s.workers, w, worker, worker.(stage := Minted(k)));
  }

  lemma ClaimIsOk(jobs: seq<Job>, claims: seq<Claim>, k: nat)
    requires ClaimsOk(jobs, claims) && k < |claims|
    ensures ClaimOk(jobs, claims[k])
  {
    hide ClaimOk;
    hide Clash;
  }

  lemma MintKeepsClaims(jobs: seq<Job>, claims: seq<Claim>, claim: Claim)
    requires ClaimsOk(jobs, claims) && RefsOk(jobs, claims) && ClaimOk(jobs, claim)
    requires !TokenTaken(claims, claim.token, None) && !ReferenceTaken(claims, claim.reference)
    requires ClaimOfJob(claims, claim.jobId).None?
    ensures ClaimsOk(jobs, claims + [claim]) && RefsOk(jobs, claims + [claim])
  {
    var after := claims + [claim];
    forall i, m | 0 <= i < m < |after| ensures !Clash(after[i], after[m]) {
      if m < |claims| {
        assert !Clash(claims[i], claims[m]);
      }
    }
    forall j | 0 <= j < |jobs| ensures RefOk(after, j, jobs[j]) {
      assert RefOk(claims, j, jobs[j]);
    }
  }

  lemma MintKeepsTheRest(s: State, claim: Claim)
    requires AddressesOk(s.claims, s.addresses) && WinsOk(s.claims, s.wins) && ClientsOk(s.claims, s.clients)
    requires claim.status == ClaimStatus.Open
    ensures
      var after := s.claims + [claim];
      AddressesOk(after, s.addresses) && WinsOk(after, s.wins) && ClientsOk(after, s.clients)
  {
    hide WonBy;
    var after := s.claims + [claim];
    forall c | c in s.clients ensures ClientOk(after, s.clients[c]) {
      assert ClientOk(s.claims, s.clients[c]);
    }
  }

  lemma MintKeepsWorkers(
    jobs: seq<Job>, claims: seq<Claim>, workers: map<nat, Worker>, w: nat, claim: Claim, after: Worker)
    requires WorkersOk(jobs, claims, workers) && w in workers && Holds(workers[w])
    requires claim.jobId == HeldJob(workers[w])
    requires WorkerOk(jobs, claims + [claim], after) && Holds(after) && HeldJob(after) == claim.jobId
    ensures WorkersOk(jobs, claims + [claim], workers[w := after])
  {
    hide ChannelOf;
    var all := claims + [claim];
    forall v | v in workers && v != w ensures WorkerOk(jobs, all, workers[v]) {
      assert WorkerOk(jobs, claims, workers[v]);
      assert !SameJob(workers[v], workers[w]);
      assert all[..|all| - 1] == claims;
    }
    forall v, u | v in workers && u in workers && v != u ensures !SameJob(workers[v], workers[u]) {
    }
  }

  lemma FirstMintKeepsInv(s: State, w: nat, token: string, reference: string, expiresAt: int)
    requires Inv(s) && Holds(WorkerOf(s, w)) && WorkerOf(s, w).stage.MintReady?
    requires WorkerOf(s, w).stage.existing == None && !TokenTaken(s.claims, token, None)
    requires !ReferenceTaken(s.claims, reference)
    ensures
      var worker := WorkerOf(s, w);
      && HeldJob(worker) < |s.jobs| && ChannelOf(worker.stage.contact).Some?
      && ClaimOfJob(s.claims, HeldJob(worker)).None?
      && Inv(s.(
           claims := s.claims + [
             FirstMint(HeldJob(worker), s.jobs[HeldJob(worker)], worker.stage, token, reference, expiresAt)],
           workers := s.workers[w := worker.(stage := Minted(|s.claims|))]))
  {
    hide Sound;
    hide CampaignsOk;
    hide JobsOk;
    hide ClaimsOk;
    hide RefsOk;
    hide AddressesOk;
    hide WinsOk;
    hide WorkersOk;
    hide DispatchersOk;
    hide ClientsOk;
    var worker := WorkerOf(s, w);
    HeldIsOk(s, w);
    var claim := FirstMint(HeldJob(worker), s.jobs[HeldJob(worker)], worker.stage, token, reference, expiresAt);
    MintKeepsClaims(s.jobs, s.claims, claim);
    MintKeepsTheRest(s, claim);
    MintKeepsWorkers(s.jobs, s.claims, s.workers, w, claim, worker.(stage := Minted(|s.claims|)));
  }

  lemma MintWriteKeepsInv(s: State, w: nat, token: string, reference: string, expiresAt: int)
    requires Inv(s)
    ensures Inv(WorkStep(s, w, MintWrite(token, reference, expiresAt)))
  {
    hide Sound;
    hide CampaignsOk;
    hide JobsOk;
    hide ClaimsOk;
    hide RefsOk;
    hide AddressesOk;
    hide WinsOk;
    hide WorkersOk;
    hide DispatchersOk;
    hide ClientsOk;
    hide Rotated;
    hide FirstMint;
    hide TokenTaken;
    hide ReferenceTaken;
    var worker := WorkerOf(s, w);
    if Holds(worker) && worker.stage.MintReady? {
      HeldIsOk(s, w);
      var existing := worker.stage.existing;
      if TokenTaken(s.claims, token, existing) {
        ReplaceWorker(s.jobs, s.claims, s.workers, w, worker, NextRow(worker));
      } else if existing.Some? {
        RotateKeepsInv(s, w, existing.value, token, expiresAt);
      } else if ReferenceTaken(s.claims, reference) {
        ReplaceWorker(s.jobs, s.claims, s.workers, w, worker, NextRow(worker));
      } else {
        FirstMintKeepsInv(s, w, token, reference, expiresAt);
      }
    } else {
      SameWorkerAgain(s, w);
    }
  }

  // ── Completion ────────────────────────────────────────────────────

  lemma CompleteKeepsJobs(roster: Roster, campaigns: seq<Campaign>, jobs: seq<Job>)
    requires JobsOk(roster, campaigns, jobs)
    ensures JobsOk(roster, Complete(campaigns, jobs), jobs)
  {
    hide HasJob;
    var after := Complete(campaigns, jobs);
    forall j | 0 <= j < |jobs| ensures JobOk(roster, after, jobs[j]) {
      assert JobOk(roster, campaigns, jobs[j]);
    }
  }

  lemma CompleteKeepsOthers(
    contacts: map<nat, Contact>, campaigns: seq<Campaign>, jobs: seq<Job>, dispatchers: map<nat, Dispatcher>)
    requires CampaignsOk(contacts, campaigns) && DispatchersOk(campaigns, dispatchers)
    ensures CampaignsOk(contacts, Complete(campaigns, jobs)) && DispatchersOk(Complete(campaigns, jobs), dispatchers)
  {
    hide Lists;
    hide HasLiveJob;
    var after := Complete(campaigns, jobs);
    forall d | d in dispatchers ensures DispatcherOk(after, dispatchers[d]) {
      assert DispatcherOk(campaigns, dispatchers[d]);
    }
  }

  lemma FinishKeepsInv(s: State, w: nat)
    requires Inv(s)
    ensures Inv(WorkStep(s, w, Finish))
  {
    hide Sound;
    hide CampaignsOk;
    hide JobsOk;
    hide DispatchersOk;
    hide WorkersOk;
    hide Complete;
    var worker := WorkerOf(s, w);
    if worker.Busy? && worker.batch == [] {
      CompleteKeepsJobs(s.roster, s.campaigns, s.jobs);
      CompleteKeepsOthers(s.roster.contacts, s.campaigns, s.jobs, s.dispatchers);
      ReplaceWorker(s.jobs, s.claims, s.workers, w, worker, Idle);
    } else {
      SameWorkerAgain(s, w);
    }
  }

  lemma WorkerEventKeepsInv(s: State, e: Event)
    requires Inv(s) && (e.BeginSweep? || e.Work? || e.WorkerDies?)
    ensures Inv(Protocol.Apply(s, e))
  {
    hide Inv;
    hide WorkStep;
    match e
    case BeginSweep(w) => FreeWorkerKeepsInv(s, w, Busy(Batch(s.jobs), 0, Next));
    case WorkerDies(w) => FreeWorkerKeepsInv(s, w, Idle);
    case Work(w, step) =>
      match step
      case ClaimJob => ClaimJobKeepsInv(s, w);
      case Settle => SettleKeepsInv(s, w);
      case MintWrite(token, reference, expiresAt) => MintWriteKeepsInv(s, w, token, reference, expiresAt);
      case Finish => FinishKeepsInv(s, w);
      case _ => ReadingKeepsInv(s, w, step);
  }

  lemma FreeWorkerKeepsInv(s: State, w: nat, after: Worker)
    requires Inv(s) && !Holds(after)
    ensures Inv(s.(workers := s.workers[w := after]))
  {
    hide Sound;
    hide CampaignsOk;
    hide JobsOk;
    hide ClaimsOk;
    hide WorkersOk;
    ReplaceWorker(s.jobs, s.claims, s.workers, w, WorkerOf(s, w), after);
  }
}

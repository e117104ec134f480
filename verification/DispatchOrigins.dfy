// Who dispatches, which jobs a sweep takes and what becomes of them, stated on
// the tables and on whole runs (src/corporate/dispatch.service.ts and
// src/corporate/dispatch-worker.service.ts).

module DispatchOrigins {
  import opened Wrappers
  import opened RosterStore
  import opened Campaigns
  import opened Dispatch
  import opened Protocol
  import opened Invariants
  import CampaignOrigins

  // ── Who dispatches ────────────────────────────────────────────────

  // Event n asked for the dispatch of an approved campaign of its organization.
  ghost predicate AskedAt(events: seq<Event>, n: nat, c: nat) {
    && n < |events| && events[n].BeginDispatch? && events[n].campaignId == c
    && var campaigns := Protocol.Run(events[..n]).campaigns;
    && c < |campaigns| && campaigns[c].orgId == events[n].orgId && campaigns[c].status == Approved
  }

  lemma AskedInPrefix(events: seq<Event>, m: nat, n: nat, c: nat)
    requires m <= |events| && AskedAt(events[..m], n, c)
    ensures AskedAt(events, n, c)
  {
    hide Protocol.Run;
    assert events[..m][..n] == events[..n];
  }

  // The campaign a dispatcher has in hand.
  function InHand(d: Dispatcher): Option<nat> {
    match d
    case Checked(c) => Some(c)
    case Loaded(c, _) => Some(c)
    case _ => None
  }

  lemma HandStep(s: State, e: Event, d: nat)
    ensures
      var after := InHand(DispatcherOf(Protocol.Apply(s, e), d));
      after.Some? ==>
        if e.BeginDispatch? && e.dispatcher == d then
          && after == Some(e.campaignId) && e.campaignId < |s.campaigns|
          && s.campaigns[e.campaignId].orgId == e.orgId && s.campaigns[e.campaignId].status == Approved
        else after == InHand(DispatcherOf(s, d))
  {
    hide PurgeStep;
    hide ReviseStep;
    hide WorkStep;
    hide ReturnStep;
    hide Enqueue;
    hide Lists;
    match e
    case PurgeRoster(_) => QuietDispatchers(s, e);
    case ReviseCampaign(_, _, _, _, _) => QuietDispatchers(s, e);
    case Work(_, _) => QuietDispatchers(s, e);
    case Return(_, _, _, _) => QuietDispatchers(s, e);
    case _ =>
  }

  lemma QuietDispatchers(s: State, e: Event)
    requires e.PurgeRoster? || e.ReviseCampaign? || e.Work? || e.Return?
    ensures Protocol.Apply(s, e).dispatchers == s.dispatchers
  {
    hide Revise;
    hide Advance;
    if e.Return? {
      ReturnKeepsDispatchers(s, e.client, e.otpOk, e.session, e.now);
    }
  }

  lemma ReturnKeepsDispatchers(s: State, c: nat, otpOk: bool, session: string, now: int)
    ensures ReturnStep(s, c, otpOk, session, now).dispatchers == s.dispatchers
  {
    hide WinOf;
  }

  lemma {:induction false} HeldWasAsked(events: seq<Event>, d: nat) returns (n: nat)
    requires InHand(DispatcherOf(Protocol.Run(events), d)).Some?
    ensures AskedAt(events, n, InHand(DispatcherOf(Protocol.Run(events), d)).value)
  {
    hide Protocol.Apply;
    if events == [] {
      assert false;
    } else {
      var last := |events| - 1;
      HandStep(Protocol.Run(events[..last]), events[last], d);
      if events[last].BeginDispatch? && events[last].dispatcher == d {
        n := last;
      } else {
        n := HeldWasAsked(events[..last], d);
        AskedInPrefix(events, last, n, InHand(DispatcherOf(Protocol.Run(events), d)).value);
      }
    }
  }

  lemma OnlyCommitsDispatch(s: State, e: Event, c: nat)
    requires c < |Protocol.Apply(s, e).campaigns| && InFlight(Protocol.Apply(s, e).campaigns[c].status)
    ensures
      || (c < |s.campaigns| && InFlight(s.campaigns[c].status))
      || (e.CommitRows? && InHand(DispatcherOf(s, e.dispatcher)) == Some(c))
  {
    hide PurgeStep;
    hide ReviseStep;
    hide CommitStep;
    hide WorkStep;
    hide ReturnStep;
    hide CampaignOrigins.Accepted;
    if e.CommitRows? {
      CommitDispatches(s, e.dispatcher, c);
    } else {
      CampaignOrigins.CampaignStep(s, e, c);
      if e.ReviseCampaign? && c < |s.campaigns| && CampaignOrigins.RevisesTo(s, e, Protocol.Apply(s, e).campaigns[c]) {
        CallsNeverDispatch(s, e, Protocol.Apply(s, e).campaigns[c]);
      }
      if c < |s.campaigns| && s.campaigns[c].status == Approved {
        OthersNeverDispatch(s, e, c);
      }
    }
  }

  lemma CallsNeverDispatch(s: State, e: Event, after: Campaign)
    requires CampaignOrigins.RevisesTo(s, e, after)
    ensures !InFlight(after.status)
  {
    hide SnapshotOf;
    hide Approvable;
    hide Sellable;
  }

  lemma CommitDispatches(s: State, d: nat, c: nat)
    requires c < |CommitStep(s, d).campaigns| && InFlight(CommitStep(s, d).campaigns[c].status)
    ensures (c < |s.campaigns| && InFlight(s.campaigns[c].status)) || InHand(DispatcherOf(s, d)) == Some(c)
  {
    hide Enqueue;
  }

  lemma OthersNeverDispatch(s: State, e: Event, c: nat)
    requires c < |s.campaigns| && s.campaigns[c].status == Approved && !e.CommitRows?
    ensures c < |Protocol.Apply(s, e).campaigns| && !InFlight(Protocol.Apply(s, e).campaigns[c].status)
  {
    hide PurgeStep;
    hide ReviseStep;
    hide WorkStep;
    hide ReturnStep;
    match e
    case PurgeRoster(now) => PurgeNeverDispatches(s, now, c);
    case ReviseCampaign(_, _, _, _, _) => ReviseNeverDispatches(s, e, c);
    case Work(w, step) => WorkNeverDispatches(s, w, step, c);
    case Return(d, otpOk, session, now) => CampaignOrigins.ReturnKeepsCampaigns(s, d, otpOk, session, now);
    case _ =>
  }

  lemma PurgeNeverDispatches(s: State, now: int, c: nat)
    requires c < |s.campaigns|
    ensures c < |PurgeStep(s, now).campaigns| && PurgeStep(s, now).campaigns[c].status == s.campaigns[c].status
  {
  }

  lemma ReviseNeverDispatches(s: State, e: Event, c: nat)
    requires e.ReviseCampaign? && c < |s.campaigns| && !InFlight(s.campaigns[c].status)
    ensures c < |Protocol.Apply(s, e).campaigns| && !InFlight(Protocol.Apply(s, e).campaigns[c].status)
  {
    hide CampaignOrigins.Accepted;
    hide CampaignOrigins.RevisesTo;
    CampaignOrigins.ReviseSteps(s, e, c);
    if CampaignOrigins.RevisesTo(s, e, Protocol.Apply(s, e).campaigns[c]) && e.campaignId == c {
      CallsNeverDispatch(s, e, Protocol.Apply(s, e).campaigns[c]);
    } else {
      CampaignOrigins.RevisesExactlyWhen(s, e);
    }
  }

  lemma WorkNeverDispatches(s: State, w: nat, step: WorkerStep, c: nat)
    requires c < |s.campaigns| && s.campaigns[c].status == Approved
    ensures c < |WorkStep(s, w, step).campaigns| && WorkStep(s, w, step).campaigns[c].status == Approved
  {
    hide HasLiveJob;
    hide MintWriteStep;
    hide SettleStep;
    hide ClaimStep;
  }

  // In every run, a campaign that is dispatching or completed was sent off by a
  // call of its own organization that had found it approved.
  lemma {:induction false} DispatchWasAsked(events: seq<Event>, c: nat) returns (n: nat)
    requires c < |Protocol.Run(events).campaigns| && InFlight(Protocol.Run(events).campaigns[c].status)
    ensures AskedAt(events, n, c)
  {
    hide Protocol.Apply;
    hide AskedAt;
    if events == [] {
      assert false;
    } else {
      var last := |events| - 1;
      var s := Protocol.Run(events[..last]);
      OnlyCommitsDispatch(s, events[last], c);
      if c < |s.campaigns| && InFlight(s.campaigns[c].status) {
        n := DispatchWasAsked(events[..last], c);
      } else {
        n := HeldWasAsked(events[..last], events[last].dispatcher);
      }
      AskedInPrefix(events, last, n, c);
    }
  }

  // ── Which jobs a sweep takes ──────────────────────────────────────

  predicate IsPending(job: Job, attempts: nat) {
    job.status == Pending && job.attempts == attempts
  }

  predicate IsRow(rows: seq<BatchRow>, j: nat) {
    exists i :: 0 <= i < |rows| && rows[i].jobId == j
  }

  // Pending jobs in order, with the attempts they have had.
  ghost predicate RowsFor(jobs: seq<Job>, rows: seq<BatchRow>) {
    && (forall i, j :: 0 <= i < j < |rows| ==> rows[i].jobId < rows[j].jobId)
    && (forall i :: 0 <= i < |rows| ==> rows[i].jobId < |jobs| && IsPending(jobs[rows[i].jobId], rows[i].attempts))
  }

  ghost predicate AllRows(jobs: seq<Job>, rows: seq<BatchRow>) {
    forall j: nat :: j < |jobs| && jobs[j].status == Pending ==> IsRow(rows, j)
  }

  lemma OneMoreRow(jobs: seq<Job>, job: Job, before: seq<BatchRow>)
    requires RowsFor(jobs, before) && AllRows(jobs, before)
    ensures
      var rows := before + if job.status == Pending then [BatchRow(|jobs|, job.attempts)] else [];
      RowsFor(jobs + [job], rows) && AllRows(jobs + [job], rows)
  {
    var all := jobs + [job];
    var rows := before + if job.status == Pending then [BatchRow(|jobs|, job.attempts)] else [];
    forall j: nat | j < |all| && all[j].status == Pending ensures IsRow(rows, j) {
      if j < |jobs| {
        assert IsRow(before, j);
        var i :| 0 <= i < |before| && before[i].jobId == j;
        assert rows[i].jobId == j;
      } else {
        assert rows[|before|].jobId == j;
      }
    }
  }

  lemma {:induction false} PendingRowsAre(jobs: seq<Job>)
    ensures RowsFor(jobs, PendingRows(jobs)) && AllRows(jobs, PendingRows(jobs))
  {
    if jobs != [] {
      var n := |jobs| - 1;
      PendingRowsAre(jobs[..n]);
      OneMoreRow(jobs[..n], jobs[n], PendingRows(jobs[..n]));
      assert jobs[..n] + [jobs[n]] == jobs;
    }
  }

  // A sweep takes the oldest pending jobs, in order, with the attempts they have
  // had: all of them, or the first 25.
  lemma BatchIsTheOldest(jobs: seq<Job>)
    ensures
      var rows := Batch(jobs);
      && |rows| <= 25 && RowsFor(jobs, rows)
      && (forall j: nat :: j < |jobs| && jobs[j].status == Pending && !IsRow(rows, j) ==>
            |rows| == 25 && forall i :: 0 <= i < |rows| ==> rows[i].jobId < j)
  {
    hide PendingRows;
    PendingRowsAre(jobs);
    FirstRows(jobs, PendingRows(jobs), Batch(jobs));
  }

  lemma FirstRows(jobs: seq<Job>, all: seq<BatchRow>, rows: seq<BatchRow>)
    requires RowsFor(jobs, all) && AllRows(jobs, all)
    requires rows == if |all| <= 25 then all else all[..25]
    ensures RowsFor(jobs, rows)
    ensures forall j: nat :: j < |jobs| && jobs[j].status == Pending && !IsRow(rows, j) ==>
      |rows| == 25 && forall i :: 0 <= i < |rows| ==> rows[i].jobId < j
  {
    forall j: nat | j < |jobs| && jobs[j].status == Pending && !IsRow(rows, j)
      ensures |rows| == 25 && forall i :: 0 <= i < |rows| ==> rows[i].jobId < j
    {
      assert IsRow(all, j);
      var k :| 0 <= k < |all| && all[k].jobId == j;
      assert forall i :: 0 <= i < |rows| ==> rows[i] == all[i] && rows[i].jobId != j;
    }
  }

  // ── What becomes of a job ─────────────────────────────────────────

  // The look-up before a mint refuses exactly a job whose claim has been acted on
  // or has expired, and otherwise remembers the job's claim, if it has one.
  lemma LookupRefusesExactlyWhen(claims: seq<Claim>, w: Worker)
    requires Holds(w) && w.stage.Reached?
    requires forall i, m :: 0 <= i < m < |claims| ==> claims[i].jobId != claims[m].jobId
    ensures
      var after := MintLookupStep(claims, w).stage;
      && (after == Failing(AlreadyFinalized) <==>
            exists k :: 0 <= k < |claims| && claims[k].jobId == HeldJob(w) && claims[k].status != Open)
      && (after != Failing(AlreadyFinalized) ==>
            after.LookedUp?
            && forall k: nat :: k < |claims| ==> (claims[k].jobId == HeldJob(w) <==> after.existing == Some(k)))
  {
  }

  // A delivered job is done and names its claim; a rejected one goes back to the
  // queue exactly if the rejection is not for good and it was not the third
  // attempt; a job that could not be sent has failed.
  lemma SettlesExactlyWhen(jobs: seq<Job>, w: Worker)
    requires Holds(w) && (w.stage.Sent? || w.stage.Failing?)
    requires HeldJob(w) < |jobs| && jobs[HeldJob(w)].status == Processing
    ensures
      var after := SettleStep(jobs, w).0;
      && |after| == |jobs| && (forall j :: 0 <= j < |jobs| && j != HeldJob(w) ==> after[j] == jobs[j])
      && var job, was := after[HeldJob(w)], jobs[HeldJob(w)];
      && job.campaignId == was.campaignId && job.contactId == was.contactId && job.attempts == was.attempts
      && (job.status == Dispatched <==> w.stage.Sent? && w.stage.outcome.Delivered?)
      && (job.status == Dispatched ==> job.claimRef == Some(w.stage.claimId) && job.lastError.None?)
      && (job.status == Pending <==>
            w.stage.Sent? && w.stage.outcome.Rejected? && !w.stage.outcome.permanent && w.attemptNo < 3)
      && (job.status != Dispatched ==> job.claimRef == was.claimRef)
      && (job.status != Dispatched ==>
            job.lastError == Some(if w.stage.Sent? then Provider(w.stage.outcome.error) else w.stage.reason))
      && job.status != Processing
  {
  }
}

// What the corporate protocol promises, read off its invariant and its
// evolution: for every run, however its actors interleave and wherever they die.

module Guarantees {
  import opened Wrappers
  import opened RosterStore
  import opened RosterPurge
  import opened Campaigns
  import opened Dispatch
  import opened ClaimFlow
  import opened Protocol
  import opened Invariants
  import opened Evolution
  import WorkerSteps
  import ClaimSteps
  import Billing

  // ── Jobs ──────────────────────────────────────────────────────────

  // A worker with a job in hand owns it alone, and the job is in processing.
  lemma ProcessingJobHasOneOwner(events: seq<Event>, v: nat, w: nat)
    requires Holds(WorkerOf(Protocol.Run(events), v))
    ensures
      var s := Protocol.Run(events);
      var j := HeldJob(WorkerOf(s, v));
      && j < |s.jobs| && s.jobs[j].status == Processing
      && (Holds(WorkerOf(s, w)) && HeldJob(WorkerOf(s, w)) == j ==> v == w)
  {
    hide Protocol.Run;
    hide Sound;
    hide JobsOk;
    hide ClaimsOk;
    hide StageOk;
    ClaimSteps.ReachableStatesAreSound(events);
    var s := Protocol.Run(events);
    assert WorkerOk(s.jobs, s.claims, WorkerOf(s, v));
    if v != w && w in s.workers {
      assert !SameJob(s.workers[v], s.workers[w]);
    }
  }

  // A dispatched or failed job is never touched again.
  lemma SettledJobsStaySettled(events: seq<Event>, more: seq<Event>, j: nat)
    requires j < |Protocol.Run(events).jobs| && Over(Protocol.Run(events).jobs[j].status)
    ensures j < |Protocol.Run(events + more).jobs|
    ensures Protocol.Run(events + more).jobs[j] == Protocol.Run(events).jobs[j]
  {
    hide Protocol.Run;
    hide Inv;
    ReachableEvolves(events, more);
    assert JobEvolves(Protocol.Run(events).jobs[j], Protocol.Run(events + more).jobs[j]);
  }

  // A job has at most one claim, and a dispatched one names it.
  lemma DispatchedJobNamesItsOnlyClaim(events: seq<Event>, j: nat, k: nat)
    requires j < |Protocol.Run(events).jobs| && k < |Protocol.Run(events).claims|
    requires Protocol.Run(events).claims[k].jobId == j
    ensures
      var s := Protocol.Run(events);
      && ClaimOfJob(s.claims, j) == Some(k)
      && (s.jobs[j].status == Dispatched ==> s.jobs[j].claimRef == Some(k))
  {
    hide Protocol.Run;
    hide Sound;
    hide JobsOk;
    hide WorkersOk;
    ClaimSteps.ReachableStatesAreSound(events);
    var s := Protocol.Run(events);
    assert forall i, m :: 0 <= i < m < |s.claims| ==> !Clash(s.claims[i], s.claims[m]);
    WorkerSteps.ClaimOfJobIs(s.claims, k);
    assert RefOk(s.claims, j, s.jobs[j]);
    if s.jobs[j].status == Dispatched {
      WorkerSteps.ClaimOfJobIs(s.claims, s.jobs[j].claimRef.value);
    }
  }

  lemma EveryDispatchedJobHasAClaim(events: seq<Event>, j: nat)
    requires j < |Protocol.Run(events).jobs| && Protocol.Run(events).jobs[j].status == Dispatched
    ensures ClaimOfJob(Protocol.Run(events).claims, j).Some?
    ensures Protocol.Run(events).jobs[j].claimRef == ClaimOfJob(Protocol.Run(events).claims, j)
  {
    hide Protocol.Run;
    hide Sound;
    hide JobsOk;
    hide WorkersOk;
    ClaimSteps.ReachableStatesAreSound(events);
    var s := Protocol.Run(events);
    assert RefOk(s.claims, j, s.jobs[j]);
    DispatchedJobNamesItsOnlyClaim(events, j, s.jobs[j].claimRef.value);
  }

  // No job ever fails for want of a reachable contact or of a snapshot.
  lemma NoJobFailsUnprepared(events: seq<Event>, j: nat)
    requires j < |Protocol.Run(events).jobs|
    ensures Protocol.Run(events).jobs[j].lastError != Some(ContactUnreachable)
    ensures Protocol.Run(events).jobs[j].lastError != Some(SnapshotMissing)
  {
    hide Protocol.Run;
    hide Sound;
    hide ClaimsOk;
    hide WorkersOk;
    ClaimSteps.ReachableStatesAreSound(events);
    assert JobOk(Protocol.Run(events).roster, Protocol.Run(events).campaigns, Protocol.Run(events).jobs[j]);
  }

  // ── Campaigns ─────────────────────────────────────────────────────

  // While a campaign is dispatching its jobs are exactly its recipients, one
  // each; once it is completed its recipients are the contacts of its jobs that
  // are still on the roster.
  lemma OneJobPerRecipient(events: seq<Event>, c: nat, x: nat)
    requires c < |Protocol.Run(events).campaigns| && InFlight(Protocol.Run(events).campaigns[c].status)
    ensures
      var s := Protocol.Run(events);
      && (x in s.campaigns[c].recipients <==> HasJob(s.jobs, c, x) && x in s.roster.contacts)
      && (s.campaigns[c].status == CampaignStatus.Dispatching && HasJob(s.jobs, c, x) ==> x in s.roster.contacts)
      && (forall i, j :: 0 <= i < j < |s.jobs| && s.jobs[i].campaignId == c && s.jobs[j].campaignId == c ==>
            s.jobs[i].contactId != s.jobs[j].contactId)
  {
    hide Protocol.Run;
    hide Sound;
    hide ClaimsOk;
    hide WorkersOk;
    hide WellFormed;
    ClaimSteps.ReachableStatesAreSound(events);
    var s := Protocol.Run(events);
    if HasJob(s.jobs, c, x) {
      var j :| 0 <= j < |s.jobs| && s.jobs[j].campaignId == c && s.jobs[j].contactId == x;
      assert JobOk(s.roster, s.campaigns, s.jobs[j]);
    }
    if x in s.campaigns[c].recipients {
      assert s.campaigns[c].recipients <= s.roster.contacts.Keys;
    }
  }

  // A campaign is dispatched at most once: afterwards it never gets a job.
  lemma DispatchedAtMostOnce(events: seq<Event>, more: seq<Event>, j: nat)
    requires j < |Protocol.Run(events + more).jobs|
    requires
      var s, c := Protocol.Run(events), Protocol.Run(events + more).jobs[j].campaignId;
      c < |s.campaigns| && InFlight(s.campaigns[c].status)
    ensures j < |Protocol.Run(events).jobs|
  {
    hide Protocol.Run;
    hide Inv;
    hide CampaignEvolves;
    ReachableEvolves(events, more);
    var a, b := Protocol.Run(events), Protocol.Run(events + more);
    assert |a.jobs| <= j ==> MayEnqueue(a.campaigns, b.jobs[j].campaignId);
  }

  // Once a campaign is completed, no job of it is live, then or ever after.
  lemma CompletedMeansNoLiveJobEver(events: seq<Event>, more: seq<Event>, c: nat)
    requires c < |Protocol.Run(events).campaigns| && Protocol.Run(events).campaigns[c].status == Completed
    ensures c < |Protocol.Run(events + more).campaigns|
    ensures Protocol.Run(events + more).campaigns[c].status == Completed
    ensures !HasLiveJob(Protocol.Run(events + more).jobs, c)
  {
    hide Protocol.Run;
    hide Sound;
    hide ClaimsOk;
    hide WorkersOk;
    ReachableEvolves(events, more);
    var b := Protocol.Run(events + more);
    assert CampaignEvolves(Protocol.Run(events).campaigns[c], b.campaigns[c]);
    forall j | 0 <= j < |b.jobs| && b.jobs[j].campaignId == c ensures !Live(b.jobs[j]) {
      assert JobOk(b.roster, b.campaigns, b.jobs[j]);
    }
  }

  // Maker-checker and snapshot at approval: an approved, dispatching or
  // completed campaign was approved by somebody other than its creator, and what
  // was approved, down to the snapshot, is what it still holds after any run.
  lemma ApprovalIsFrozen(events: seq<Event>, more: seq<Event>, c: nat)
    requires c < |Protocol.Run(events).campaigns| && Sealed(Protocol.Run(events).campaigns[c].status)
    ensures
      var a, s := Protocol.Run(events).campaigns[c], Protocol.Run(events + more);
      && c < |s.campaigns|
      && a.approvedBy.Some? && a.approvedBy.value != a.createdBy
      && a.option.Some? && a.option.value.snapshot.Some?
      && s.campaigns[c].approvedBy == a.approvedBy && s.campaigns[c].createdBy == a.createdBy
      && s.campaigns[c].option == a.option && s.campaigns[c].message == a.message
      && OnceApproved(s.campaigns[c].status)
  {
    hide Protocol.Run;
    hide Sound;
    hide JobsOk;
    hide ClaimsOk;
    hide WorkersOk;
    ReachableEvolves(events, more);
    var a, s := Protocol.Run(events), Protocol.Run(events + more);
    assert WellFormed(a.campaigns[c]);
    assert CampaignEvolves(a.campaigns[c], s.campaigns[c]);
  }

  // Approved and dispatching campaigns have somebody to send to; a completed one
  // does exactly while a contact of one of its jobs is still on the roster.
  lemma RecipientsRemainExactlyWhen(events: seq<Event>, c: nat)
    requires c < |Protocol.Run(events).campaigns| && Sealed(Protocol.Run(events).campaigns[c].status)
    ensures
      var s := Protocol.Run(events);
      && (s.campaigns[c].status != Completed ==> s.campaigns[c].recipients != {})
      && (s.campaigns[c].status == Completed ==>
            (s.campaigns[c].recipients != {} <==> exists x :: x in s.roster.contacts && HasJob(s.jobs, c, x)))
  {
    hide Protocol.Run;
    hide Sound;
    hide JobsOk;
    hide ClaimsOk;
    hide WorkersOk;
    hide HasJob;
    ClaimSteps.ReachableStatesAreSound(events);
    var s := Protocol.Run(events);
    assert WellFormed(s.campaigns[c]);
    if s.campaigns[c].status == Completed {
      forall x ensures x in s.campaigns[c].recipients <==> HasJob(s.jobs, c, x) && x in s.roster.contacts {
        OneJobPerRecipient(events, c, x);
      }
      if x :| x in s.campaigns[c].recipients {
        assert HasJob(s.jobs, c, x) && x in s.roster.contacts;
      }
    }
  }

  // And the sweep does take them: once nothing protects its recipients and their
  // retention is over, a completed campaign is left with none.
  lemma PurgeEmptiesACompletedCampaign(events: seq<Event>, c: nat, now: int)
    requires c < |Protocol.Run(events).campaigns| && Protocol.Run(events).campaigns[c].status == Completed
    requires
      var s := Protocol.Run(events);
      forall x :: x in s.campaigns[c].recipients && x in s.roster.contacts ==>
        s.roster.contacts[x].purgeAfter < now && !Protected(s.campaigns, x)
    ensures
      var after := Protocol.Run(events + [PurgeRoster(now)]);
      && c < |after.campaigns| && after.campaigns[c].status == Completed && after.campaigns[c].recipients == {}
  {
    hide Protected;
    var s := Protocol.Run(events);
    RunSplits(START, events, [PurgeRoster(now)]);
    assert [PurgeRoster(now)][..0] == [];
    assert Protocol.Run(events + [PurgeRoster(now)]) == PurgeStep(s, now);
    var left := Remaining(s.roster.contacts, s.campaigns, now);
    assert s.campaigns[c].recipients * left.Keys == {};
  }

  // The two invoices of a campaign are cut from the same content: whenever, while
  // it is approved, each of them reads the campaign, they agree on unit price,
  // recipient count and goods subtotal.
  lemma InvoiceLegsAgree(events: seq<Event>, more: seq<Event>, c: nat)
    requires c < |Protocol.Run(events).campaigns| && c < |Protocol.Run(events + more).campaigns|
    requires Protocol.Run(events).campaigns[c].status == Approved
    requires Protocol.Run(events + more).campaigns[c].status == Approved
    ensures
      var a, b := Protocol.Run(events).campaigns[c], Protocol.Run(events + more).campaigns[c];
      && a.option.Some? && a.option.value.snapshot.Some? && b.option == a.option && |a.recipients| == |b.recipients| > 0
      && Billing.ComputeInvoiceAmounts(a.option.value.snapshot.value.price, |a.recipients|)
         == Billing.ComputeInvoiceAmounts(b.option.value.snapshot.value.price, |b.recipients|)
  {
    hide Protocol.Run;
    hide Sound;
    hide JobsOk;
    hide ClaimsOk;
    hide WorkersOk;
    hide Billing.ComputeInvoiceAmounts;
    ReachableEvolves(events, more);
    var a, b := Protocol.Run(events), Protocol.Run(events + more);
    assert WellFormed(a.campaigns[c]);
    assert CampaignEvolves(a.campaigns[c], b.campaigns[c]);
  }

  // ── Claims ────────────────────────────────────────────────────────

  // A claim that has left the open state never leaves the state it went to, and
  // exactly one write took it there.
  lemma FinalClaimsHaveOneWinner(events: seq<Event>, more: seq<Event>, k: nat)
    requires k < |Protocol.Run(events).claims| && Protocol.Run(events).claims[k].status != ClaimStatus.Open
    ensures
      var a, b := Protocol.Run(events), Protocol.Run(events + more);
      && k < |b.claims| && b.claims[k].status == a.claims[k].status
      && exists i :: 0 <= i < |a.wins| && a.wins[i] == Win(k, a.claims[k].status)
           && forall j :: 0 <= j < |b.wins| && b.wins[j].claimId == k ==> j == i
  {
    hide Protocol.Run;
    hide Sound;
    hide JobsOk;
    hide ClaimsOk;
    hide WorkersOk;
    hide CampaignsOk;
    ReachableEvolves(events, more);
    var a, b := Protocol.Run(events), Protocol.Run(events + more);
    assert ClaimEvolves(a.claims[k], b.claims[k]);
    assert WonBy(a.wins, k);
    var i :| 0 <= i < |a.wins| && a.wins[i].claimId == k;
    assert a.wins[i] == b.wins[i];
  }

  // Somebody was told where to deliver exactly if the claim was claimed, and
  // whoever claimed, declined or said "not me" had proved the channel first.
  lemma ClaimsAreProvedAndAddressed(events: seq<Event>, k: nat)
    requires k < |Protocol.Run(events).claims|
    ensures
      var s := Protocol.Run(events);
      && (k in s.addresses <==> s.claims[k].status == Claimed)
      && (ActedOn(s.claims[k].status) ==> s.claims[k].otpVerifiedAt.Some?)
  {
    hide Protocol.Run;
    hide Sound;
    hide JobsOk;
    hide WorkersOk;
    hide WinsOk;
    ClaimSteps.ReachableStatesAreSound(events);
    assert ClaimOk(Protocol.Run(events).jobs, Protocol.Run(events).claims[k]);
  }

  // Event i told a call about this very claim that its code was right.
  predicate ProvedAt(events: seq<Event>, i: nat, k: nat) {
    && i < |events| && events[i].Return? && events[i].otpOk
    && var client := ClientOf(Protocol.Run(events[..i]), events[i].client);
    client.Verifying? && client.claimId == k
  }

  predicate Marked(s: State, k: nat) {
    k < |s.claims| && s.claims[k].otpVerifiedAt.Some?
  }

  lemma MarkComesFromACheck(s: State, e: Event, k: nat)
    requires Marked(Protocol.Apply(s, e), k) && !Marked(s, k)
    ensures e.Return? && e.otpOk && ClientOf(s, e.client).Verifying? && ClientOf(s, e.client).claimId == k
  {
    hide PurgeStep;
    hide ReviseStep;
    hide CommitStep;
    hide WorkStep;
    match e
    case Work(w, step) => WorkMarksNothing(s, w, step, k);
    case PurgeRoster(_) => QuietStepsMarkNothing(s, e, k);
    case ReviseCampaign(_, _, _, _, _) => QuietStepsMarkNothing(s, e, k);
    case CommitRows(_) => QuietStepsMarkNothing(s, e, k);
    case _ =>
  }

  lemma QuietStepsMarkNothing(s: State, e: Event, k: nat)
    requires e.PurgeRoster? || e.ReviseCampaign? || e.CommitRows?
    ensures Marked(Protocol.Apply(s, e), k) == Marked(s, k)
  {
    hide Enqueue;
    hide Remaining;
    hide Revise;
  }

  lemma WorkMarksNothing(s: State, w: nat, step: WorkerStep, k: nat)
    ensures Marked(WorkStep(s, w, step), k) ==> Marked(s, k)
  {
    hide TokenTaken;
    hide ReferenceTaken;
    hide ClaimOfJob;
    hide ChannelOf;
    hide Complete;
  }

  // A claim carries an OTP mark only because some earlier check of this very
  // claim's code succeeded.
  lemma {:induction false} MarkedClaimsWereProved(events: seq<Event>, k: nat) returns (i: nat)
    requires Marked(Protocol.Run(events), k)
    ensures ProvedAt(events, i, k)
  {
    hide Protocol.Apply;
    if events == [] {
      assert false;
    } else {
      var n := |events| - 1;
      if Marked(Protocol.Run(events[..n]), k) {
        i := MarkedClaimsWereProved(events[..n], k);
        assert events[..n][..i] == events[..i];
      } else {
        MarkComesFromACheck(Protocol.Run(events[..n]), events[n], k);
        i := n;
      }
    }
  }

  // So whoever is about to act on a claim has proved its channel before,
  lemma WhoeverActsHasProved(events: seq<Event>, c: nat)
    requires ClientOf(Protocol.Run(events), c).Acting?
    ensures exists i: nat :: ProvedAt(events, i, ClientOf(Protocol.Run(events), c).claimId)
  {
    hide Protocol.Run;
    hide ProvedAt;
    hide Sound;
    hide JobsOk;
    hide WorkersOk;
    hide WinsOk;
    ClaimSteps.ReachableStatesAreSound(events);
    assert ClientOk(Protocol.Run(events).claims, ClientOf(Protocol.Run(events), c));
    var i := MarkedClaimsWereProved(events, ClientOf(Protocol.Run(events), c).claimId);
  }

  // and whoever claimed, declined or said "not me" had, earlier in the run, proved
  // the channel of that claim.
  lemma ActedClaimsWereProved(events: seq<Event>, k: nat)
    requires k < |Protocol.Run(events).claims| && ActedOn(Protocol.Run(events).claims[k].status)
    ensures exists i: nat :: ProvedAt(events, i, k)
  {
    hide Protocol.Run;
    hide ProvedAt;
    ClaimsAreProvedAndAddressed(events, k);
    var i := MarkedClaimsWereProved(events, k);
  }

  // Minting, first or again, writes no status, session or OTP mark, keeps the
  // reference, and changes no other claim.
  lemma MintingWritesNoStatus(s: State, w: nat, token: string, reference: string, expiresAt: int, k: nat)
    requires k < |s.claims|
    ensures
      var after := WorkStep(s, w, MintWrite(token, reference, expiresAt));
      && k < |after.claims| && WorkerSteps.SameClaim(s.claims[k], after.claims[k])
      && (after.claims[k] != s.claims[k] ==>
            Holds(WorkerOf(s, w)) && WorkerOf(s, w).stage.MintReady? && WorkerOf(s, w).stage.existing == Some(k))
  {
    hide TokenTaken;
    hide ReferenceTaken;
  }

  // A worker's mint overwrites the token of a finalized claim exactly when the
  // recipient finished between the worker's look-up, which refuses finalized
  // claims, and its write, which does not look again.
  lemma MintRotatesAFinalizedClaimExactlyWhen(s: State, w: nat, token: string, reference: string, expiresAt: int, k: nat)
    requires WorkersOk(s.jobs, s.claims, s.workers)
    requires k < |s.claims| && s.claims[k].status != ClaimStatus.Open && s.claims[k].token != token
    ensures
      var worker := WorkerOf(s, w);
      var after := MintWriteStep(s.jobs, s.claims, worker, token, reference, expiresAt).0;
      k < |after| && (after[k].token == token <==>
        && Holds(worker) && worker.stage.MintReady?
        && worker.stage.existing == Some(k) && !TokenTaken(s.claims, token, Some(k)))
  {
    hide WorkersOk;
    hide TokenTaken;
    hide ReferenceTaken;
    if Holds(WorkerOf(s, w)) {
      WorkerSteps.HeldIsOk(s, w);
    }
  }

  // The schedule that does it: the worker has looked an open claim up, the
  // recipient declines, and the worker mints.
  lemma DeclineBetweenLookupAndMint(s: State, w: nat, c: nat, k: nat, token: string, reference: string, expiresAt: int)
    requires Inv(s) && Holds(WorkerOf(s, w)) && WorkerOf(s, w).stage == LookedUp(Some(k))
    requires ClientOf(s, c) == Acting(k, Decline) && k < |s.claims| && s.claims[k].status == ClaimStatus.Open
    requires !TokenTaken(s.claims, token, None)
    ensures
      var read := WorkStep(WorkStep(ReturnStep(s, c, true, "", 0), w, MintContact), w, MintCampaign);
      var end := WorkStep(read, w, MintWrite(token, reference, expiresAt));
      k < |end.claims| && end.claims[k].status == Declined && end.claims[k].token == token
  {
    hide Inv;
    hide ReturnStep;
    hide WorkStep;
    hide TokenTaken;
    hide Reachable;
    hide SnapshotOfCampaign;
    var s1 := ReturnStep(s, c, true, "", 0);
    var s2 := WorkStep(WorkStep(s1, w, MintContact), w, MintCampaign);
    ClaimSteps.ClaimEventKeepsInv(s, Return(c, true, "", 0));
    DeclineStep(s, c, k);
    WorkerSteps.HeldJobIsPrepared(s1, w);
    MintReadGoesOn(s1, w, k);
    SameTokens(s.claims, s2.claims, k, token);
    MintRotatesFound(s2, w, token, reference, expiresAt, k);
  }

  lemma DeclineStep(s: State, c: nat, k: nat)
    requires ClientOf(s, c) == Acting(k, Decline) && k < |s.claims| && s.claims[k].status == ClaimStatus.Open
    ensures
      var after := ReturnStep(s, c, true, "", 0);
      && after.claims == s.claims[k := s.claims[k].(status := Declined)]
      && after.workers == s.workers && after.jobs == s.jobs && after.campaigns == s.campaigns && after.roster == s.roster
  {
  }

  lemma MintReadGoesOn(s: State, w: nat, k: nat)
    requires Holds(WorkerOf(s, w)) && WorkerOf(s, w).stage == LookedUp(Some(k)) && HeldJob(WorkerOf(s, w)) < |s.jobs|
    requires Reachable(s.roster.contacts, s.jobs[HeldJob(WorkerOf(s, w))].contactId)
    requires SnapshotOfCampaign(s.campaigns, s.jobs[HeldJob(WorkerOf(s, w))].campaignId).Some?
    ensures
      var after := WorkStep(WorkStep(s, w, MintContact), w, MintCampaign);
      && after.claims == s.claims && after.jobs == s.jobs && Holds(WorkerOf(after, w))
      && HeldJob(WorkerOf(after, w)) == HeldJob(WorkerOf(s, w))
      && WorkerOf(after, w).stage.MintReady? && WorkerOf(after, w).stage.existing == Some(k)
      && ChannelOf(WorkerOf(after, w).stage.contact).Some?
  {
  }

  lemma SameTokens(claims: seq<Claim>, after: seq<Claim>, k: nat, token: string)
    requires !TokenTaken(claims, token, None) && |after| == |claims|
    requires forall i :: 0 <= i < |claims| ==> after[i].token == claims[i].token
    ensures !TokenTaken(after, token, Some(k))
  {
    forall i | 0 <= i < |after| ensures after[i].token != token {
      assert Some(i) != None && claims[i].token != token;
    }
  }

  lemma MintRotatesFound(s: State, w: nat, token: string, reference: string, expiresAt: int, k: nat)
    requires Holds(WorkerOf(s, w)) && WorkerOf(s, w).stage.MintReady? && WorkerOf(s, w).stage.existing == Some(k)
    requires HeldJob(WorkerOf(s, w)) < |s.jobs| && k < |s.claims| && ChannelOf(WorkerOf(s, w).stage.contact).Some?
    requires !TokenTaken(s.claims, token, Some(k))
    ensures
      var after := WorkStep(s, w, MintWrite(token, reference, expiresAt));
      k < |after.claims| && after.claims[k].token == token && after.claims[k].status == s.claims[k].status
  {
    hide TokenTaken;
    hide ReferenceTaken;
  }
}

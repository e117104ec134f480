// Minting a job's claim as the service does it (mintForJob in
// src/corporate/claim-mint.service.ts, with allocateReference of
// src/references/reference.ts): the look-ups, the bounded search for a free gift
// reference, and the bounded retry when the insert collides after all. Other
// workers may mint for other jobs between the search and the insert.

module ClaimMint {
  import opened Wrappers
  import opened Dispatch

  const MAX_ALLOCATION_ATTEMPTS := 5
  const MAX_CREATE_ATTEMPTS := 3

  datatype MintReply =
    | Done(claimId: nat, reference: string)
    | NotMinted(reason: FailReason)
    | Thrown(error: string)

  class ClaimMintService {
    const drawn: nat -> string       // the random references, in order of drawing
    const others: nat -> seq<Claim>  // what others insert after the draw of that number
    var claims: seq<Claim>
    var draws: nat

    constructor (claims: seq<Claim>, drawn: nat -> string, others: nat -> seq<Claim>)
      ensures this.claims == claims && this.drawn == drawn && this.others == others && draws == 0
    {
      this.claims, this.drawn, this.others, draws := claims, drawn, others, 0;
    }

    // Draws until a reference is free, five times at most.
    method AllocateReference() returns (r: Result<string>)
      modifies this`draws
      ensures old(draws) < draws <= old(draws) + MAX_ALLOCATION_ATTEMPTS
      ensures forall i :: old(draws) <= i < draws - 1 ==> ReferenceTaken(claims, drawn(i))
      ensures r.Success? ==> r.value == drawn(draws - 1) && !ReferenceTaken(claims, r.value)
      ensures r.Failure? ==>
        r.error == "reference_allocation_exhausted" && draws == old(draws) + MAX_ALLOCATION_ATTEMPTS
        && ReferenceTaken(claims, drawn(draws - 1))
    {
      for attempt := 0 to MAX_ALLOCATION_ATTEMPTS
        invariant draws == old(draws) + attempt
        invariant forall i :: old(draws) <= i < draws ==> ReferenceTaken(claims, drawn(i))
      {
        var candidate := drawn(draws);
        draws := draws + 1;
        if !ReferenceTaken(claims, candidate) {
          return Success(candidate);
        }
      }
      r := Failure("reference_allocation_exhausted");
    }

    // create, under the unique indexes on job, token and reference.
    method Create(claim: Claim) returns (created: bool)
      modifies this`claims
      ensures created <==>
        !TokenTaken(old(claims), claim.token, None) && !ReferenceTaken(old(claims), claim.reference)
        && ClaimOfJob(old(claims), claim.jobId).None?
      ensures claims == if created then old(claims) + [claim] else old(claims)
    {
      created := !TokenTaken(claims, claim.token, None) && !ReferenceTaken(claims, claim.reference)
        && ClaimOfJob(claims, claim.jobId).None?;
      if created {
        claims := claims + [claim];
      }
    }

    // Earlier rows stay as they are, and a row that was created is the last one
    // and collides with none before it.
    method CreateWithReference(jobId: nat, job: Job, ready: Stage, token: string, expiresAt: int)
      returns (reply: MintReply)
      requires ready.MintReady? && ChannelOf(ready.contact).Some?
      modifies this
      ensures old(claims) <= claims && !reply.NotMinted?
      ensures reply.Done? ==>
        && |claims| > |old(claims)| && reply.claimId == |claims| - 1
        && claims[reply.claimId] == FirstMint(jobId, job, ready, token, reply.reference, expiresAt)
        && !TokenTaken(claims[..reply.claimId], token, None)
        && !ReferenceTaken(claims[..reply.claimId], reply.reference)
        && ClaimOfJob(claims[..reply.claimId], jobId).None?
    {
      for attempt := 0 to MAX_CREATE_ATTEMPTS
        invariant old(claims) <= claims
      {
        var reference := AllocateReference();
        if reference.Failure? {
          return Thrown(reference.error);
        }
        claims := claims + others(draws);
        ghost var before := claims;
        var created := Create(FirstMint(jobId, job, ready, token, reference.value, expiresAt));
        if created {
          assert claims[..|claims| - 1] == before;
          return Done(|claims| - 1, reference.value);
        }
      }
      reply := Thrown("P2002");
    }

    // One call of mintForJob. Its answer and its write are those of the worker's
    // minting steps: the look-up and the reads decide whether it is refused, a
    // found claim is rotated, and otherwise the first mint is written over
    // whatever others have inserted meanwhile.
    method MintForJob(t: Tables, jobId: nat, token: string, expiresAt: int) returns (reply: MintReply)
      requires jobId < |t.jobs|
      modifies this
      ensures
        var asked := Busy([BatchRow(jobId, 0)], 1, Reached);
        var found := MintLookupStep(old(claims), asked);
        var ready := MintCampaignStep(t, MintContactStep(t, found));
        && (ready.stage.Failing? ==> reply == NotMinted(ready.stage.reason) && claims == old(claims))
        && (!ready.stage.Failing? ==> ready.stage.MintReady? && !reply.NotMinted?)
        && (ready.stage.MintReady? && ready.stage.existing.Some? ==>
              var written := MintWriteStep(t.jobs, old(claims), ready, token, "", expiresAt);
              && claims == written.0
              && (reply.Done? <==> written.1.stage.Minted?)
              && (reply.Done? ==> reply.claimId == written.1.stage.claimId
                                  && reply.reference == claims[reply.claimId].reference))
        && (ready.stage.MintReady? && ready.stage.existing.None? ==>
              && old(claims) <= claims
              && (reply.Done? ==>
                    && |claims| > |old(claims)|
                    && MintWriteStep(t.jobs, claims[..|claims| - 1], ready, token, reply.reference, expiresAt)
                       == (claims, ready.(stage := Minted(reply.claimId)))))
    {
      var existing := ClaimOfJob(claims, jobId);
      if existing.Some? && claims[existing.value].status != Open {
        return NotMinted(AlreadyFinalized);
      }
      var job := t.jobs[jobId];
      if !Reachable(t.contacts, job.contactId) {
        return NotMinted(ContactUnreachable);
      }
      var contact := t.contacts[job.contactId];
      var snapshot := SnapshotOfCampaign(t.campaigns, job.campaignId);
      if snapshot.None? {
        return NotMinted(SnapshotMissing);
      }
      var ready := MintReady(existing, contact, t.campaigns[job.campaignId].message, snapshot.value);
      if existing.Some? {
        var k := existing.value;
        if TokenTaken(claims, token, existing) {
          return Thrown("P2002");
        }
        claims := claims[k := Rotated(claims[k], job, ready, token, expiresAt)];
        return Done(k, claims[k].reference);
      }
      reply := CreateWithReference(jobId, job, ready, token, expiresAt);
      if reply.Done? {
        assert claims == claims[..|claims| - 1] + [claims[|claims| - 1]];
      }
    }
  }
}

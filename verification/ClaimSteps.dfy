// The recipients' calls keep the protocol's invariant, and with all the others
// so does every run.

module ClaimSteps {
  import opened RosterStore
  import opened Dispatch
  import opened ClaimFlow
  import opened Protocol
  import opened Invariants
  import RosterSteps
  import CampaignSteps
  import WorkerSteps

  lemma CallKeepsInv(s: State, c: nat, token: string, request: Request, now: int)
    requires Inv(s)
    ensures Inv(s.(clients := s.clients[c := Load(s.claims, token, request, now)]))
  {
    hide Sound;
    hide CampaignsOk;
    hide JobsOk;
    hide ClaimsOk;
    hide WorkersOk;
    hide WinsOk;
    hide DispatchersOk;
  }

  // Marking a claim with a session or a status leaves the minted columns alone.
  predicate Marked(a: Claim, b: Claim) {
    a.jobId == b.jobId && a.campaignId == b.campaignId && a.contactId == b.contactId
    && a.token == b.token && a.reference == b.reference
  }

  lemma MarkKeepsClaims(jobs: seq<Job>, claims: seq<Claim>, k: nat, claim: Claim)
    requires ClaimsOk(jobs, claims) && RefsOk(jobs, claims) && k < |claims|
    requires Marked(claims[k], claim) && (ActedOn(claim.status) ==> claim.otpVerifiedAt.Some?)
    ensures ClaimsOk(jobs, claims[k := claim]) && RefsOk(jobs, claims[k := claim])
  {
    var after := claims[k := claim];
    assert ClaimOk(jobs, claims[k]);
    forall i, m | 0 <= i < m < |after| ensures !Clash(after[i], after[m]) {
      assert !Clash(claims[i], claims[m]);
    }
    forall j | 0 <= j < |jobs| ensures RefOk(after, j, jobs[j]) {
      assert RefOk(claims, j, jobs[j]);
    }
  }

  lemma MarkKeepsClients(claims: seq<Claim>, clients: map<nat, Client>, k: nat, claim: Claim)
    requires ClientsOk(claims, clients) && k < |claims|
    requires claims[k].otpVerifiedAt.Some? ==> claim.otpVerifiedAt.Some?
    ensures ClientsOk(claims[k := claim], clients)
  {
    forall c | c in clients ensures ClientOk(claims[k := claim], clients[c]) {
      assert ClientOk(claims, clients[c]);
    }
  }

  lemma OneMoreWin(claims: seq<Claim>, wins: seq<Win>, k: nat, claim: Claim)
    requires WinsOk(claims, wins) && k < |claims|
    requires claims[k].status == ClaimStatus.Open && claim.status != ClaimStatus.Open
    ensures WinsOk(claims[k := claim], wins + [Win(k, claim.status)])
  {
    var after, all := claims[k := claim], wins + [Win(k, claim.status)];
    forall m | 0 <= m < |after| && after[m].status != ClaimStatus.Open ensures WonBy(all, m) {
      if m == k {
        assert all[|wins|].claimId == k;
      } else {
        assert WonBy(wins, m);
        var i :| 0 <= i < |wins| && wins[i].claimId == m;
        assert all[i].claimId == m;
      }
    }
  }

  lemma SameWins(claims: seq<Claim>, wins: seq<Win>, addresses: map<nat, Address>, k: nat, claim: Claim)
    requires WinsOk(claims, wins) && AddressesOk(claims, addresses) && k < |claims|
    requires claim.status == claims[k].status
    ensures WinsOk(claims[k := claim], wins) && AddressesOk(claims[k := claim], addresses)
  {
    hide WonBy;
  }

  // Writing one claim's marks: what has to hold, and what then does.
  lemma MarkKeepsInv(s: State, c: nat, k: nat, claim: Claim, addresses: map<nat, Address>, wins: seq<Win>, client: Client)
    requires Inv(s) && k < |s.claims| && client.Replied?
    requires Marked(s.claims[k], claim) && (ActedOn(claim.status) ==> claim.otpVerifiedAt.Some?)
    requires s.claims[k].otpVerifiedAt.Some? ==> claim.otpVerifiedAt.Some?
    requires AddressesOk(s.claims[k := claim], addresses) && WinsOk(s.claims[k := claim], wins)
    ensures Inv(s.(
      claims := s.claims[k := claim], addresses := addresses, clients := s.clients[c := client], wins := wins))
  {
    hide Sound;
    hide CampaignsOk;
    hide JobsOk;
    hide ClaimsOk;
    hide RefsOk;
    hide AddressesOk;
    hide WinsOk;
    hide WorkersOk;
    hide DispatchersOk;
    MarkKeepsClaims(s.jobs, s.claims, k, claim);
    MarkKeepsClients(s.claims, s.clients, k, claim);
    WorkerSteps.RotationKeepsWorkers(s.jobs, s.claims, s.workers, k, claim);
  }

  lemma ExpireKeepsInv(s: State, c: nat, otpOk: bool, session: string, now: int)
    requires Inv(s) && ClientOf(s, c).Expiring?
    ensures Inv(ReturnStep(s, c, otpOk, session, now))
  {
    hide Sound;
    hide CampaignsOk;
    hide JobsOk;
    hide ClaimsOk;
    hide WorkersOk;
    hide DispatchersOk;
    hide Inv;
    hide WinsOk;
    ClientIsOk(s, c);
    var k := ClientOf(s, c).claimId;
    var after := ReturnStep(s, c, otpOk, session, now);
    var claim := after.claims[k];
    InvParts(s);
    if s.claims[k].status == ClaimStatus.Open {
      OneMoreWin(s.claims, s.wins, k, claim);
    } else {
      SameWins(s.claims, s.wins, s.addresses, k, claim);
      assert s.wins + [] == s.wins && s.claims[k := claim] == s.claims;
    }
    MarkKeepsInv(s, c, k, claim, after.addresses, after.wins, after.clients[c]);
  }

  lemma InvParts(s: State)
    requires Inv(s)
    ensures WinsOk(s.claims, s.wins) && AddressesOk(s.claims, s.addresses)
    ensures forall k :: 0 <= k < |s.claims| ==> ActedOn(s.claims[k].status) ==> s.claims[k].otpVerifiedAt.Some?
  {
    hide Sound;
    hide JobsOk;
    hide WorkersOk;
    hide Clash;
    forall k | 0 <= k < |s.claims| ensures ActedOn(s.claims[k].status) ==> s.claims[k].otpVerifiedAt.Some? {
      assert ClaimOk(s.jobs, s.claims[k]);
    }
  }

  lemma ClientIsOk(s: State, c: nat)
    requires Inv(s)
    ensures ClientOk(s.claims, ClientOf(s, c))
  {
    hide Sound;
    hide CampaignsOk;
    hide JobsOk;
    hide ClaimsOk;
    hide WorkersOk;
    hide WinsOk;
    hide DispatchersOk;
  }

  lemma ReplyKeepsInv(s: State, c: nat, client: Client)
    requires Inv(s) && client.Replied?
    ensures Inv(s.(clients := s.clients[c := client]))
  {
    hide Sound;
    hide CampaignsOk;
    hide JobsOk;
    hide ClaimsOk;
    hide WorkersOk;
    hide WinsOk;
    hide DispatchersOk;
  }

  lemma VerifyKeepsInv(s: State, c: nat, otpOk: bool, session: string, now: int)
    requires Inv(s) && ClientOf(s, c).Verifying?
    ensures Inv(ReturnStep(s, c, otpOk, session, now))
  {
    hide Inv;
    hide WinsOk;
    hide AddressesOk;
    ClientIsOk(s, c);
    var k := ClientOf(s, c).claimId;
    var after := ReturnStep(s, c, otpOk, session, now);
    assert after.wins == s.wins;
    if otpOk {
      InvParts(s);
      SameWins(s.claims, s.wins, s.addresses, k, after.claims[k]);
      MarkKeepsInv(s, c, k, after.claims[k], after.addresses, after.wins, after.clients[c]);
    } else {
      ReplyKeepsInv(s, c, after.clients[c]);
      assert after == s.(clients := s.clients[c := after.clients[c]]);
    }
  }

  lemma ActKeepsInv(s: State, c: nat, otpOk: bool, session: string, now: int)
    requires Inv(s) && ClientOf(s, c).Acting?
    ensures Inv(ReturnStep(s, c, otpOk, session, now))
  {
    hide Inv;
    hide WinsOk;
    hide AddressOf;
    ClientIsOk(s, c);
    InvParts(s);
    var client := ClientOf(s, c);
    var k := client.claimId;
    var after := ReturnStep(s, c, otpOk, session, now);
    if ClaimFlow.Refusal(client.action).None? && s.claims[k].status == ClaimStatus.Open {
      OneMoreWin(s.claims, s.wins, k, after.claims[k]);
      MarkKeepsInv(s, c, k, after.claims[k], after.addresses, after.wins, after.clients[c]);
    } else {
      assert after.wins == s.wins;
      ReplyKeepsInv(s, c, after.clients[c]);
      assert after == s.(clients := s.clients[c := after.clients[c]]);
    }
  }

  lemma RestingKeepsInv(s: State, c: nat, otpOk: bool, session: string, now: int)
    requires Inv(s) && (ClientOf(s, c).Absent? || ClientOf(s, c).Replied?)
    ensures Inv(ReturnStep(s, c, otpOk, session, now))
  {
    hide Sound;
    hide CampaignsOk;
    hide JobsOk;
    hide ClaimsOk;
    hide WorkersOk;
    hide WinsOk;
    hide DispatchersOk;
    assert s.wins + [] == s.wins;
  }

  lemma ClaimEventKeepsInv(s: State, e: Event)
    requires Inv(s) && (e.Call? || e.Return?)
    ensures Inv(Protocol.Apply(s, e))
  {
    hide Inv;
    hide ReturnStep;
    match e
    case Call(c, token, request, now) => CallKeepsInv(s, c, token, request, now);
    case Return(c, otpOk, session, now) =>
      match ClientOf(s, c)
      case Expiring(_) => ExpireKeepsInv(s, c, otpOk, session, now);
      case Verifying(_, _) => VerifyKeepsInv(s, c, otpOk, session, now);
      case Acting(_, _) => ActKeepsInv(s, c, otpOk, session, now);
      case _ => RestingKeepsInv(s, c, otpOk, session, now);
  }

  lemma EventKeepsInv(s: State, e: Event)
    requires Inv(s)
    ensures Inv(Protocol.Apply(s, e))
  {
    hide Inv;
    hide Protocol.Apply;
    match e
    case ImportRoster(_, _, _, _) => RosterSteps.RosterEventKeepsInv(s, e);
    case ArchiveContact(_, _, _) => RosterSteps.RosterEventKeepsInv(s, e);
    case PurgeRoster(_) => RosterSteps.RosterEventKeepsInv(s, e);
    case BeginSweep(_) => WorkerSteps.WorkerEventKeepsInv(s, e);
    case Work(_, _) => WorkerSteps.WorkerEventKeepsInv(s, e);
    case WorkerDies(_) => WorkerSteps.WorkerEventKeepsInv(s, e);
    case Call(_, _, _, _) => ClaimEventKeepsInv(s, e);
    case Return(_, _, _, _) => ClaimEventKeepsInv(s, e);
    case _ => CampaignSteps.CampaignEventKeepsInv(s, e);
  }

  // Every state any run reaches satisfies the invariant.
  lemma {:induction false} EveryRunKeepsInv(s: State, events: seq<Event>)
    requires Inv(s)
    ensures Inv(RunFrom(s, events))
  {
    hide Inv;
    hide Protocol.Apply;
    if events != [] {
      EveryRunKeepsInv(s, events[..|events| - 1]);
      EventKeepsInv(RunFrom(s, events[..|events| - 1]), events[|events| - 1]);
    }
  }

  lemma ReachableStatesAreSound(events: seq<Event>)
    ensures Inv(Protocol.Run(events))
  {
    StartIsSound();
    EveryRunKeepsInv(START, events);
  }

  lemma StartIsSound()
    ensures Inv(START)
  {
  }
}

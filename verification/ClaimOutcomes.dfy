// What became of a claim goes back to what its recipient asked for: read off whole
// runs of the protocol (src/corporate/claim.service.ts, notMe, decline and
// submitAddress).

module ClaimOutcomes {
  import opened Wrappers
  import opened Text
  import RosterStore
  import Campaigns
  import Phone
  import opened Dispatch
  import opened ClaimFlow
  import opened Protocol
  import opened Invariants
  import Evolution
  import ClaimSteps
  import opened ClaimSessions

  // ── What is asked for ─────────────────────────────────────────────

  predicate HasMobile(given: Option<string>) {
    var phone := Phone.NormalizePhone(given, Phone.SA);
    phone.Some? && Phone.ValidateMobile(phone, None) == Phone.Mobile
  }

  // An action goes through as it is, an address if it is complete and covered.
  predicate Deliverable(action: Action) {
    match action
    case SubmitAddress(body, covered) =>
      covered && HasMobile(body.phone) && Shows(body.country) && Shows(body.city) && Shows(body.line1)
    case _ => true
  }

  // The address is the one that was asked for, field by field.
  predicate IsAddressOf(a: Address, body: AddressBody) {
    && Phone.NormalizePhone(body.phone, Phone.SA) == Some(a.phone)
    && Keeps(body.country, Some(a.country)) && Keeps(body.city, Some(a.city)) && Keeps(body.line1, Some(a.line1))
    && Keeps(body.fullName, a.fullName) && Keeps(body.region, a.region)
    && Keeps(body.district, a.district) && Keeps(body.notes, a.notes)
  }

  // Claim k has become what the action says.
  predicate Became(s: State, k: nat, action: Action) {
    && k < |s.claims|
    && match action
       case NotMe => s.claims[k].status == Mismatch
       case Decline => s.claims[k].status == Declined
       case SubmitAddress(body, _) =>
         s.claims[k].status == Claimed && k in s.addresses && IsAddressOf(s.addresses[k], body)
  }

  lemma AddressExactlyWhen(body: AddressBody)
    ensures AddressOf(body).Success? <==> Deliverable(SubmitAddress(body, true))
    ensures AddressOf(body).Success? ==> IsAddressOf(AddressOf(body).value, body)
  {
    hide Phone.NormalizePhone;
    hide Phone.ValidateMobile;
  }

  // ── The second step of a call ─────────────────────────────────────

  // A call that got through succeeds exactly if the claim is still open and what
  // it asks for can be delivered; then the claim becomes that, and otherwise
  // nothing changes.
  lemma ActSettlesExactlyWhen(s: State, c: nat, otpOk: bool, session: string, now: int)
    requires ClientOf(s, c).Acting? && ClientOf(s, c).claimId < |s.claims|
    ensures
      var k, action, after := ClientOf(s, c).claimId, ClientOf(s, c).action, ReturnStep(s, c, otpOk, session, now);
      && ClientOf(after, c).Replied?
      && (ClientOf(after, c).reply.Success? <==> s.claims[k].status == ClaimStatus.Open && Deliverable(action))
      && (ClientOf(after, c).reply.Success? ==> Became(after, k, action))
      && (ClientOf(after, c).reply.Failure? ==> after.claims == s.claims && after.addresses == s.addresses)
  {
    hide AddressOf;
    hide IsAddressOf;
    hide WinOf;
    hide Phone.NormalizePhone;
    hide Phone.ValidateMobile;
    var action := ClientOf(s, c).action;
    if action.SubmitAddress? {
      AddressExactlyWhen(action.body);
    }
  }

  // ── Over a run ────────────────────────────────────────────────────

  // Event i asked for this action on claim k, by its token and with its session.
  ghost predicate AskedAt(events: seq<Event>, i: nat, k: nat, action: Action) {
    && i < |events| && events[i].Call? && events[i].request.Act? && events[i].request.action == action
    && Opens(Protocol.Run(events[..i]), events[i].token, events[i].now, k)
    && HoldsSession(events[..i], events[i].request.session, events[i].now, k)
  }

  lemma AskedInPrefix(events: seq<Event>, n: nat, i: nat, k: nat, action: Action)
    requires n <= |events| && AskedAt(events[..n], i, k, action)
    ensures AskedAt(events, i, k, action)
  {
    hide Protocol.Run;
    hide Opens;
    hide HoldsSession;
    assert events[..n][..i] == events[..i];
  }

  // Only its own call and return move a client.
  lemma OthersLeaveClient(s: State, e: Event, c: nat)
    requires !(e.Call? && e.client == c) && !(e.Return? && e.client == c)
    ensures ClientOf(Protocol.Apply(s, e), c) == ClientOf(s, c)
  {
    hide PurgeStep;
    hide ReviseStep;
    hide CommitStep;
    hide WorkStep;
    match e
    case Return(d, otpOk, session, now) =>
    case PurgeRoster(_) => QuietClients(s, e);
    case ReviseCampaign(_, _, _, _, _) => QuietClients(s, e);
    case CommitRows(_) => QuietClients(s, e);
    case Work(_, _) => QuietClients(s, e);
    case _ =>
  }

  lemma QuietClients(s: State, e: Event)
    requires e.PurgeRoster? || e.ReviseCampaign? || e.CommitRows? || e.Work?
    ensures Protocol.Apply(s, e).clients == s.clients
  {
    hide CommitDispatch;
    hide Advance;
    hide Campaigns.Revise;
  }

  lemma ReturnedIsDone(s: State, c: nat, otpOk: bool, session: string, now: int)
    ensures !ClientOf(ReturnStep(s, c, otpOk, session, now), c).Acting? || ClientOf(s, c).Acting?
    ensures ClientOf(s, c).Acting? && ClientOf(s, c).claimId < |s.claims| ==>
      !ClientOf(ReturnStep(s, c, otpOk, session, now), c).Acting?
  {
    hide AddressOf;
    hide WinOf;
  }

  // Whoever is about to act on a claim has asked for that.
  lemma {:induction false} ActingWasAsked(events: seq<Event>, c: nat) returns (i: nat)
    requires ClientOf(Protocol.Run(events), c).Acting?
    ensures
      AskedAt(events, i, ClientOf(Protocol.Run(events), c).claimId, ClientOf(Protocol.Run(events), c).action)
  {
    hide Protocol.Apply;
    hide Opens;
    hide HoldsSession;
    if events == [] {
      assert false;
    } else {
      var n := |events| - 1;
      var s, e, client := Protocol.Run(events[..n]), events[n], ClientOf(Protocol.Run(events), c);
      assert events == events[..n] + [e];
      if e.Call? && e.client == c {
        i := n;
        CalledActing(events[..n], c, e.token, e.request, e.now);
      } else {
        if e.Return? && e.client == c {
          ReturnLeavesNobodyActing(events[..n], c, e.otpOk, e.session, e.now);
          assert false;
        }
        OthersLeaveClient(s, e, c);
        i := ActingWasAsked(events[..n], c);
        AskedInPrefix(events, n, i, client.claimId, client.action);
      }
    }
  }

  lemma CalledActing(events: seq<Event>, c: nat, token: string, request: Request, now: int)
    requires ClientOf(Protocol.Run(events + [Call(c, token, request, now)]), c).Acting?
    ensures
      var client := ClientOf(Protocol.Run(events + [Call(c, token, request, now)]), c);
      && request.Act? && request.action == client.action
      && Opens(Protocol.Run(events), token, now, client.claimId)
      && HoldsSession(events, request.session, now, client.claimId)
  {
    hide Protocol.Run;
    hide Opens;
    hide HoldsSession;
    hide SessionHolds;
    var client := ClientOf(Protocol.Run(events + [Call(c, token, request, now)]), c);
    CallLoads(events, c, token, request, now);
    LoadsActing(Protocol.Run(events).claims, token, request, now);
    ActsExactlyWhen(events, c, token, request.session, request.action, now, client.claimId);
  }

  lemma LoadsActing(claims: seq<Claim>, token: string, request: Request, now: int)
    requires Load(claims, token, request, now).Acting?
    ensures request.Act? && request.action == Load(claims, token, request, now).action
  {
    hide SessionHolds;
  }

  lemma ReturnLeavesNobodyActing(events: seq<Event>, c: nat, otpOk: bool, session: string, now: int)
    ensures !ClientOf(Protocol.Run(events + [Return(c, otpOk, session, now)]), c).Acting?
  {
    hide Protocol.Run;
    hide RosterStore.Sound;
    hide JobsOk;
    hide WorkersOk;
    hide WinsOk;
    hide ReturnStep;
    ClaimSteps.ReachableStatesAreSound(events);
    var s := Protocol.Run(events);
    assert ClientOk(s.claims, ClientOf(s, c));
    ReturnApplies(events, c, otpOk, session, now);
    ReturnedIsDone(s, c, otpOk, session, now);
  }

  lemma ReturnApplies(events: seq<Event>, c: nat, otpOk: bool, session: string, now: int)
    ensures
      Protocol.Run(events + [Return(c, otpOk, session, now)]) ==
      ReturnStep(Protocol.Run(events), c, otpOk, session, now)
  {
    hide ReturnStep;
    assert (events + [Return(c, otpOk, session, now)])[..|events|] == events;
  }

  // ── What a step makes of a claim ──────────────────────────────────

  lemma WorkKeepsStatus(s: State, w: nat, step: WorkerStep, k: nat)
    ensures
      var after := WorkStep(s, w, step).claims;
      k < |after| ==> if k < |s.claims| then after[k].status == s.claims[k].status
                      else after[k].status == ClaimStatus.Open
  {
    hide TokenTaken;
    hide ReferenceTaken;
    hide ClaimOfJob;
    hide ChannelOf;
    hide Complete;
  }

  lemma QuietKeepsClaims(s: State, e: Event)
    requires e.PurgeRoster? || e.ReviseCampaign? || e.CommitRows?
    ensures Protocol.Apply(s, e).claims == s.claims
  {
    hide CommitDispatch;
    hide Campaigns.Revise;
  }

  // Which call gave a claim its new status.
  predicate Settles(s: State, e: Event, k: nat) {
    e.Return? && k < |s.claims| && s.claims[k].status == ClaimStatus.Open
    && (ClientOf(s, e.client) == Expiring(k) || (ClientOf(s, e.client).Acting? && ClientOf(s, e.client).claimId == k))
  }

  predicate StatusAfter(s: State, e: Event, after: State, k: nat) {
    k < |after.claims| && k < |s.claims| && Settles(s, e, k)
    && match ClientOf(s, e.client)
       case Expiring(_) => after.claims[k].status == Expired
       case Acting(_, action) => Became(after, k, action) && Deliverable(action)
       case _ => false
  }

  lemma ReturnSettles(s: State, e: Event, k: nat)
    requires e.Return?
    ensures
      var after := ReturnStep(s, e.client, e.otpOk, e.session, e.now);
      && |after.claims| == |s.claims|
      && (k < |s.claims| && after.claims[k].status != s.claims[k].status ==> StatusAfter(s, e, after, k))
  {
    hide AddressOf;
    hide IsAddressOf;
    hide WinOf;
    hide HasMobile;
    hide ClaimFlow.Refusal;
    var client := ClientOf(s, e.client);
    if client.Acting? && client.claimId < |s.claims| {
      ActSettlesExactlyWhen(s, e.client, e.otpOk, e.session, e.now);
    }
  }

  lemma StatusStep(s: State, e: Event, k: nat)
    ensures
      var after := Protocol.Apply(s, e);
      k < |after.claims| ==>
        if k < |s.claims| then after.claims[k].status == s.claims[k].status || StatusAfter(s, e, after, k)
        else after.claims[k].status == ClaimStatus.Open
  {
    hide PurgeStep;
    hide ReviseStep;
    hide CommitStep;
    hide WorkStep;
    hide ReturnStep;
    hide StatusAfter;
    match e
    case Work(w, step) => WorkKeepsStatus(s, w, step, k);
    case Return(_, _, _, _) => ReturnSettles(s, e, k);
    case PurgeRoster(_) => QuietKeepsClaims(s, e);
    case ReviseCampaign(_, _, _, _, _) => QuietKeepsClaims(s, e);
    case CommitRows(_) => QuietKeepsClaims(s, e);
    case _ =>
  }

  // ── The theorems ──────────────────────────────────────────────────

  lemma StaysBecome(events: seq<Event>, n: nat, k: nat, action: Action)
    requires n <= |events| && Became(Protocol.Run(events[..n]), k, action)
    ensures Became(Protocol.Run(events), k, action)
  {
    hide Protocol.Run;
    hide Inv;
    hide IsAddressOf;
    assert events[..n] + events[n..] == events;
    Evolution.ReachableEvolves(events[..n], events[n..]);
    var a, b := Protocol.Run(events[..n]), Protocol.Run(events);
    assert Evolution.ClaimEvolves(a.claims[k], b.claims[k]);
  }

  // In every run, a claim that was claimed, declined or disowned goes back to a
  // call for exactly that: with its token, while it was open, with the session of
  // its last OTP check, and, if it was claimed, with the address that is stored.
  lemma {:induction false} OutcomeWasAsked(events: seq<Event>, k: nat) returns (i: nat, action: Action)
    requires k < |Protocol.Run(events).claims| && ActedOn(Protocol.Run(events).claims[k].status)
    ensures AskedAt(events, i, k, action)
    ensures Became(Protocol.Run(events), k, action) && Deliverable(action)
  {
    hide Protocol.Apply;
    hide AskedAt;
    hide Deliverable;
    hide Became;
    if events == [] {
      assert false;
    } else {
      var n := |events| - 1;
      var s, e := Protocol.Run(events[..n]), events[n];
      StatusStep(s, e, k);
      if k < |s.claims| && ActedOn(s.claims[k].status) {
        i, action := OutcomeWasAsked(events[..n], k);
        StaysBecome(events, n, k, action);
        AskedInPrefix(events, n, i, k, action);
      } else {
        action := ClientOf(s, e.client).action;
        i := ActingWasAsked(events[..n], e.client);
        AskedInPrefix(events, n, i, k, action);
      }
    }
  }

  // Event i came with the token of claim k when it was open but had run out.
  ghost predicate LateAt(events: seq<Event>, i: nat, k: nat) {
    && i < |events| && events[i].Call?
    && var s := Protocol.Run(events[..i]);
    && k < |s.claims| && s.claims[k].token == events[i].token && s.claims[k].status == ClaimStatus.Open
    && s.claims[k].expiresAt < events[i].now
  }

  lemma LateInPrefix(events: seq<Event>, n: nat, i: nat, k: nat)
    requires n <= |events| && LateAt(events[..n], i, k)
    ensures LateAt(events, i, k)
  {
    hide Protocol.Run;
    assert events[..n][..i] == events[..i];
  }

  lemma LoadsExpiring(s: State, e: Event)
    requires e.Call? && ClientOf(Protocol.Apply(s, e), e.client).Expiring?
    ensures
      var k := ClientOf(Protocol.Apply(s, e), e.client).claimId;
      && k < |s.claims| && s.claims[k].token == e.token && s.claims[k].status == ClaimStatus.Open
      && s.claims[k].expiresAt < e.now
  {
    hide SessionHolds;
  }

  lemma {:induction false} ExpiringWasLate(events: seq<Event>, c: nat) returns (i: nat)
    requires ClientOf(Protocol.Run(events), c).Expiring?
    ensures LateAt(events, i, ClientOf(Protocol.Run(events), c).claimId)
  {
    hide Protocol.Apply;
    if events == [] {
      assert false;
    } else {
      var n := |events| - 1;
      var s, e, client := Protocol.Run(events[..n]), events[n], ClientOf(Protocol.Run(events), c);
      if e.Call? && e.client == c {
        i := n;
        LoadsExpiring(s, e);
      } else {
        if e.Return? && e.client == c {
          ReturnKeepsExpiring(s, c, e.otpOk, e.session, e.now);
        } else {
          OthersLeaveClient(s, e, c);
        }
        i := ExpiringWasLate(events[..n], c);
        LateInPrefix(events, n, i, client.claimId);
      }
    }
  }

  lemma ReturnKeepsExpiring(s: State, c: nat, otpOk: bool, session: string, now: int)
    requires ClientOf(Protocol.Apply(s, Return(c, otpOk, session, now)), c).Expiring?
    ensures ClientOf(s, c) == ClientOf(Protocol.Apply(s, Return(c, otpOk, session, now)), c)
  {
    hide AddressOf;
    hide WinOf;
  }

  // And an expired claim goes back to a call that came too late.
  lemma {:induction false} ExpiredWasLate(events: seq<Event>, k: nat) returns (i: nat)
    requires k < |Protocol.Run(events).claims| && Protocol.Run(events).claims[k].status == Expired
    ensures LateAt(events, i, k)
  {
    hide Protocol.Apply;
    hide LateAt;
    hide Became;
    if events == [] {
      assert false;
    } else {
      var n := |events| - 1;
      var s, e := Protocol.Run(events[..n]), events[n];
      StatusStep(s, e, k);
      if k < |s.claims| && s.claims[k].status == Expired {
        i := ExpiredWasLate(events[..n], k);
        LateInPrefix(events, n, i, k);
      } else {
        ActedIsNotExpired(Protocol.Apply(s, e), k, ClientOf(s, e.client));
        i := ExpiringWasLate(events[..n], e.client);
        LateInPrefix(events, n, i, k);
      }
    }
  }

  lemma ActedIsNotExpired(s: State, k: nat, client: Client)
    ensures client.Acting? && Became(s, k, client.action) ==> s.claims[k].status != Expired
  {
    hide IsAddressOf;
  }

  // ── The OTP check ─────────────────────────────────────────────────

  // A call to check a code gets through exactly if its token opens the claim and
  // it brings a code, and it remembers the mark the claim had.
  lemma VerifiesExactlyWhen(
    events: seq<Event>, c: nat, token: string, codeGiven: bool, now: int, k: nat, mark: Option<int>)
    ensures
      ClientOf(Protocol.Run(events + [Call(c, token, VerifyOtp(codeGiven), now)]), c) == Verifying(k, mark) <==>
      && Opens(Protocol.Run(events), token, now, k) && codeGiven
      && Protocol.Run(events).claims[k].otpVerifiedAt == mark
  {
    hide Protocol.Run;
    var claims := Protocol.Run(events).claims;
    CallLoads(events, c, token, VerifyOtp(codeGiven), now);
    TokensDiffer(events);
    if k < |claims| && claims[k].token == token {
      TokenNamesItsClaim(claims, token, k);
    }
  }

  // A right code opens a session for half an hour and marks a claim that its call
  // had found unmarked; a wrong one changes nothing.
  lemma CheckSettles(s: State, c: nat, otpOk: bool, session: string, now: int)
    requires ClientOf(s, c).Verifying? && ClientOf(s, c).claimId < |s.claims|
    ensures
      var k, mark := ClientOf(s, c).claimId, ClientOf(s, c).previous;
      var after := ReturnStep(s, c, otpOk, session, now);
      && ClientOf(after, c) == Replied(if otpOk then Success(session) else Failure("invalid_code"))
      && after.claims == (
           if !otpOk then s.claims
           else s.claims[k := s.claims[k].(
             session := Some(Session(session, now + 1_800_000)),
             otpVerifiedAt := if mark.None? then Some(now) else mark)])
      && after.addresses == s.addresses
  {
    hide WinOf;
  }
}

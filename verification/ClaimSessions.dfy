// Which caller may act on a claim (src/corporate/claim.service.ts, loadSession):
// the one that holds the session which the last successful OTP check of that very
// claim handed out, until it runs out. Read off whole runs of the protocol.

module ClaimSessions {
  import opened Wrappers
  import RosterStore
  import opened Dispatch
  import opened ClaimFlow
  import opened Protocol
  import opened Invariants
  import opened Guarantees
  import ClaimSteps

  // Event i is the last one so far that proved claim k.
  ghost predicate LastProved(events: seq<Event>, i: nat, k: nat) {
    i < |events| && ProvedAt(events, i, k) && forall j: nat :: i < j < |events| ==> !ProvedAt(events, j, k)
  }

  ghost function LastProof(events: seq<Event>, k: nat): Option<nat> {
    if events == [] then None
    else if ProvedAt(events, |events| - 1, k) then Some(|events| - 1)
    else LastProof(events[..|events| - 1], k)
  }

  lemma ProvedInPrefix(events: seq<Event>, n: nat, i: nat, k: nat)
    requires i < n <= |events|
    ensures ProvedAt(events, i, k) <==> ProvedAt(events[..n], i, k)
  {
    hide Protocol.Run;
    assert events[..n][..i] == events[..i];
  }

  lemma {:induction false} LastProofIsLast(events: seq<Event>, k: nat)
    ensures
      match LastProof(events, k)
      case Some(i) => LastProved(events, i, k)
      case None => forall j: nat :: j < |events| ==> !ProvedAt(events, j, k)
  {
    hide ProvedAt;
    if events != [] {
      var n := |events| - 1;
      LastProofIsLast(events[..n], k);
      forall j: nat | j < n ensures ProvedAt(events, j, k) <==> ProvedAt(events[..n], j, k) {
        ProvedInPrefix(events, n, j, k);
      }
    }
  }

  // ── What the claim remembers ──────────────────────────────────────

  // The claim's session and OTP mark are those of the last check that proved it.
  predicate Remembers(claim: Claim, e: Event)
    requires e.Return?
  {
    claim.session == Some(Session(e.session, e.now + 30 * 60 * 1000)) && claim.otpVerifiedAt.Some?
  }

  predicate Unproved(claim: Claim) {
    claim.session.None? && claim.otpVerifiedAt.None?
  }

  predicate Proves(s: State, e: Event, k: nat) {
    e.Return? && e.otpOk && ClientOf(s, e.client).Verifying? && ClientOf(s, e.client).claimId == k
  }

  predicate SameProof(a: Claim, b: Claim) {
    a.session == b.session && a.otpVerifiedAt == b.otpVerifiedAt
  }

  // One step leaves a claim's session and mark alone, or proves it.
  ghost predicate StepProofs(s: State, after: State, e: Event, k: nat) {
    && (k < |s.claims| ==> k < |after.claims|)
    && (k < |after.claims| ==>
          if k < |s.claims| && Proves(s, e, k) then Remembers(after.claims[k], e)
          else if k < |s.claims| then SameProof(s.claims[k], after.claims[k])
          else Unproved(after.claims[k]))
  }

  lemma WorkStepProofs(s: State, w: nat, step: WorkerStep, k: nat)
    ensures StepProofs(s, WorkStep(s, w, step), Work(w, step), k)
  {
    hide TokenTaken;
    hide ReferenceTaken;
    hide ClaimOfJob;
    hide ChannelOf;
    hide Complete;
  }

  lemma ReturnStepProofs(s: State, c: nat, otpOk: bool, session: string, now: int, k: nat)
    ensures StepProofs(s, ReturnStep(s, c, otpOk, session, now), Return(c, otpOk, session, now), k)
  {
  }

  lemma StepKeepsProofs(s: State, e: Event, k: nat)
    ensures StepProofs(s, Protocol.Apply(s, e), e, k)
  {
    hide WorkStep;
    hide ReturnStep;
    hide PurgeStep;
    hide ReviseStep;
    hide CommitStep;
    hide StepProofs;
    match e
    case Work(w, step) => WorkStepProofs(s, w, step, k);
    case Return(c, otpOk, session, now) => ReturnStepProofs(s, c, otpOk, session, now, k);
    case PurgeRoster(_) => QuietProofs(s, e, k);
    case ReviseCampaign(_, _, _, _, _) => QuietProofs(s, e, k);
    case CommitRows(_) => QuietProofs(s, e, k);
    case _ => SameClaims(s, Protocol.Apply(s, e), e, k);
  }

  lemma QuietProofs(s: State, e: Event, k: nat)
    requires e.PurgeRoster? || e.ReviseCampaign? || e.CommitRows?
    ensures StepProofs(s, Protocol.Apply(s, e), e, k)
  {
  }

  lemma SameClaims(s: State, after: State, e: Event, k: nat)
    requires after.claims == s.claims && !e.Return?
    ensures StepProofs(s, after, e, k)
  {
  }

  lemma {:induction false} OnlyClaimsAreProved(events: seq<Event>, k: nat)
    requires LastProof(events, k).Some?
    ensures k < |Protocol.Run(events).claims|
  {
    hide Protocol.Apply;
    hide Inv;
    if events != [] {
      var n := |events| - 1;
      var before := Protocol.Run(events[..n]);
      StepKeepsProofs(before, events[n], k);
      if ProvedAt(events, n, k) {
        ClaimSteps.ReachableStatesAreSound(events[..n]);
        VerifiedClaimExists(before, events[n].client);
      } else {
        OnlyClaimsAreProved(events[..n], k);
      }
    }
  }

  lemma VerifiedClaimExists(s: State, c: nat)
    requires Inv(s) && ClientOf(s, c).Verifying?
    ensures ClientOf(s, c).claimId < |s.claims|
  {
    hide RosterStore.Sound;
    hide JobsOk;
    hide WorkersOk;
    hide WinsOk;
    assert ClientOk(s.claims, ClientOf(s, c));
  }

  // In every run a claim remembers the last check that proved it, and a claim
  // never proved remembers none.
  lemma {:induction false} ClaimsRememberTheirProof(events: seq<Event>, k: nat)
    requires k < |Protocol.Run(events).claims|
    ensures
      var claim, last := Protocol.Run(events).claims[k], LastProof(events, k);
      if last.Some? then last.value < |events| && events[last.value].Return? && Remembers(claim, events[last.value])
      else Unproved(claim)
  {
    hide Protocol.Apply;
    if events != [] {
      var n := |events| - 1;
      var before := Protocol.Run(events[..n]);
      StepKeepsProofs(before, events[n], k);
      if k < |before.claims| {
        ClaimsRememberTheirProof(events[..n], k);
      } else {
        if LastProof(events[..n], k).Some? {
          OnlyClaimsAreProved(events[..n], k);
        }
        NotYetProved(events, k);
      }
    }
  }

  lemma NotYetProved(events: seq<Event>, k: nat)
    requires events != [] && |Protocol.Run(events[..|events| - 1]).claims| <= k
    ensures !ProvedAt(events, |events| - 1, k)
  {
    hide Protocol.Run;
    hide Inv;
    var n := |events| - 1;
    var before, e := Protocol.Run(events[..n]), events[n];
    ClaimSteps.ReachableStatesAreSound(events[..n]);
    if e.Return? && ClientOf(before, e.client).Verifying? {
      VerifiedClaimExists(before, e.client);
    }
  }

  // ── Who gets through ──────────────────────────────────────────────

  // The token is that of an open claim that has not run out.
  predicate Opens(s: State, token: string, now: int, k: nat) {
    && |token| >= 16 && k < |s.claims| && s.claims[k].token == token
    && s.claims[k].status == Open && now <= s.claims[k].expiresAt
  }

  // What the caller holds is the session that the last successful check of this
  // claim handed out, within half an hour.
  ghost predicate HoldsSession(events: seq<Event>, held: Option<string>, now: int, k: nat) {
    exists i: nat :: HoldsSessionOf(events, i, held, now, k)
  }

  ghost predicate HoldsSessionOf(events: seq<Event>, i: nat, held: Option<string>, now: int, k: nat) {
    && LastProved(events, i, k)
    && held == Some(events[i].session) && held != Some("") && now <= events[i].now + 30 * 60 * 1000
  }

  lemma LastProvedIsOne(events: seq<Event>, i: nat, j: nat, k: nat)
    requires LastProved(events, i, k) && LastProved(events, j, k)
    ensures i == j
  {
  }

  lemma SessionHoldsExactlyWhen(events: seq<Event>, held: Option<string>, now: int, k: nat)
    requires k < |Protocol.Run(events).claims|
    ensures SessionHolds(Protocol.Run(events).claims[k], held, now) <==> HoldsSession(events, held, now, k)
  {
    hide Protocol.Run;
    hide ProvedAt;
    ClaimsRememberTheirProof(events, k);
    LastProofIsLast(events, k);
    var last := LastProof(events, k);
    if i: nat :| HoldsSessionOf(events, i, held, now, k) {
      assert last.Some?;
      LastProvedIsOne(events, i, last.value, k);
    }
    if SessionHolds(Protocol.Run(events).claims[k], held, now) {
      assert HoldsSessionOf(events, last.value, held, now, k);
    }
  }

  lemma TokenNamesItsClaim(claims: seq<Claim>, token: string, k: nat)
    requires k < |claims| && claims[k].token == token
    requires forall i, m :: 0 <= i < m < |claims| ==> claims[i].token != claims[m].token
    ensures ClaimByToken(claims, token) == Some(k)
  {
    var found := ClaimByToken(claims, token);
    assert found.Some? && claims[found.value].token == token;
  }

  lemma TokensDiffer(events: seq<Event>)
    ensures
      var claims := Protocol.Run(events).claims;
      forall i, m :: 0 <= i < m < |claims| ==> claims[i].token != claims[m].token
  {
    hide Protocol.Run;
    hide RosterStore.Sound;
    hide JobsOk;
    hide WorkersOk;
    hide WinsOk;
    ClaimSteps.ReachableStatesAreSound(events);
    var claims := Protocol.Run(events).claims;
    forall i, m | 0 <= i < m < |claims| ensures claims[i].token != claims[m].token {
      assert !Clash(claims[i], claims[m]);
    }
  }

  lemma CallLoads(events: seq<Event>, c: nat, token: string, request: Request, now: int)
    ensures
      ClientOf(Protocol.Run(events + [Call(c, token, request, now)]), c) ==
      Load(Protocol.Run(events).claims, token, request, now)
  {
    hide Load;
    assert (events + [Call(c, token, request, now)])[..|events|] == events;
  }

  // A call to claim, decline or say "not me" gets through to claim k exactly if
  // its token opens that claim and it holds the claim's session.
  lemma ActsExactlyWhen(
    events: seq<Event>, c: nat, token: string, held: Option<string>, action: ClaimFlow.Action, now: int, k: nat)
    ensures
      ClientOf(Protocol.Run(events + [Call(c, token, Act(held, action), now)]), c) == Acting(k, action) <==>
      Opens(Protocol.Run(events), token, now, k) && HoldsSession(events, held, now, k)
  {
    hide Protocol.Run;
    hide SessionHolds;
    hide HoldsSession;
    var claims := Protocol.Run(events).claims;
    CallLoads(events, c, token, Act(held, action), now);
    TokensDiffer(events);
    if k < |claims| {
      SessionHoldsExactlyWhen(events, held, now, k);
      if claims[k].token == token {
        TokenNamesItsClaim(claims, token, k);
      }
    }
  }

  // And so does a call to see the claim again.
  lemma RevealsExactlyWhen(events: seq<Event>, c: nat, token: string, held: Option<string>, now: int)
    ensures
      ClientOf(Protocol.Run(events + [Call(c, token, Reveal(held), now)]), c) == Replied(Success("ok")) <==>
      exists k: nat :: Opens(Protocol.Run(events), token, now, k) && HoldsSession(events, held, now, k)
  {
    hide Protocol.Run;
    hide SessionHolds;
    hide HoldsSession;
    var claims := Protocol.Run(events).claims;
    CallLoads(events, c, token, Reveal(held), now);
    TokensDiffer(events);
    if k: nat :| Opens(Protocol.Run(events), token, now, k) && HoldsSession(events, held, now, k) {
      SessionHoldsExactlyWhen(events, held, now, k);
      TokenNamesItsClaim(claims, token, k);
    }
    var found := ClaimByToken(claims, token);
    if found.Some? {
      SessionHoldsExactlyWhen(events, held, now, found.value);
    }
  }
}

// The account-less claim (src/corporate/claim.service.ts): every call loads the
// claim by its token and later writes it, so a call is two steps with anything
// in between. The OTP check and the coverage match are the environment's.

module ClaimFlow {
  import opened Wrappers
  import opened Text
  import opened Dispatch
  import RosterRows
  import Phone

  const SESSION_TTL_MS := 30 * 60 * 1000

  datatype AddressBody = AddressBody(
    fullName: Option<string>, phone: Option<string>, country: Option<string>, region: Option<string>,
    city: Option<string>, district: Option<string>, line1: Option<string>, notes: Option<string>)

  datatype Address = Address(
    fullName: Option<string>, phone: string, country: string, region: Option<string>,
    city: string, district: Option<string>, line1: string, notes: Option<string>)

  datatype Action = NotMe | Decline | SubmitAddress(body: AddressBody, covered: bool)

  datatype Request =
    | Look                                          // the teaser, or sending an OTP
    | VerifyOtp(codeGiven: bool)
    | Reveal(session: Option<string>)
    | Act(session: Option<string>, action: Action)

  // A caller between its two steps.
  datatype Client =
    | Absent
    | Expiring(claimId: nat)
    | Verifying(claimId: nat, previous: Option<int>)
    | Acting(claimId: nat, action: Action)
    | Replied(reply: Result<string>)

  function Filled(s: Option<string>): Option<string> {
    if s.Some? && !IsBlank(s.value) then Some(Trim(s.value)) else None
  }

  function AddressOf(body: AddressBody): Result<Address> {
    var phone := Phone.NormalizePhone(body.phone, Phone.SA);
    if !RosterRows.IsRosterPhone(phone) then Failure("address_phone_invalid")
    else if Filled(body.country).None? || Filled(body.city).None? || Filled(body.line1).None? then
      Failure("address_fields_required")
    else Success(Address(
      Filled(body.fullName), phone.value, Filled(body.country).value, Filled(body.region),
      Filled(body.city).value, Filled(body.district), Filled(body.line1).value, Filled(body.notes)))
  }

  function ClaimByToken(claims: seq<Claim>, token: string): (r: Option<nat>)
    ensures r.Some? <==> exists k :: 0 <= k < |claims| && claims[k].token == token
    ensures r.Some? ==> r.value < |claims| && claims[r.value].token == token
  {
    if claims == [] then None
    else if claims[|claims| - 1].token == token then Some(|claims| - 1)
    else ClaimByToken(claims[..|claims| - 1], token)
  }

  predicate SessionHolds(claim: Claim, session: Option<string>, now: int) {
    && session.Some? && session.value != ""
    && claim.session.Some? && claim.otpVerifiedAt.Some?
    && claim.session.value.hash == session.value
    && claim.session.value.expiresAt >= now
  }

  // loadPending, and loadSession where the request needs one: only a live,
  // pending claim gets through.
  function Load(claims: seq<Claim>, token: string, request: Request, now: int): Client {
    var found := if |token| < 16 then None else ClaimByToken(claims, token);
    if found.None? || claims[found.value].status != ClaimStatus.Open then Replied(Failure("claim_not_found"))
    else
      var claim := claims[found.value];
      if claim.expiresAt < now then Expiring(found.value)
      else
        match request
        case Look => Replied(Success("ok"))
        case VerifyOtp(codeGiven) =>
          if codeGiven then Verifying(found.value, claim.otpVerifiedAt) else Replied(Failure("code_required"))
        case Reveal(session) =>
          Replied(if SessionHolds(claim, session, now) then Success("ok") else Failure("claim_session_invalid"))
        case Act(session, action) =>
          if SessionHolds(claim, session, now) then Acting(found.value, action)
          else Replied(Failure("claim_session_invalid"))
  }

  datatype Written = Written(claims: seq<Claim>, addresses: map<nat, Address>, client: Client)

  // updateMany on a claim that is still pending.
  function Flip(claims: seq<Claim>, k: nat, status: ClaimStatus): (r: (seq<Claim>, bool))
    requires k < |claims|
  {
    if claims[k].status == ClaimStatus.Open then (claims[k := claims[k].(status := status)], true)
    else (claims, false)
  }

  // Lazy expiry: whatever the flip finds, the caller is told there is no claim.
  function ExpireStep(claims: seq<Claim>, addresses: map<nat, Address>, client: Client): Written {
    if !client.Expiring? || client.claimId >= |claims| then Written(claims, addresses, client)
    else Written(Flip(claims, client.claimId, Expired).0, addresses, Replied(Failure("claim_not_found")))
  }

  // After the OTP check, the session is written unconditionally, with the OTP
  // mark the call had read.
  function VerifyStep(
    claims: seq<Claim>, addresses: map<nat, Address>, client: Client, otpOk: bool, session: string, now: int): Written
  {
    if !client.Verifying? || client.claimId >= |claims| then Written(claims, addresses, client)
    else if !otpOk then Written(claims, addresses, Replied(Failure("invalid_code")))
    else
      var claim := claims[client.claimId];
      Written(
        claims[client.claimId := claim.(
          session := Some(Session(session, now + SESSION_TTL_MS)),
          otpVerifiedAt := if client.previous.Some? then client.previous else Some(now))],
        addresses, Replied(Success(session)))
  }

  function FinalStatus(action: Action): ClaimStatus {
    match action
    case NotMe => Mismatch
    case Decline => Declined
    case SubmitAddress(_, _) => Claimed
  }

  // What stops an action before it touches the claim.
  function Refusal(action: Action): Option<string> {
    if !action.SubmitAddress? then None
    else if AddressOf(action.body).Failure? then Some(AddressOf(action.body).error)
    else if !action.covered then Some("address_out_of_coverage")
    else None
  }

  // finalize, or the transaction that flips the claim and stores the address.
  function ActStep(claims: seq<Claim>, addresses: map<nat, Address>, client: Client): Written {
    if !client.Acting? || client.claimId >= |claims| then Written(claims, addresses, client)
    else if Refusal(client.action).Some? then
      Written(claims, addresses, Replied(Failure(Refusal(client.action).value)))
    else
      var (after, won) := Flip(claims, client.claimId, FinalStatus(client.action));
      if !won then Written(claims, addresses, Replied(Failure("claim_already_finalized")))
      else if client.action.SubmitAddress? then
        Written(after, addresses[client.claimId := AddressOf(client.action.body).value], Replied(Success("claimed")))
      else Written(after, addresses, Replied(Success("ok")))
  }

  // The second step of a call, whichever it is.
  function Write(
    claims: seq<Claim>, addresses: map<nat, Address>, client: Client, otpOk: bool, session: string, now: int): Written
  {
    match client
    case Expiring(_) => ExpireStep(claims, addresses, client)
    case Verifying(_, _) => VerifyStep(claims, addresses, client, otpOk, session, now)
    case Acting(_, _) => ActStep(claims, addresses, client)
    case _ => Written(claims, addresses, client)
  }

  class ClaimService {
    var claims: seq<Claim>
    var addresses: map<nat, Address>

    constructor (claims: seq<Claim>, addresses: map<nat, Address>)
      ensures this.claims == claims && this.addresses == addresses
    {
      this.claims, this.addresses := claims, addresses;
    }

    // An undisturbed loadPending: an expired claim is marked on the way.
    method LoadPending(token: string, now: int) returns (r: Result<nat>)
      modifies this
      ensures
        var first := Load(old(claims), token, Look, now);
        && Written(claims, addresses, Absent) ==
             Write(old(claims), old(addresses), first, false, "", now).(client := Absent)
        && (r.Success? <==> first == Replied(Success("ok")))
        && (r.Failure? ==> r.error == "claim_not_found" && addresses == old(addresses))
      ensures r.Success? ==>
        && r.value < |claims| && claims == old(claims) && addresses == old(addresses)
        && claims[r.value].token == token && claims[r.value].status == ClaimStatus.Open
        && claims[r.value].expiresAt >= now && |token| >= 16
        && ClaimByToken(claims, token) == Some(r.value)
    {
      if |token| < 16 {
        return Failure("claim_not_found");
      }
      var found := ClaimByToken(claims, token);
      if found.None? || claims[found.value].status != ClaimStatus.Open {
        return Failure("claim_not_found");
      }
      var k := found.value;
      if claims[k].expiresAt < now {
        claims := claims[k := claims[k].(status := Expired)];
        return Failure("claim_not_found");
      }
      r := Success(k);
    }

    // One whole call of verifyOtp, notMe, decline or submitAddress, undisturbed.
    method Call(token: string, request: Request, otpOk: bool, session: string, now: int) returns (r: Result<string>)
      modifies this
      ensures Written(claims, addresses, Replied(r)) ==
        Write(old(claims), old(addresses), Load(old(claims), token, request, now), otpOk, session, now)
    {
      var loaded := LoadPending(token, now);
      if loaded.Failure? {
        return Failure(loaded.error);
      }
      var k := loaded.value;
      var claim := claims[k];
      match request {
        case Look =>
          r := Success("ok");
        case VerifyOtp(codeGiven) =>
          if !codeGiven {
            return Failure("code_required");
          }
          if !otpOk {
            return Failure("invalid_code");
          }
          claims := claims[k := claim.(
            session := Some(Session(session, now + SESSION_TTL_MS)),
            otpVerifiedAt := if claim.otpVerifiedAt.Some? then claim.otpVerifiedAt else Some(now))];
          r := Success(session);
        case Reveal(held) =>
          r := if SessionHolds(claim, held, now) then Success("ok") else Failure("claim_session_invalid");
        case Act(held, action) =>
          if !SessionHolds(claim, held, now) {
            return Failure("claim_session_invalid");
          }
          r := Finalize(k, action);
      }
    }

    method Finalize(k: nat, action: Action) returns (r: Result<string>)
      requires k < |claims|
      modifies this
      ensures Written(claims, addresses, Replied(r)) == ActStep(old(claims), old(addresses), Acting(k, action))
    {
      if action.SubmitAddress? {
        var address := AddressOf(action.body);
        if address.Failure? {
          return Failure(address.error);
        }
        if !action.covered {
          return Failure("address_out_of_coverage");
        }
        if claims[k].status != ClaimStatus.Open {
          return Failure("claim_already_finalized");
        }
        claims := claims[k := claims[k].(status := Claimed)];
        addresses := addresses[k := address.value];
        return Success("claimed");
      }
      if claims[k].status != ClaimStatus.Open {
        return Failure("claim_already_finalized");
      }
      claims := claims[k := claims[k].(status := if action.NotMe? then Mismatch else Declined)];
      r := Success("ok");
    }
  }
}

// A user's saved addresses and the gift attempts waiting for one
// (src/addresses/addresses.service.ts). Each call is one atomic step, and
// resolving the waiting attempts succeeds.

module Addresses {
  import opened Wrappers
  import opened Text

  // ── Validation ────────────────────────────────────────────────────

  datatype Body = Body(
    country: Option<string>, city: Option<string>, district: Option<string>,
    street: Option<string>, buildingNumber: Option<string>, isDefault: bool)

  datatype Payload = Payload(
    country: string, city: string, district: string, street: Option<string>, buildingNumber: Option<string>)

  const STRICT_COUNTRIES: set<string> := {"SA", "KW", "AE", "QA", "BH", "OM"}

  function Text1(v: Option<string>): Option<string> {
    if v.Some? && Trim(v.value) != "" then Some(Trim(v.value)) else None
  }

  function NormalizeCountry(c: Option<string>): string {
    if c.Some? then Upper(Trim(c.value)) else ""
  }

  function OrEmpty(v: Option<string>): string {
    if v.Some? then v.value else ""
  }

  function BuildPayload(b: Body): Result<Payload> {
    var country, city, district := NormalizeCountry(b.country), Text1(b.city), Text1(b.district);
    var street, building := Text1(b.street), Text1(b.buildingNumber);
    if country == "" then Failure("country is required")
    else if country in STRICT_COUNTRIES && city.None? then Failure("city is required for " + country)
    else if country in STRICT_COUNTRIES && district.None? then Failure("district is required for " + country)
    else if country in STRICT_COUNTRIES && street.None? then Failure("street is required for " + country)
    else if country in STRICT_COUNTRIES && building.None? then Failure("buildingNumber is required for " + country)
    else if city.None? || district.None? then Failure("city and district are required")
    else Success(Payload(country, OrEmpty(city), OrEmpty(district), street, building))
  }

  // A country, a city and a district, and in the six known countries a street and
  // a building too.
  predicate IsComplete(b: Body) {
    && Shows(b.country) && Shows(b.city) && Shows(b.district)
    && (Upper(Trim(b.country.value)) in {"SA", "KW", "AE", "QA", "BH", "OM"} ==>
          Shows(b.street) && Shows(b.buildingNumber))
  }

  // A body is accepted exactly if it is complete, and each field of the address is
  // its own field of the body, trimmed, the country in capitals.
  lemma PayloadExactlyWhen(b: Body)
    ensures BuildPayload(b).Success? <==> IsComplete(b)
    ensures BuildPayload(b).Success? ==>
      var p := BuildPayload(b).value;
      && p.country == Upper(Trim(b.country.value))
      && p.city == Trim(b.city.value) && p.district == Trim(b.district.value)
      && Keeps(b.street, p.street) && Keeps(b.buildingNumber, p.buildingNumber)
  {
    hide Trim;
    if b.country.Some? {
      assert Upper(Trim(b.country.value)) == "" <==> Trim(b.country.value) == "";
    }
  }

  // ── The tables ────────────────────────────────────────────────────

  datatype Address = Address(userId: nat, isDefault: bool, payload: Payload)

  // A gift attempt at somebody without a default address. `resolutions` counts
  // how often it was resolved.
  datatype Attempt = Attempt(senderId: nat, receiverId: nat, resolutions: nat)

  datatype Notice = Notice(senderId: nat, receiverId: nat)

  // Ids are handed out in order of creation.
  datatype Book = Book(addresses: map<nat, Address>, nextId: nat, attempts: seq<Attempt>, notices: seq<Notice>)

  predicate Owns(addresses: map<nat, Address>, user: nat, id: nat) {
    id in addresses && addresses[id].userId == user
  }

  predicate IsDefaultOf(addresses: map<nat, Address>, user: nat, id: nat) {
    Owns(addresses, user, id) && addresses[id].isDefault
  }

  predicate HasAny(addresses: map<nat, Address>, user: nat) {
    exists id :: id in addresses && Owns(addresses, user, id)
  }

  predicate HasDefault(addresses: map<nat, Address>, user: nat) {
    exists id :: id in addresses && IsDefaultOf(addresses, user, id)
  }

  // updateMany: the user's defaults are cleared.
  function ClearDefaults(addresses: map<nat, Address>, user: nat): map<nat, Address> {
    map id | id in addresses ::
      if addresses[id].userId == user then addresses[id].(isDefault := false) else addresses[id]
  }

  // The user's address with the highest id below a bound.
  function Latest(addresses: map<nat, Address>, user: nat, bound: nat): (r: Option<nat>)
    ensures r.Some? ==> r.value < bound && Owns(addresses, user, r.value)
    ensures r.Some? ==> forall id: nat :: r.value < id < bound ==> !Owns(addresses, user, id)
    ensures r.None? ==> forall id: nat :: id < bound ==> !Owns(addresses, user, id)
  {
    if bound == 0 then None
    else if Owns(addresses, user, bound - 1) then Some(bound - 1)
    else Latest(addresses, user, bound - 1)
  }

  // ── Waiting attempts ──────────────────────────────────────────────

  predicate Waiting(a: Attempt, receiver: nat) {
    a.receiverId == receiver && a.resolutions == 0
  }

  function Resolved(attempts: seq<Attempt>, receiver: nat): (after: seq<Attempt>)
    ensures |after| == |attempts|
    ensures forall i :: 0 <= i < |attempts| ==>
      after[i] == if Waiting(attempts[i], receiver)
                  then attempts[i].(resolutions := attempts[i].resolutions + 1) else attempts[i]
  {
    seq(|attempts|, i requires 0 <= i < |attempts| =>
      if Waiting(attempts[i], receiver)
      then attempts[i].(resolutions := attempts[i].resolutions + 1) else attempts[i])
  }

  // The senders to notify: each once, in order of their first attempt.
  function UniqueSenders(attempts: seq<Attempt>, receiver: nat): seq<nat> {
    if attempts == [] then []
    else
      var before, a := UniqueSenders(attempts[..|attempts| - 1], receiver), attempts[|attempts| - 1];
      if Waiting(a, receiver) && a.senderId !in before then before + [a.senderId] else before
  }

  function NoticesTo(senders: seq<nat>, receiver: nat): (ns: seq<Notice>)
    ensures |ns| == |senders| && forall i :: 0 <= i < |ns| ==> ns[i] == Notice(senders[i], receiver)
  {
    seq(|senders|, i requires 0 <= i < |senders| => Notice(senders[i], receiver))
  }

  function ResolvePending(b: Book, receiver: nat): (r: Book)
    ensures r.addresses == b.addresses && r.nextId == b.nextId
  {
    b.(attempts := Resolved(b.attempts, receiver),
       notices := b.notices + NoticesTo(UniqueSenders(b.attempts, receiver), receiver))
  }

  function ResolveIf(b: Book, receiver: nat, due: bool): Book {
    if due then ResolvePending(b, receiver) else b
  }

  // ── The calls ─────────────────────────────────────────────────────

  function CreateOf(b: Book, user: nat, body: Body): Result<Book> {
    var payload :- BuildPayload(body);
    var wantsDefault := body.isDefault || !HasAny(b.addresses, user);
    var hadDefault := HasDefault(b.addresses, user);
    var cleared := if wantsDefault then ClearDefaults(b.addresses, user) else b.addresses;
    var after := b.(addresses := cleared[b.nextId := Address(user, wantsDefault, payload)], nextId := b.nextId + 1);
    Success(ResolveIf(after, user, wantsDefault && !hadDefault))
  }

  function Guard(b: Book, user: nat, id: nat): Option<string> {
    if id !in b.addresses then Some("Address not found")
    else if b.addresses[id].userId != user then Some("forbidden")
    else None
  }

  function UpdateOf(b: Book, user: nat, id: nat, body: Body): Result<Book> {
    if Guard(b, user, id).Some? then Failure(Guard(b, user, id).value)
    else
      var payload :- BuildPayload(body);
      var existing, hadDefault := b.addresses[id], HasDefault(b.addresses, user);
      var cleared :=
        if body.isDefault && !existing.isDefault then ClearDefaults(b.addresses, user) else b.addresses;
      var after := b.(addresses := cleared[id := Address(user, body.isDefault || existing.isDefault, payload)]);
      Success(ResolveIf(after, user, body.isDefault && !hadDefault))
  }

  function SetDefaultOf(b: Book, user: nat, id: nat): Result<Book> {
    if Guard(b, user, id).Some? then Failure(Guard(b, user, id).value)
    else
      var cleared := ClearDefaults(b.addresses, user);
      var after := b.(addresses := cleared[id := cleared[id].(isDefault := true)]);
      Success(ResolveIf(after, user, !HasDefault(b.addresses, user)))
  }

  function RemoveOf(b: Book, user: nat, id: nat): Result<Book> {
    if Guard(b, user, id).Some? then Failure(Guard(b, user, id).value)
    else
      var left := b.addresses - {id};
      var heir := Latest(left, user, b.nextId);
      Success(b.(addresses :=
        if b.addresses[id].isDefault && heir.Some? then left[heir.value := left[heir.value].(isDefault := true)]
        else left))
  }

  // A gift to somebody without a default address leaves an attempt behind
  // (create in src/gifts/gifts.service.ts).
  function AttemptOf(b: Book, sender: nat, receiver: nat): Book {
    if HasDefault(b.addresses, receiver) then b
    else b.(attempts := b.attempts + [Attempt(sender, receiver, 0)])
  }

  datatype Call =
    | Create(user: nat, body: Body)
    | Update(user: nat, id: nat, body: Body)
    | SetDefault(user: nat, id: nat)
    | Remove(user: nat, id: nat)
    | GiftAttempted(sender: nat, receiver: nat)

  function OrUnchanged(r: Result<Book>, b: Book): Book {
    if r.Success? then r.value else b
  }

  function Apply(b: Book, c: Call): Book {
    match c
    case Create(user, body) => OrUnchanged(CreateOf(b, user, body), b)
    case Update(user, id, body) => OrUnchanged(UpdateOf(b, user, id, body), b)
    case SetDefault(user, id) => OrUnchanged(SetDefaultOf(b, user, id), b)
    case Remove(user, id) => OrUnchanged(RemoveOf(b, user, id), b)
    case GiftAttempted(sender, receiver) => AttemptOf(b, sender, receiver)
  }

  function Run(calls: seq<Call>): Book {
    if calls == [] then Book(map[], 0, [], []) else Apply(Run(calls[..|calls| - 1]), calls[|calls| - 1])
  }

  class AddressesService {
    var book: Book

    constructor ()
      ensures book == Book(map[], 0, [], [])
    {
      book := Book(map[], 0, [], []);
    }

    method ResolvePendingAttemptsFor(receiver: nat)
      modifies this
      ensures book == ResolvePending(old(book), receiver)
    {
      var attempts := book.attempts;
      var uniqueSenderIds: seq<nat> := [];
      for i := 0 to |attempts|
        invariant uniqueSenderIds == UniqueSenders(attempts[..i], receiver)
      {
        assert attempts[..i + 1][..i] == attempts[..i];
        if Waiting(attempts[i], receiver) && attempts[i].senderId !in uniqueSenderIds {
          uniqueSenderIds := uniqueSenderIds + [attempts[i].senderId];
        }
      }
      assert attempts[..|attempts|] == attempts;
      var notices := book.notices;
      for i := 0 to |uniqueSenderIds|
        invariant notices == old(book).notices + NoticesTo(uniqueSenderIds, receiver)[..i]
      {
        notices := notices + [Notice(uniqueSenderIds[i], receiver)];
      }
      book := book.(attempts := Resolved(attempts, receiver), notices := notices);
    }

    method Create(user: nat, body: Body) returns (r: Result<nat>)
      modifies this
      ensures book == OrUnchanged(CreateOf(old(book), user, body), old(book))
      ensures r == if CreateOf(old(book), user, body).Success? then Success(old(book).nextId)
                   else Failure(CreateOf(old(book), user, body).error)
    {
      var payload :- BuildPayload(body);
      var wantsDefault := body.isDefault || !HasAny(book.addresses, user);
      var hadDefault := HasDefault(book.addresses, user);
      var id := book.nextId;
      if wantsDefault {
        book := book.(addresses := ClearDefaults(book.addresses, user));
      }
      book := book.(addresses := book.addresses[id := Address(user, wantsDefault, payload)], nextId := id + 1);
      if wantsDefault && !hadDefault {
        ResolvePendingAttemptsFor(user);
      }
      r := Success(id);
    }

    method Update(user: nat, id: nat, body: Body) returns (r: Result<bool>)
      modifies this
      ensures book == OrUnchanged(UpdateOf(old(book), user, id, body), old(book))
      ensures r.Success? <==> UpdateOf(old(book), user, id, body).Success?
    {
      var guard := Guard(book, user, id);
      if guard.Some? {
        return Failure(guard.value);
      }
      var existing := book.addresses[id];
      var payload :- BuildPayload(body);
      var hadDefault := HasDefault(book.addresses, user);
      if body.isDefault && !existing.isDefault {
        book := book.(addresses := ClearDefaults(book.addresses, user));
      }
      book := book.(addresses :=
        book.addresses[id := Address(user, body.isDefault || existing.isDefault, payload)]);
      if body.isDefault && !hadDefault {
        ResolvePendingAttemptsFor(user);
      }
      r := Success(true);
    }

    method SetDefault(user: nat, id: nat) returns (r: Result<bool>)
      modifies this
      ensures book == OrUnchanged(SetDefaultOf(old(book), user, id), old(book))
      ensures r.Success? <==> SetDefaultOf(old(book), user, id).Success?
    {
      var guard := Guard(book, user, id);
      if guard.Some? {
        return Failure(guard.value);
      }
      var hadDefault := HasDefault(book.addresses, user);
      var cleared := ClearDefaults(book.addresses, user);
      book := book.(addresses := cleared[id := cleared[id].(isDefault := true)]);
      if !hadDefault {
        ResolvePendingAttemptsFor(user);
      }
      r := Success(true);
    }

    method Remove(user: nat, id: nat) returns (r: Result<bool>)
      modifies this
      ensures book == OrUnchanged(RemoveOf(old(book), user, id), old(book))
      ensures r.Success? <==> RemoveOf(old(book), user, id).Success?
    {
      var guard := Guard(book, user, id);
      if guard.Some? {
        return Failure(guard.value);
      }
      var wasDefault := book.addresses[id].isDefault;
      book := book.(addresses := book.addresses - {id});
      if wasDefault {
        var heir := Latest(book.addresses, user, book.nextId);
        if heir.Some? {
          book := book.(addresses :=
            book.addresses[heir.value := book.addresses[heir.value].(isDefault := true)]);
        }
      }
      r := Success(true);
    }
  }

  // ── One default each ──────────────────────────────────────────────

  // A user with addresses has a default, and only one.
  ghost predicate OneDefault(addresses: map<nat, Address>, user: nat) {
    && (HasAny(addresses, user) ==> HasDefault(addresses, user))
    && (forall i, j :: IsDefaultOf(addresses, user, i) && IsDefaultOf(addresses, user, j) ==> i == j)
  }

  ghost predicate AddressesOk(b: Book) {
    && (forall id :: id in b.addresses ==> id < b.nextId)
    && (forall user :: OneDefault(b.addresses, user))
  }

  // Nobody waits for somebody who can receive; nothing is resolved twice.
  ghost predicate AttemptsOk(b: Book) {
    forall i :: 0 <= i < |b.attempts| ==>
      b.attempts[i].resolutions <= 1
      && (b.attempts[i].resolutions == 0 ==> !HasAny(b.addresses, b.attempts[i].receiverId))
  }

  // Two tables that differ in one user's rows only.
  ghost predicate SameForOthers(a: map<nat, Address>, b: map<nat, Address>, user: nat) {
    forall id ::
      (id in a && a[id].userId != user) || (id in b && b[id].userId != user) ==>
        id in a && id in b && a[id] == b[id]
  }

  lemma OthersKeepTheirDefault(a: map<nat, Address>, b: map<nat, Address>, user: nat, other: nat)
    requires SameForOthers(a, b, user) && other != user && OneDefault(a, other)
    ensures OneDefault(b, other) && (HasAny(a, other) <==> HasAny(b, other))
  {
    if HasAny(b, other) {
      var id :| id in b && Owns(b, other, id);
      assert Owns(a, other, id);
      var d :| d in a && IsDefaultOf(a, other, d);
      assert IsDefaultOf(b, other, d);
    }
    if HasAny(a, other) {
      var id :| id in a && Owns(a, other, id);
      assert Owns(b, other, id);
    }
    forall i, j | IsDefaultOf(b, other, i) && IsDefaultOf(b, other, j) ensures i == j {
      assert IsDefaultOf(a, other, i) && IsDefaultOf(a, other, j);
    }
  }

  // Clearing and then setting one leaves exactly that one.
  lemma SetIsTheOnlyDefault(addresses: map<nat, Address>, user: nat, id: nat, address: Address)
    requires address.userId == user && address.isDefault && (id in addresses ==> addresses[id].userId == user)
    ensures
      var after := ClearDefaults(addresses, user)[id := address];
      OneDefault(after, user) && SameForOthers(addresses, after, user) && HasAny(after, user)
  {
    var after := ClearDefaults(addresses, user)[id := address];
    assert IsDefaultOf(after, user, id) && Owns(after, user, id);
  }

  // Writing an address without touching its default mark.
  lemma RewriteKeepsDefaults(addresses: map<nat, Address>, user: nat, id: nat, address: Address)
    requires OneDefault(addresses, user) && address.userId == user
    requires if id in addresses then addresses[id].userId == user && address.isDefault == addresses[id].isDefault
             else !address.isDefault && HasAny(addresses, user)
    ensures
      var after := addresses[id := address];
      OneDefault(after, user) && SameForOthers(addresses, after, user) && HasAny(after, user)
  {
    var after := addresses[id := address];
    assert Owns(after, user, id);
    if id in addresses {
      assert Owns(addresses, user, id);
    }
    var d :| d in addresses && IsDefaultOf(addresses, user, d);
    assert IsDefaultOf(after, user, d);
    forall i, j | IsDefaultOf(after, user, i) && IsDefaultOf(after, user, j) ensures i == j {
      assert IsDefaultOf(addresses, user, i) && IsDefaultOf(addresses, user, j);
    }
  }

  // What a successful call of a user leaves behind.
  ghost predicate GoodCall(b: Book, after: Book, user: nat) {
    && (forall id :: id in after.addresses ==> id < after.nextId)
    && OneDefault(after.addresses, user) && SameForOthers(b.addresses, after.addresses, user)
  }

  lemma CreateIsGood(b: Book, user: nat, body: Body)
    requires AddressesOk(b) && CreateOf(b, user, body).Success?
    ensures
      var after := CreateOf(b, user, body).value;
      && GoodCall(b, after, user)
      && (after == b.(addresses := after.addresses, nextId := after.nextId)
          || (!HasAny(b.addresses, user)
              && after == ResolvePending(b.(addresses := after.addresses, nextId := after.nextId), user)))
      && (!HasAny(b.addresses, user) ==>
            after == ResolvePending(b.(addresses := after.addresses, nextId := after.nextId), user))
  {
    hide BuildPayload;
    hide ResolvePending;
    hide ClearDefaults;
    var wantsDefault := body.isDefault || !HasAny(b.addresses, user);
    var address := Address(user, wantsDefault, BuildPayload(body).value);
    assert OneDefault(b.addresses, user);
    NoneMeansNoDefault(b.addresses, user);
    ClearKeepsIds(b.addresses, user);
    if wantsDefault {
      SetIsTheOnlyDefault(b.addresses, user, b.nextId, address);
    } else {
      RewriteKeepsDefaults(b.addresses, user, b.nextId, address);
    }
  }

  lemma NoneMeansNoDefault(addresses: map<nat, Address>, user: nat)
    ensures HasDefault(addresses, user) ==> HasAny(addresses, user)
  {
    if HasDefault(addresses, user) {
      var id :| id in addresses && IsDefaultOf(addresses, user, id);
      assert Owns(addresses, user, id);
    }
  }

  lemma ClearKeepsIds(addresses: map<nat, Address>, user: nat)
    ensures ClearDefaults(addresses, user).Keys == addresses.Keys
    ensures forall id :: id in addresses ==> ClearDefaults(addresses, user)[id].userId == addresses[id].userId
  {
  }

  lemma UpdateIsGood(b: Book, user: nat, id: nat, body: Body)
    requires AddressesOk(b) && UpdateOf(b, user, id, body).Success?
    ensures
      var after := UpdateOf(b, user, id, body).value;
      GoodCall(b, after, user) && HasAny(b.addresses, user) && after == b.(addresses := after.addresses)
  {
    hide BuildPayload;
    hide ResolvePending;
    hide ClearDefaults;
    assert OneDefault(b.addresses, user) && Owns(b.addresses, user, id);
    var existing := b.addresses[id];
    var address := Address(user, body.isDefault || existing.isDefault, BuildPayload(body).value);
    ClearKeepsIds(b.addresses, user);
    if body.isDefault && !existing.isDefault {
      SetIsTheOnlyDefault(b.addresses, user, id, address);
    } else {
      RewriteKeepsDefaults(b.addresses, user, id, address);
    }
  }

  lemma SetDefaultIsGood(b: Book, user: nat, id: nat)
    requires AddressesOk(b) && SetDefaultOf(b, user, id).Success?
    ensures
      var after := SetDefaultOf(b, user, id).value;
      && GoodCall(b, after, user) && HasAny(b.addresses, user) && after == b.(addresses := after.addresses)
      && IsDefaultOf(after.addresses, user, id)
  {
    hide ResolvePending;
    hide ClearDefaults;
    assert OneDefault(b.addresses, user) && Owns(b.addresses, user, id);
    ClearKeepsIds(b.addresses, user);
    SetIsTheOnlyDefault(b.addresses, user, id, ClearDefaults(b.addresses, user)[id].(isDefault := true));
  }

  lemma RemoveIsGood(b: Book, user: nat, id: nat)
    requires AddressesOk(b) && RemoveOf(b, user, id).Success?
    ensures
      var after := RemoveOf(b, user, id).value;
      GoodCall(b, after, user) && HasAny(b.addresses, user) && after == b.(addresses := after.addresses)
  {
    var left := b.addresses - {id};
    var after := RemoveOf(b, user, id).value.addresses;
    assert OneDefault(b.addresses, user) && Owns(b.addresses, user, id);
    if b.addresses[id].isDefault {
      OnlyHeirIsDefault(b.addresses, user, id, b.nextId);
    } else {
      var d :| d in b.addresses && IsDefaultOf(b.addresses, user, d);
      assert IsDefaultOf(left, user, d);
      forall i, j | IsDefaultOf(left, user, i) && IsDefaultOf(left, user, j) ensures i == j {
        assert IsDefaultOf(b.addresses, user, i) && IsDefaultOf(b.addresses, user, j);
      }
    }
  }

  lemma OnlyHeirIsDefault(addresses: map<nat, Address>, user: nat, id: nat, bound: nat)
    requires IsDefaultOf(addresses, user, id) && OneDefault(addresses, user)
    requires forall i :: i in addresses ==> i < bound
    ensures
      var left := addresses - {id};
      var heir := Latest(left, user, bound);
      var after := if heir.Some? then left[heir.value := left[heir.value].(isDefault := true)] else left;
      OneDefault(after, user) && SameForOthers(addresses, after, user)
  {
    var left := addresses - {id};
    var heir := Latest(left, user, bound);
    forall i | i in left && left[i].userId == user ensures !left[i].isDefault {
      assert IsDefaultOf(addresses, user, i) ==> i == id;
    }
    if heir.Some? {
      var after := left[heir.value := left[heir.value].(isDefault := true)];
      assert IsDefaultOf(after, user, heir.value);
    }
  }

  // ── Every run ─────────────────────────────────────────────────────

  lemma GoodCallKeepsAddresses(b: Book, after: Book, user: nat)
    requires AddressesOk(b) && GoodCall(b, after, user)
    ensures AddressesOk(after)
  {
    forall other ensures OneDefault(after.addresses, other) {
      assert OneDefault(b.addresses, other);
      if other != user {
        OthersKeepTheirDefault(b.addresses, after.addresses, user, other);
      }
    }
  }

  // A call that leaves the attempts alone, by a user who already had an address.
  lemma AttemptsStay(b: Book, after: Book, user: nat)
    requires AddressesOk(b) && AttemptsOk(b) && GoodCall(b, after, user)
    requires HasAny(b.addresses, user) && after.attempts == b.attempts
    ensures AttemptsOk(after)
  {
    hide OneDefault;
    hide SameForOthers;
    forall i | 0 <= i < |after.attempts|
      ensures after.attempts[i].resolutions == 0 ==> !HasAny(after.addresses, after.attempts[i].receiverId)
    {
      var a := b.attempts[i];
      if a.resolutions == 0 && a.receiverId != user {
        assert OneDefault(b.addresses, a.receiverId);
        OthersKeepTheirDefault(b.addresses, after.addresses, user, a.receiverId);
      }
    }
  }

  lemma ResolvingSettlesAttempts(b: Book, moved: Book, user: nat)
    requires AddressesOk(b) && AttemptsOk(b) && GoodCall(b, moved, user) && moved.attempts == b.attempts
    ensures AttemptsOk(ResolvePending(moved, user))
  {
    hide OneDefault;
    hide SameForOthers;
    var after := ResolvePending(moved, user);
    forall i | 0 <= i < |after.attempts|
      ensures after.attempts[i].resolutions <= 1
      ensures after.attempts[i].resolutions == 0 ==> !HasAny(after.addresses, after.attempts[i].receiverId)
    {
      var a := b.attempts[i];
      if a.resolutions == 0 && a.receiverId != user {
        assert OneDefault(b.addresses, a.receiverId);
        OthersKeepTheirDefault(b.addresses, moved.addresses, user, a.receiverId);
      }
    }
  }

  lemma AttemptIsNew(b: Book, sender: nat, receiver: nat)
    requires AddressesOk(b) && AttemptsOk(b)
    ensures AddressesOk(AttemptOf(b, sender, receiver)) && AttemptsOk(AttemptOf(b, sender, receiver))
  {
    assert OneDefault(b.addresses, receiver);
  }

  lemma StepKeepsOk(b: Book, c: Call)
    requires AddressesOk(b) && AttemptsOk(b)
    ensures AddressesOk(Apply(b, c)) && AttemptsOk(Apply(b, c))
  {
    hide CreateOf;
    hide UpdateOf;
    hide SetDefaultOf;
    hide RemoveOf;
    hide AddressesOk;
    hide AttemptsOk;
    hide GoodCall;
    hide HasAny;
    hide ResolvePending;
    match c
    case Create(user, body) =>
      if CreateOf(b, user, body).Success? {
        CreateIsGood(b, user, body);
        var after := CreateOf(b, user, body).value;
        GoodCallKeepsAddresses(b, after, user);
        if HasAny(b.addresses, user) {
          AttemptsStay(b, after, user);
        } else {
          var moved := b.(addresses := after.addresses, nextId := after.nextId);
          SameTables(b, after, moved, user);
          ResolvingSettlesAttempts(b, moved, user);
        }
      }
    case Update(user, id, body) =>
      if UpdateOf(b, user, id, body).Success? {
        UpdateIsGood(b, user, id, body);
        GoodCallKeepsAddresses(b, UpdateOf(b, user, id, body).value, user);
        AttemptsStay(b, UpdateOf(b, user, id, body).value, user);
      }
    case SetDefault(user, id) =>
      if SetDefaultOf(b, user, id).Success? {
        SetDefaultIsGood(b, user, id);
        GoodCallKeepsAddresses(b, SetDefaultOf(b, user, id).value, user);
        AttemptsStay(b, SetDefaultOf(b, user, id).value, user);
      }
    case Remove(user, id) =>
      if RemoveOf(b, user, id).Success? {
        RemoveIsGood(b, user, id);
        GoodCallKeepsAddresses(b, RemoveOf(b, user, id).value, user);
        AttemptsStay(b, RemoveOf(b, user, id).value, user);
      }
    case GiftAttempted(sender, receiver) => AttemptIsNew(b, sender, receiver);
  }

  lemma SameTables(b: Book, after: Book, moved: Book, user: nat)
    requires GoodCall(b, after, user) && moved.addresses == after.addresses && moved.nextId == after.nextId
    ensures GoodCall(b, moved, user)
  {
  }

  lemma {:induction false} RunsAreOk(calls: seq<Call>)
    ensures AddressesOk(Run(calls)) && AttemptsOk(Run(calls))
  {
    hide Apply;
    hide AddressesOk;
    hide AttemptsOk;
    if calls == [] {
      EmptyIsOk();
    } else {
      RunsAreOk(calls[..|calls| - 1]);
      StepKeepsOk(Run(calls[..|calls| - 1]), calls[|calls| - 1]);
    }
  }

  lemma EmptyIsOk()
    ensures AddressesOk(Book(map[], 0, [], [])) && AttemptsOk(Book(map[], 0, [], []))
  {
  }

  // In every reachable state a user with addresses has exactly one default.
  lemma ExactlyOneDefault(calls: seq<Call>, user: nat)
    ensures HasAny(Run(calls).addresses, user) <==> HasDefault(Run(calls).addresses, user)
    ensures forall i, j :: IsDefaultOf(Run(calls).addresses, user, i) && IsDefaultOf(Run(calls).addresses, user, j)
              ==> i == j
  {
    hide Run;
    RunsAreOk(calls);
    assert OneDefault(Run(calls).addresses, user);
    NoneMeansNoDefault(Run(calls).addresses, user);
  }

  // Hence attempts wait only for users without any address.
  lemma AttemptsWaitForTheAddressless(calls: seq<Call>, i: nat)
    requires i < |Run(calls).attempts|
    ensures Run(calls).attempts[i].resolutions <= 1
    ensures Run(calls).attempts[i].resolutions == 0 ==>
      !HasAny(Run(calls).addresses, Run(calls).attempts[i].receiverId)
  {
    hide Run;
    RunsAreOk(calls);
  }

  // ── Who resolves an attempt ───────────────────────────────────────

  // The call creates the first address of a user.
  predicate CreatesFirst(b: Book, c: Call, user: nat) {
    c.Create? && c.user == user && BuildPayload(c.body).Success? && !HasAny(b.addresses, user)
  }

  predicate CreatesFirstAt(calls: seq<Call>, k: nat, user: nat) {
    k < |calls| && CreatesFirst(Run(calls[..k]), calls[k], user)
  }

  // Call a left attempt i behind.
  predicate MadeAt(calls: seq<Call>, a: nat, i: nat) {
    a < |calls| && |Run(calls[..a]).attempts| == i < |Run(calls[..a + 1]).attempts|
  }

  // Call k resolved attempt i, with its batch of notices.
  predicate ResolvedAt(calls: seq<Call>, k: nat, i: nat) {
    && k < |calls| && i < |Run(calls[..k]).attempts| && i < |Run(calls[..k + 1]).attempts|
    && Run(calls[..k + 1]).attempts[i].resolutions != Run(calls[..k]).attempts[i].resolutions
  }

  lemma StepOfAnAttempt(b: Book, c: Call, i: nat)
    requires AddressesOk(b) && i < |b.attempts|
    ensures
      var after, a := Apply(b, c), b.attempts[i];
      && |b.attempts| <= |after.attempts| <= |b.attempts| + 1
      && after.attempts[i] ==
           a.(resolutions := a.resolutions
                + if CreatesFirst(b, c, a.receiverId) && a.resolutions == 0 then 1 else 0)
  {
    hide BuildPayload;
    hide UpdateOf;
    hide SetDefaultOf;
    hide RemoveOf;
    hide AddressesOk;
    hide GoodCall;
    hide HasAny;
    hide UniqueSenders;
    match c
    case Create(user, body) => if CreateOf(b, user, body).Success? { CreateIsGood(b, user, body); }
    case Update(user, id, body) => if UpdateOf(b, user, id, body).Success? { UpdateIsGood(b, user, id, body); }
    case SetDefault(user, id) => if SetDefaultOf(b, user, id).Success? { SetDefaultIsGood(b, user, id); }
    case Remove(user, id) => if RemoveOf(b, user, id).Success? { RemoveIsGood(b, user, id); }
    case GiftAttempted(_, _) =>
  }

  lemma NewAttemptWaits(b: Book, c: Call)
    requires AddressesOk(b) && |b.attempts| < |Apply(b, c).attempts|
    ensures |Apply(b, c).attempts| == |b.attempts| + 1
    ensures c.GiftAttempted? && Apply(b, c).attempts[|b.attempts|] == Attempt(c.sender, c.receiver, 0)
  {
    hide BuildPayload;
    hide UpdateOf;
    hide SetDefaultOf;
    hide RemoveOf;
    hide AddressesOk;
    hide GoodCall;
    hide HasAny;
    hide UniqueSenders;
    match c
    case Create(user, body) => if CreateOf(b, user, body).Success? { CreateIsGood(b, user, body); }
    case Update(user, id, body) => if UpdateOf(b, user, id, body).Success? { UpdateIsGood(b, user, id, body); }
    case SetDefault(user, id) => if SetDefaultOf(b, user, id).Success? { SetDefaultIsGood(b, user, id); }
    case Remove(user, id) => if RemoveOf(b, user, id).Success? { RemoveIsGood(b, user, id); }
    case GiftAttempted(_, _) =>
  }

  lemma RunOneMore(calls: seq<Call>, k: nat)
    requires k < |calls|
    ensures Run(calls[..k + 1]) == Apply(Run(calls[..k]), calls[k])
  {
    assert calls[..k + 1][..k] == calls[..k];
  }

  // Once made, an attempt stays in the table with its sender and receiver.
  lemma {:induction false} AttemptsStayPut(calls: seq<Call>, i: nat, k: nat)
    requires k <= |calls| && i < |Run(calls[..k]).attempts|
    ensures i < |Run(calls).attempts|
    ensures Run(calls).attempts[i].receiverId == Run(calls[..k]).attempts[i].receiverId
    ensures Run(calls[..k]).attempts[i].resolutions <= Run(calls).attempts[i].resolutions
    decreases |calls|
  {
    hide Apply;
    hide CreatesFirst;
    hide AddressesOk;
    hide AttemptsOk;
    if k < |calls| {
      var n := |calls| - 1;
      assert calls[..n][..k] == calls[..k];
      AttemptsStayPut(calls[..n], i, k);
      RunsAreOk(calls[..n]);
      StepOfAnAttempt(Run(calls[..n]), calls[n], i);
      assert Run(calls) == Apply(Run(calls[..n]), calls[n]);
    } else {
      assert calls[..k] == calls;
    }
  }

  ghost predicate FirstAddressSince(calls: seq<Call>, a: nat, user: nat) {
    exists k: nat :: a < k < |calls| && CreatesFirstAt(calls, k, user)
  }

  lemma FirstAddressOneCallLater(calls: seq<Call>, a: nat, user: nat)
    requires calls != [] && a < |calls| - 1
    ensures FirstAddressSince(calls, a, user) <==>
      FirstAddressSince(calls[..|calls| - 1], a, user) || CreatesFirstAt(calls, |calls| - 1, user)
  {
    hide CreatesFirst;
    hide Run;
    var n := |calls| - 1;
    forall k: nat | k < n ensures CreatesFirstAt(calls[..n], k, user) <==> CreatesFirstAt(calls, k, user) {
      assert calls[..n][..k] == calls[..k];
    }
  }

  // An attempt is resolved exactly if its receiver has created a first address
  // since; later first addresses, after all were removed, do not count again.
  lemma {:induction false} AttemptIsResolvedExactlyWhen(calls: seq<Call>, a: nat, i: nat)
    requires MadeAt(calls, a, i)
    ensures i < |Run(calls).attempts|
    ensures
      Run(calls).attempts[i].resolutions ==
      if FirstAddressSince(calls, a, Run(calls).attempts[i].receiverId) then 1 else 0
    decreases |calls|
  {
    hide Apply;
    hide CreatesFirst;
    hide FirstAddressSince;
    var n := |calls| - 1;
    RunOneMore(calls, a);
    RunsAreOk(calls[..a]);
    NewAttemptWaits(Run(calls[..a]), calls[a]);
    AttemptsStayPut(calls, i, a + 1);
    if a == n {
      assert calls[..n + 1] == calls;
      NobodySince(calls, a, Run(calls).attempts[i].receiverId);
    } else {
      assert calls[..n][..a] == calls[..a] && calls[..n][..a + 1] == calls[..a + 1];
      AttemptIsResolvedExactlyWhen(calls[..n], a, i);
      RunsAreOk(calls[..n]);
      StepOfAnAttempt(Run(calls[..n]), calls[n], i);
      FirstAddressOneCallLater(calls, a, Run(calls).attempts[i].receiverId);
    }
  }

  lemma NobodySince(calls: seq<Call>, a: nat, user: nat)
    requires |calls| <= a + 1
    ensures !FirstAddressSince(calls, a, user)
  {
  }

  lemma ResolvedByAFirstAddress(calls: seq<Call>, k: nat, i: nat)
    requires ResolvedAt(calls, k, i)
    ensures CreatesFirstAt(calls, k, Run(calls[..k]).attempts[i].receiverId)
    ensures Run(calls[..k]).attempts[i].resolutions == 0 && Run(calls[..k + 1]).attempts[i].resolutions == 1
  {
    hide Run;
    hide Apply;
    hide CreatesFirst;
    RunOneMore(calls, k);
    RunsAreOk(calls[..k]);
    StepOfAnAttempt(Run(calls[..k]), calls[k], i);
  }

  // So each attempt is part of at most one batch of notices.
  lemma AttemptsAreResolvedOnce(calls: seq<Call>, i: nat, j: nat, k: nat)
    requires ResolvedAt(calls, j, i) && ResolvedAt(calls, k, i)
    ensures j == k && CreatesFirstAt(calls, k, Run(calls[..k]).attempts[i].receiverId)
  {
    hide Run;
    hide Apply;
    hide CreatesFirst;
    var low, high := if j < k then j else k, if j < k then k else j;
    ResolvedByAFirstAddress(calls, low, i);
    ResolvedByAFirstAddress(calls, high, i);
    if low < high {
      assert calls[..high][..low + 1] == calls[..low + 1];
      AttemptsStayPut(calls[..high], i, low + 1);
    }
  }

  // And the only call that ever notifies anybody is the creation of a first
  // address: updating, switching the default and the promotion on removal never
  // do, whatever their code provides for.
  lemma OnlyFirstAddressesNotify(calls: seq<Call>, c: Call)
    ensures
      var b := Run(calls);
      Apply(b, c).notices != b.notices ==> c.Create? && !HasAny(b.addresses, c.user)
  {
    hide Run;
    hide CreateOf;
    hide UpdateOf;
    hide SetDefaultOf;
    hide RemoveOf;
    hide AddressesOk;
    hide AttemptsOk;
    hide GoodCall;
    hide HasAny;
    RunsAreOk(calls);
    var b := Run(calls);
    match c
    case Create(user, body) => if CreateOf(b, user, body).Success? { CreateIsGood(b, user, body); }
    case Update(user, id, body) => if UpdateOf(b, user, id, body).Success? { UpdateIsGood(b, user, id, body); }
    case SetDefault(user, id) => if SetDefaultOf(b, user, id).Success? { SetDefaultIsGood(b, user, id); }
    case Remove(user, id) =>
      if RemoveOf(b, user, id).Success? {
        RemoveIsGood(b, user, id);
      }
    case GiftAttempted(_, _) =>
  }

  predicate WaitsFrom(attempts: seq<Attempt>, receiver: nat, sender: nat) {
    exists k :: 0 <= k < |attempts| && Waiting(attempts[k], receiver) && attempts[k].senderId == sender
  }

  lemma WaitsInLongerList(attempts: seq<Attempt>, last: Attempt, receiver: nat, sender: nat)
    ensures WaitsFrom(attempts + [last], receiver, sender) <==>
      WaitsFrom(attempts, receiver, sender) || (Waiting(last, receiver) && last.senderId == sender)
  {
    var all := attempts + [last];
    if WaitsFrom(attempts, receiver, sender) {
      var k :| 0 <= k < |attempts| && Waiting(attempts[k], receiver) && attempts[k].senderId == sender;
      assert Waiting(all[k], receiver);
    }
    if Waiting(last, receiver) && last.senderId == sender {
      assert Waiting(all[|attempts|], receiver);
    }
    if WaitsFrom(all, receiver, sender) {
      var k :| 0 <= k < |all| && Waiting(all[k], receiver) && all[k].senderId == sender;
      assert k < |attempts| ==> Waiting(attempts[k], receiver);
    }
  }

  // That creation notifies each sender who was waiting once, and nobody else.
  lemma EachWaitingSenderOnce(attempts: seq<Attempt>, receiver: nat)
    ensures
      var senders := UniqueSenders(attempts, receiver);
      && AllDiffer(senders)
      && (forall sender :: sender in senders <==> WaitsFrom(attempts, receiver, sender))
  {
    SendersAreDistinct(attempts, receiver);
    forall sender ensures sender in UniqueSenders(attempts, receiver) <==> WaitsFrom(attempts, receiver, sender) {
      SenderIsListed(attempts, receiver, sender);
    }
  }

  predicate AllDiffer(s: seq<nat>) {
    forall i, j :: 0 <= i < j < |s| ==> s[i] != s[j]
  }

  lemma AppendDiffers(s: seq<nat>, x: nat)
    requires AllDiffer(s) && x !in s
    ensures AllDiffer(s + [x])
  {
  }

  lemma {:induction false} SendersAreDistinct(attempts: seq<Attempt>, receiver: nat)
    ensures AllDiffer(UniqueSenders(attempts, receiver))
  {
    if attempts != [] {
      var before, last := UniqueSenders(attempts[..|attempts| - 1], receiver), attempts[|attempts| - 1];
      SendersAreDistinct(attempts[..|attempts| - 1], receiver);
      if last.senderId !in before {
        AppendDiffers(before, last.senderId);
      }
    }
  }

  lemma {:induction false} SenderIsListed(attempts: seq<Attempt>, receiver: nat, sender: nat)
    ensures sender in UniqueSenders(attempts, receiver) <==> WaitsFrom(attempts, receiver, sender)
  {
    hide WaitsFrom;
    if attempts == [] {
      NobodyWaits(attempts, receiver);
    } else {
      var n := |attempts| - 1;
      SenderIsListed(attempts[..n], receiver, sender);
      assert attempts == attempts[..n] + [attempts[n]];
      WaitsInLongerList(attempts[..n], attempts[n], receiver, sender);
    }
  }

  lemma NobodyWaits(attempts: seq<Attempt>, receiver: nat)
    requires attempts == []
    ensures forall sender :: !WaitsFrom(attempts, receiver, sender)
  {
  }
}

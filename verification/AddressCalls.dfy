// What each address call does, on the addresses themselves: which calls succeed,
// which rows they leave and which address is the default afterwards
// (src/addresses/addresses.service.ts).

module AddressCalls {
  import opened Wrappers
  import opened Text
  import opened Addresses

  predicate IsAddressCall(c: Call) {
    !c.GiftAttempted?
  }

  // A new address must be complete, a changed one complete and the caller's own,
  // and any other the caller's own.
  predicate Succeeds(b: Book, c: Call)
    requires IsAddressCall(c)
  {
    match c
    case Create(_, body) => IsComplete(body)
    case Update(user, id, body) => Owns(b.addresses, user, id) && IsComplete(body)
    case SetDefault(user, id) => Owns(b.addresses, user, id)
    case Remove(user, id) => Owns(b.addresses, user, id)
  }

  function ResultOf(b: Book, c: Call): Result<Book>
    requires IsAddressCall(c)
  {
    match c
    case Create(user, body) => CreateOf(b, user, body)
    case Update(user, id, body) => UpdateOf(b, user, id, body)
    case SetDefault(user, id) => SetDefaultOf(b, user, id)
    case Remove(user, id) => RemoveOf(b, user, id)
  }

  lemma SucceedsExactlyWhen(b: Book, c: Call)
    requires IsAddressCall(c)
    ensures ResultOf(b, c).Success? <==> Succeeds(b, c)
    ensures !Succeeds(b, c) ==> Apply(b, c) == b
  {
    hide BuildPayload;
    hide Trim;
    hide ClearDefaults;
    hide ResolvePending;
    if c.Create? || c.Update? {
      PayloadExactlyWhen(c.body);
    }
  }

  // The ids that are there afterwards.
  function IdsAfter(b: Book, c: Call): set<nat>
    requires IsAddressCall(c)
  {
    match c
    case Create(_, _) => b.addresses.Keys + {b.nextId}
    case Remove(_, id) => b.addresses.Keys - {id}
    case _ => b.addresses.Keys
  }

  // The row holds what the call says, or what it held.
  predicate RowAfter(b: Book, c: Call, id: nat, row: Address)
    requires IsAddressCall(c)
  {
    match c
    case Create(user, body) =>
      if id == b.nextId then row.userId == user && BuildPayload(body) == Success(row.payload)
      else id in b.addresses && SameAddress(row, b.addresses[id])
    case Update(user, at, body) =>
      if id == at then row.userId == user && BuildPayload(body) == Success(row.payload)
      else id in b.addresses && SameAddress(row, b.addresses[id])
    case _ => id in b.addresses && SameAddress(row, b.addresses[id])
  }

  predicate SameAddress(a: Address, b: Address) {
    a.userId == b.userId && a.payload == b.payload
  }

  // A successful call adds or removes its one address, rewrites at most its own,
  // and touches nobody else's.
  lemma RowsAfter(b: Book, c: Call, id: nat)
    requires AddressesOk(b) && IsAddressCall(c) && Succeeds(b, c)
    ensures Apply(b, c).addresses.Keys == IdsAfter(b, c)
    ensures id in Apply(b, c).addresses ==> RowAfter(b, c, id, Apply(b, c).addresses[id])
    ensures id in b.addresses && b.addresses[id].userId != c.user ==>
      id in Apply(b, c).addresses && Apply(b, c).addresses[id] == b.addresses[id]
  {
    hide BuildPayload;
    hide ResolvePending;
    hide OneDefault;
    hide IsComplete;
    SucceedsExactlyWhen(b, c);
  }

  // The newest address of the user but this one.
  predicate IsNewestBut(addresses: map<nat, Address>, user: nat, gone: nat, id: nat) {
    && id != gone && Owns(addresses, user, id)
    && forall other :: other in addresses && other > id && other != gone ==> addresses[other].userId != user
  }

  // Which address of the caller is the default after the call.
  predicate IsDefaultAfter(b: Book, c: Call, id: nat)
    requires IsAddressCall(c)
  {
    match c
    case Create(user, body) =>
      if body.isDefault || !HasAny(b.addresses, user) then id == b.nextId else IsDefaultOf(b.addresses, user, id)
    case Update(user, at, body) => if body.isDefault then id == at else IsDefaultOf(b.addresses, user, id)
    case SetDefault(_, at) => id == at
    case Remove(user, at) =>
      if IsDefaultOf(b.addresses, user, at) then IsNewestBut(b.addresses, user, at, id)
      else IsDefaultOf(b.addresses, user, id)
  }

  // The default is the address that was made it: the new one if it is wanted or
  // the first, the one an update or a choice names, the newest of the others if
  // the default is removed, and otherwise the one it was.
  lemma DefaultAfter(b: Book, c: Call, id: nat)
    requires AddressesOk(b) && IsAddressCall(c) && Succeeds(b, c)
    ensures IsDefaultOf(Apply(b, c).addresses, c.user, id) <==> IsDefaultAfter(b, c, id)
  {
    hide BuildPayload;
    hide ResolvePending;
    hide IsComplete;
    hide AddressesOk;
    SucceedsExactlyWhen(b, c);
    HasOneDefault(b, c.user);
    match c
    case Create(user, body) => CreatedDefault(b, user, body, id);
    case Update(user, at, body) => UpdatedDefault(b, user, at, body, id);
    case SetDefault(user, at) => ChosenDefault(b, user, at, id);
    case Remove(user, at) => InheritedDefault(b, user, at, id);
  }

  lemma HasOneDefault(b: Book, user: nat)
    requires AddressesOk(b)
    ensures OneDefault(b.addresses, user) && forall id :: id in b.addresses ==> id < b.nextId
  {
  }

  lemma CreatedDefault(b: Book, user: nat, body: Body, id: nat)
    requires CreateOf(b, user, body).Success? && forall i :: i in b.addresses ==> i < b.nextId
    ensures
      IsDefaultOf(CreateOf(b, user, body).value.addresses, user, id) <==>
      IsDefaultAfter(b, Create(user, body), id)
  {
    hide BuildPayload;
    hide ResolvePending;
  }

  lemma UpdatedDefault(b: Book, user: nat, at: nat, body: Body, id: nat)
    requires UpdateOf(b, user, at, body).Success? && OneDefault(b.addresses, user)
    ensures
      IsDefaultOf(UpdateOf(b, user, at, body).value.addresses, user, id) <==>
      IsDefaultAfter(b, Update(user, at, body), id)
  {
    hide BuildPayload;
    hide ResolvePending;
    hide HasDefault;
    assert IsDefaultOf(b.addresses, user, id) && IsDefaultOf(b.addresses, user, at) ==> id == at;
  }

  lemma ChosenDefault(b: Book, user: nat, at: nat, id: nat)
    requires SetDefaultOf(b, user, at).Success?
    ensures IsDefaultOf(SetDefaultOf(b, user, at).value.addresses, user, id) <==> id == at
  {
    hide ResolvePending;
    hide HasDefault;
  }

  lemma InheritedDefault(b: Book, user: nat, at: nat, id: nat)
    requires RemoveOf(b, user, at).Success? && OneDefault(b.addresses, user)
    requires forall i :: i in b.addresses ==> i < b.nextId
    ensures IsDefaultOf(RemoveOf(b, user, at).value.addresses, user, id) <==> IsDefaultAfter(b, Remove(user, at), id)
  {
    hide Latest;
    var left := b.addresses - {at};
    assert IsDefaultOf(b.addresses, user, id) && IsDefaultOf(b.addresses, user, at) ==> id == at;
    if b.addresses[at].isDefault {
      LatestIsNewest(b.addresses, user, at, b.nextId, id);
    }
  }

  lemma LatestIsNewest(addresses: map<nat, Address>, user: nat, gone: nat, bound: nat, id: nat)
    requires forall i :: i in addresses ==> i < bound
    ensures Latest(addresses - {gone}, user, bound) == Some(id) <==> IsNewestBut(addresses, user, gone, id)
  {
    var left := addresses - {gone};
    var heir := Latest(left, user, bound);
    forall other | other in addresses && other != gone
      ensures Owns(left, user, other) <==> addresses[other].userId == user
    {
    }
    if heir == Some(id) {
      forall other | other in addresses && other > id && other != gone ensures addresses[other].userId != user {
        assert !Owns(left, user, other);
      }
    }
    if IsNewestBut(addresses, user, gone, id) {
      assert Owns(left, user, id);
      assert heir.Some? && Owns(left, user, heir.value) && heir.value in addresses;
    }
  }
}

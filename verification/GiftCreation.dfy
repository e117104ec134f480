// Creating a gift once per (sender, Idempotency-Key), whatever retries race
// (create in src/gifts/gifts.service.ts). A call looks the key up, passes its
// other gates, inserts under the unique index, and, if it lost the race, looks
// the winner up. The request hash is taken to be injective, so a row holds the
// canonical payload itself.

module GiftCreation {
  import opened Wrappers
  import opened Text

  const MAX_IDEMPOTENCY_KEY_LENGTH := 255

  datatype Body = Body(
    receiverUsername: Option<string>, productName: Option<string>, storeName: Option<string>,
    productId: Option<string>, storeId: Option<string>, messageText: Option<string>, message: Option<string>,
    isAnonymous: bool, isSurprise: bool, isFastDelivery: bool, storeCity: Option<string>,
    occasionId: Option<string>, mediaUrl: Option<string>, mediaType: Option<string>)

  datatype Payload = Payload(
    receiverUsername: Option<string>, productName: Option<string>, storeName: Option<string>,
    productId: Option<string>, storeId: Option<string>, messageText: Option<string>,
    isAnonymous: bool, isSurprise: bool, isFastDelivery: bool, storeCity: Option<string>,
    occasionId: Option<string>, mediaUrl: Option<string>, mediaType: Option<string>)

  function Trimmed(s: Option<string>): Option<string> {
    if s.Some? then Some(Trim(s.value)) else None
  }

  // Trimmed, with nothing left counting as absent.
  function Filled(s: Option<string>): Option<string> {
    if s.Some? && Trim(s.value) != "" then Some(Trim(s.value)) else None
  }

  function Username(s: Option<string>): Option<string> {
    if s.Some? then Some(Lower(Trim(s.value))) else None
  }

  function Message(b: Body): Option<string> {
    if Filled(b.messageText).Some? then Filled(b.messageText) else Filled(b.message)
  }

  // computeGiftRequestHash, up to the hash.
  function Canonical(b: Body): Payload {
    Payload(
      Username(b.receiverUsername), Trimmed(b.productName), Trimmed(b.storeName),
      Filled(b.productId), Filled(b.storeId), Message(b),
      b.isAnonymous, b.isSurprise, b.isFastDelivery, Filled(b.storeCity),
      Filled(b.occasionId), Filled(b.mediaUrl), b.mediaType)
  }

  // An absent or blank key opts out.
  function UsableKey(header: Option<string>): Option<string> {
    Filled(header)
  }

  function Refusal(header: Option<string>, b: Body): Option<string> {
    var key := UsableKey(header);
    if Filled(b.receiverUsername).None? || Filled(b.productName).None? || Filled(b.storeName).None? then
      Some("receiverUsername, productName and storeName are required")
    else if key.Some? && |key.value| > MAX_IDEMPOTENCY_KEY_LENGTH then Some("invalid_idempotency_key")
    else None
  }

  // ── The gates between look-up and insert ──────────────────────────

  // What a call reads on its way: the sender's username, whether the receiver
  // exists, is blocked either way, has a default address and one in the store's
  // city, and the product's row with its availability.
  datatype Gates = Gates(
    senderUsername: Option<string>, receiverFound: bool, blocked: bool, hasDefaultAddress: bool,
    cityReached: bool, productAvailable: Option<bool>)

  predicate WantsProduct(b: Body) {
    b.productId.Some? && b.productId.value != ""
  }

  function GateRefusal(b: Body, g: Gates): Option<string> {
    if g.senderUsername.None? then Some("Sender not found")
    else if Some(Lower(g.senderUsername.value)) == Username(b.receiverUsername) then Some("self_send")
    else if !g.receiverFound then Some("Receiver not found")
    else if g.blocked then Some("Recipient unavailable")
    else if !g.hasDefaultAddress then Some("recipient_no_default_address")
    else if b.isFastDelivery && Filled(b.storeCity).None? then
      Some("storeCity is required for fast-delivery products")
    else if b.isFastDelivery && !g.cityReached then Some("fast_delivery_unavailable")
    else if WantsProduct(b) && g.productAvailable.None? then Some("product_not_found")
    else if WantsProduct(b) && !g.productAvailable.value then Some("product_unavailable")
    else None
  }

  // ── The table and its callers ─────────────────────────────────────

  datatype Gift = Gift(senderId: nat, key: Option<string>, payload: Payload)

  datatype Reply = Reply(gift: nat, replayed: bool)

  datatype Caller =
    | Idle
    | Checked(senderId: nat, key: Option<string>, payload: Payload, body: Body)
    | LostRace(senderId: nat, key: Option<string>, payload: Payload)
    | Failed(error: string)
    | Answered(senderId: nat, key: Option<string>, payload: Payload, reply: Reply)

  datatype State = State(gifts: seq<Gift>, callers: map<nat, Caller>)

  datatype Event =
    | Begin(caller: nat, senderId: nat, header: Option<string>, body: Body)
    | Insert(caller: nat, gates: Gates)
    | Refetch(caller: nat)
    | Crash(caller: nat)

  predicate HasKey(g: Gift, senderId: nat, key: string) {
    g.senderId == senderId && g.key == Some(key)
  }

  function FindByKey(gifts: seq<Gift>, senderId: nat, key: string): (r: Option<nat>)
    ensures r.Some? <==> exists i :: 0 <= i < |gifts| && HasKey(gifts[i], senderId, key)
    ensures r.Some? ==> r.value < |gifts| && HasKey(gifts[r.value], senderId, key)
  {
    if gifts == [] then None
    else if HasKey(gifts[|gifts| - 1], senderId, key) then Some(|gifts| - 1)
    else FindByKey(gifts[..|gifts| - 1], senderId, key)
  }

  // A row found under the key answers the call only if it was the same request.
  function Replay(gifts: seq<Gift>, found: nat, senderId: nat, key: Option<string>, payload: Payload): Caller
    requires found < |gifts|
  {
    if gifts[found].payload != payload then Failed("idempotency_key_reused")
    else Answered(senderId, key, payload, Reply(found, true))
  }

  function BeginStep(gifts: seq<Gift>, senderId: nat, header: Option<string>, body: Body): Caller {
    var key, payload := UsableKey(header), Canonical(body);
    var existing := if key.Some? then FindByKey(gifts, senderId, key.value) else None;
    if Refusal(header, body).Some? then Failed(Refusal(header, body).value)
    else if existing.Some? then Replay(gifts, existing.value, senderId, key, payload)
    else Checked(senderId, key, payload, body)
  }

  function InsertStep(gifts: seq<Gift>, c: Caller, gates: Gates): (seq<Gift>, Caller) {
    if !c.Checked? then (gifts, c)
    else if GateRefusal(c.body, gates).Some? then (gifts, Failed(GateRefusal(c.body, gates).value))
    else if c.key.Some? && FindByKey(gifts, c.senderId, c.key.value).Some? then
      (gifts, LostRace(c.senderId, c.key, c.payload))
    else
      (gifts + [Gift(c.senderId, c.key, c.payload)],
       Answered(c.senderId, c.key, c.payload, Reply(|gifts|, false)))
  }

  function RefetchStep(gifts: seq<Gift>, c: Caller): Caller {
    if !c.LostRace? then c
    else
      var winner := if c.key.Some? then FindByKey(gifts, c.senderId, c.key.value) else None;
      if winner.None? then Failed("P2002") else Replay(gifts, winner.value, c.senderId, c.key, c.payload)
  }

  function CallerOf(s: State, c: nat): Caller {
    if c in s.callers then s.callers[c] else Idle
  }

  function Apply(s: State, e: Event): State {
    match e
    case Begin(c, senderId, header, body) =>
      s.(callers := s.callers[c := BeginStep(s.gifts, senderId, header, body)])
    case Insert(c, gates) =>
      var (gifts, after) := InsertStep(s.gifts, CallerOf(s, c), gates);
      State(gifts, s.callers[c := after])
    case Refetch(c) => s.(callers := s.callers[c := RefetchStep(s.gifts, CallerOf(s, c))])
    case Crash(c) => s.(callers := s.callers[c := Idle])
  }

  function Run(events: seq<Event>): State {
    if events == [] then State([], map[]) else Apply(Run(events[..|events| - 1]), events[|events| - 1])
  }

  class GiftsService {
    var gifts: seq<Gift>

    constructor ()
      ensures gifts == []
    {
      gifts := [];
    }

    // The gates, in the order the call passes them.
    static method PassGates(body: Body, gates: Gates) returns (stopped: Option<string>)
      ensures stopped == GateRefusal(body, gates)
    {
      hide Filled;
      hide Username;
      if gates.senderUsername.None? {
        return Some("Sender not found");
      }
      if Some(Lower(gates.senderUsername.value)) == Username(body.receiverUsername) {
        return Some("self_send");
      }
      if !gates.receiverFound {
        return Some("Receiver not found");
      }
      if gates.blocked {
        return Some("Recipient unavailable");
      }
      if !gates.hasDefaultAddress {
        return Some("recipient_no_default_address");
      }
      if body.isFastDelivery {
        if Filled(body.storeCity).None? {
          return Some("storeCity is required for fast-delivery products");
        }
        if !gates.cityReached {
          return Some("fast_delivery_unavailable");
        }
      }
      if WantsProduct(body) {
        if gates.productAvailable.None? {
          return Some("product_not_found");
        }
        if !gates.productAvailable.value {
          return Some("product_unavailable");
        }
      }
      stopped := None;
    }

    // One call from start to end, undisturbed.
    method Create(senderId: nat, header: Option<string>, body: Body, gates: Gates)
      returns (r: Result<Reply>)
      modifies this
      ensures
        var begun := BeginStep(old(gifts), senderId, header, body);
        var (after, ended) := InsertStep(old(gifts), begun, gates);
        && gifts == after
        && (r.Success? <==> ended.Answered?)
        && (r.Success? ==> r.value == ended.reply)
        && (r.Failure? ==> ended == Failed(r.error))
      ensures r.Success? && !r.value.replayed ==> Refusal(header, body).None? && GateRefusal(body, gates).None?
    {
      hide Canonical;
      hide GateRefusal;
      var refusal := Refusal(header, body);
      if refusal.Some? {
        return Failure(refusal.value);
      }
      var key, payload := UsableKey(header), Canonical(body);
      if key.Some? {
        var existing := FindByKey(gifts, senderId, key.value);
        if existing.Some? {
          if gifts[existing.value].payload != payload {
            return Failure("idempotency_key_reused");
          }
          return Success(Reply(existing.value, true));
        }
      }
      var stopped := PassGates(body, gates);
      if stopped.Some? {
        return Failure(stopped.value);
      }
      gifts := gifts + [Gift(senderId, key, payload)];
      r := Success(Reply(|gifts| - 1, false));
    }
  }

  // ── What the payload ignores ──────────────────────────────────────

  lemma {:induction false} TrimStartLeavesNone(s: string)
    ensures var t := TrimStart(s); t == "" || !IsWhitespace(t[0])
    ensures exists k :: 0 <= k <= |s| && TrimStart(s) == s[k..]
  {
    if s != "" && IsWhitespace(s[0]) {
      TrimStartLeavesNone(s[1..]);
      var k :| 0 <= k <= |s[1..]| && TrimStart(s[1..]) == s[1..][k..];
      assert s[1..][k..] == s[k + 1..];
    } else {
      assert s[0..] == s;
    }
  }

  lemma {:induction false} TrimEndLeavesNone(s: string)
    ensures var t := TrimEnd(s); t <= s && (t == "" || !IsWhitespace(t[|t| - 1]))
  {
    if s != "" && IsWhitespace(s[|s| - 1]) {
      TrimEndLeavesNone(s[..|s| - 1]);
    }
  }

  lemma TrimIsIdempotent(s: string)
    ensures Trim(Trim(s)) == Trim(s)
  {
    TrimStartLeavesNone(s);
    TrimEndLeavesNone(TrimStart(s));
    var t := Trim(s);
    assert t != "" ==> !IsWhitespace(t[0]) && !IsWhitespace(t[|t| - 1]);
  }

  // A retry that trims its texts, and sends the message under either name, is
  // the same request.
  lemma TidiedRetryIsTheSameRequest(b: Body)
    ensures Canonical(b) == Canonical(b.(
      productName := Trimmed(b.productName), storeName := Trimmed(b.storeName),
      productId := Filled(b.productId), storeId := Filled(b.storeId),
      messageText := Message(b), message := None,
      storeCity := Filled(b.storeCity), occasionId := Filled(b.occasionId), mediaUrl := Filled(b.mediaUrl)))
  {
    TrimmedTwice(b.productName);
    TrimmedTwice(b.storeName);
    FilledTwice(b.productId);
    FilledTwice(b.storeId);
    FilledTwice(b.messageText);
    FilledTwice(b.message);
    FilledTwice(b.storeCity);
    FilledTwice(b.occasionId);
    FilledTwice(b.mediaUrl);
    hide Trimmed;
    hide Filled;
  }

  // ── What the payload keeps apart ──────────────────────────────────

  // Both absent, or the same up to white space around them.
  predicate SameTrimmed(a: Option<string>, b: Option<string>) {
    (a.Some? <==> b.Some?) && (a.Some? && b.Some? ==> Trim(a.value) == Trim(b.value))
  }

  // The same, where a blank text is as good as none.
  predicate SameOrBlank(a: Option<string>, b: Option<string>) {
    || (!Shows(a) && !Shows(b))
    || (a.Some? && b.Some? && Trim(a.value) == Trim(b.value))
  }

  predicate SameName(a: Option<string>, b: Option<string>) {
    (a.Some? <==> b.Some?) && (a.Some? && b.Some? ==> Lower(Trim(a.value)) == Lower(Trim(b.value)))
  }

  // What the request says to the receiver, under the new name or the old one.
  predicate Says(b: Body, text: string) {
    text != "" &&
      if !Shows(b.messageText) then b.message.Some? && Trim(b.message.value) == text
      else Trim(b.messageText.value) == text
  }

  ghost predicate SameMessage(a: Body, b: Body) {
    forall text :: Says(a, text) <==> Says(b, text)
  }

  // Two requests that ask for the same gift.
  ghost predicate SameRequest(a: Body, b: Body) {
    && SameName(a.receiverUsername, b.receiverUsername)
    && SameTrimmed(a.productName, b.productName) && SameTrimmed(a.storeName, b.storeName)
    && SameOrBlank(a.productId, b.productId) && SameOrBlank(a.storeId, b.storeId)
    && SameMessage(a, b)
    && a.isAnonymous == b.isAnonymous && a.isSurprise == b.isSurprise && a.isFastDelivery == b.isFastDelivery
    && SameOrBlank(a.storeCity, b.storeCity) && SameOrBlank(a.occasionId, b.occasionId)
    && SameOrBlank(a.mediaUrl, b.mediaUrl) && a.mediaType == b.mediaType
  }

  lemma MessageIsWhatItSays(b: Body)
    ensures forall text :: Says(b, text) <==> Message(b) == Some(text)
  {
    hide Trim;
  }

  lemma SameMessageSamePayload(a: Body, b: Body)
    ensures SameMessage(a, b) <==> Message(a) == Message(b)
  {
    hide Message;
    hide Says;
    MessageIsWhatItSays(a);
    MessageIsWhatItSays(b);
    if SameMessage(a, b) {
      if Message(a).Some? {
        assert Says(a, Message(a).value);
      }
      if Message(b).Some? {
        assert Says(b, Message(b).value);
      }
    }
  }

  lemma SameTextSamePayload(a: Option<string>, b: Option<string>)
    ensures SameTrimmed(a, b) <==> Trimmed(a) == Trimmed(b)
    ensures SameOrBlank(a, b) <==> Filled(a) == Filled(b)
    ensures SameName(a, b) <==> Username(a) == Username(b)
  {
    hide Trim;
    hide Lower;
  }

  // The payload is the same exactly for the same request: whatever changes the
  // receiver, product, store, message, flags, occasion or media changes it.
  lemma SamePayloadExactlyWhen(a: Body, b: Body)
    ensures SameRequest(a, b) <==> Canonical(a) == Canonical(b)
  {
    hide Username;
    hide Trimmed;
    hide Filled;
    hide Message;
    hide SameName;
    hide SameTrimmed;
    hide SameOrBlank;
    hide SameMessage;
    SameTextSamePayload(a.receiverUsername, b.receiverUsername);
    SameTextSamePayload(a.productName, b.productName);
    SameTextSamePayload(a.storeName, b.storeName);
    SameTextSamePayload(a.productId, b.productId);
    SameTextSamePayload(a.storeId, b.storeId);
    SameMessageSamePayload(a, b);
    SameTextSamePayload(a.storeCity, b.storeCity);
    SameTextSamePayload(a.occasionId, b.occasionId);
    SameTextSamePayload(a.mediaUrl, b.mediaUrl);
  }

  lemma TrimmedTwice(s: Option<string>)
    ensures Trimmed(Trimmed(s)) == Trimmed(s)
  {
    if s.Some? {
      TrimIsIdempotent(s.value);
    }
  }

  lemma FilledTwice(s: Option<string>)
    ensures Filled(Filled(s)) == Filled(s)
    ensures Filled(None) == None
  {
    if s.Some? {
      TrimIsIdempotent(s.value);
    }
  }

  // ── Exactly once ──────────────────────────────────────────────────

  ghost predicate OnePerKey(gifts: seq<Gift>) {
    forall i, j :: 0 <= i < j < |gifts| && gifts[i].key.Some? ==>
      !(gifts[i].senderId == gifts[j].senderId && gifts[i].key == gifts[j].key)
  }

  // What a caller between its steps, or answered, can count on.
  predicate CallerOk(gifts: seq<Gift>, c: Caller) {
    match c
    case LostRace(senderId, key, _) => key.Some? && FindByKey(gifts, senderId, key.value).Some?
    case Answered(senderId, key, payload, reply) =>
      reply.gift < |gifts| && gifts[reply.gift] == Gift(senderId, key, payload)
    case _ => true
  }

  ghost predicate Sound(s: State) {
    OnePerKey(s.gifts) && forall c :: c in s.callers ==> CallerOk(s.gifts, s.callers[c])
  }

  lemma OneMoreGift(gifts: seq<Gift>, g: Gift)
    requires OnePerKey(gifts) && (g.key.Some? ==> FindByKey(gifts, g.senderId, g.key.value).None?)
    ensures OnePerKey(gifts + [g])
  {
    if g.key.Some? {
      assert forall i :: 0 <= i < |gifts| ==> !HasKey(gifts[i], g.senderId, g.key.value);
    }
  }

  lemma CallersSurvive(gifts: seq<Gift>, g: Gift, c: Caller)
    requires CallerOk(gifts, c)
    ensures CallerOk(gifts + [g], c)
  {
    if c.LostRace? {
      var i :| 0 <= i < |gifts| && HasKey(gifts[i], c.senderId, c.key.value);
      assert HasKey((gifts + [g])[i], c.senderId, c.key.value);
    }
  }

  lemma StepKeepsSound(s: State, e: Event)
    requires Sound(s)
    ensures Sound(Apply(s, e)) && s.gifts <= Apply(s, e).gifts
  {
    hide Canonical;
    hide UsableKey;
    hide Refusal;
    hide GateRefusal;
    if e.Insert? {
      var c := CallerOf(s, e.caller);
      var after := InsertStep(s.gifts, c, e.gates).0;
      if after != s.gifts {
        var g := Gift(c.senderId, c.key, c.payload);
        OneMoreGift(s.gifts, g);
        forall k | k in s.callers ensures CallerOk(s.gifts + [g], s.callers[k]) {
          CallersSurvive(s.gifts, g, s.callers[k]);
        }
      }
    }
  }

  lemma {:induction false} RunsAreSound(events: seq<Event>)
    ensures Sound(Run(events))
  {
    hide Apply;
    hide Sound;
    if events == [] {
      EmptyIsSound();
    } else {
      RunsAreSound(events[..|events| - 1]);
      StepKeepsSound(Run(events[..|events| - 1]), events[|events| - 1]);
    }
  }

  lemma EmptyIsSound()
    ensures Sound(State([], map[]))
  {
  }

  lemma {:induction false} GiftsStay(events: seq<Event>, later: seq<Event>)
    ensures Run(events).gifts <= Run(events + later).gifts
  {
    hide Apply;
    hide Sound;
    if later == [] {
      assert events + later == events;
    } else {
      var n := |later| - 1;
      GiftsStay(events, later[..n]);
      assert (events + later)[..|events + later| - 1] == events + later[..n];
      RunsAreSound(events + later[..n]);
      StepKeepsSound(Run(events + later[..n]), later[n]);
    }
  }

  // In every interleaving of retries, crashes and other callers there is at most
  // one gift for a sender's key.
  lemma OneGiftPerKey(events: seq<Event>, i: nat, j: nat)
    requires i < |Run(events).gifts| && j < |Run(events).gifts|
    requires Run(events).gifts[i].key.Some?
    requires Run(events).gifts[i].senderId == Run(events).gifts[j].senderId
    requires Run(events).gifts[i].key == Run(events).gifts[j].key
    ensures i == j
  {
    hide Run;
    RunsAreSound(events);
  }

  // ── Back to the requests ──────────────────────────────────────────

  // Event i is the request the caller is about: its last one.
  ghost predicate LastBegan(events: seq<Event>, i: nat, c: nat) {
    && i < |events| && events[i].Begin? && events[i].caller == c
    && forall k :: i < k < |events| && events[k].Begin? ==> events[k].caller != c
  }

  predicate UnderWay(c: Caller) {
    c.Checked? || c.LostRace? || c.Answered?
  }

  // The caller carries its request's sender, key and payload.
  predicate Carries(c: Caller, e: Event) {
    UnderWay(c) && e.Begin? && Refusal(e.header, e.body).None?
    && c.senderId == e.senderId && c.key == UsableKey(e.header) && c.payload == Canonical(e.body)
  }

  lemma StepOfACaller(s: State, e: Event, c: nat)
    requires UnderWay(CallerOf(Apply(s, e), c))
    ensures
      var before, after := CallerOf(s, c), CallerOf(Apply(s, e), c);
      if e.Begin? && e.caller == c then Carries(after, e)
      else
        UnderWay(before) && after.senderId == before.senderId && after.key == before.key
        && after.payload == before.payload
  {
    hide Canonical;
    hide Refusal;
    hide UsableKey;
    hide GateRefusal;
  }

  lemma {:induction false} CallerBegan(events: seq<Event>, c: nat) returns (i: nat)
    requires UnderWay(CallerOf(Run(events), c))
    ensures LastBegan(events, i, c) && Carries(CallerOf(Run(events), c), events[i])
  {
    hide Apply;
    hide UnderWay;
    hide Canonical;
    hide UsableKey;
    if events == [] {
      NobodyAtTheStart(c);
      assert false;
    } else {
      var n := |events| - 1;
      StepOfACaller(Run(events[..n]), events[n], c);
      if events[n].Begin? && events[n].caller == c {
        i := n;
      } else {
        i := CallerBegan(events[..n], c);
      }
    }
  }

  lemma NobodyAtTheStart(c: nat)
    ensures !UnderWay(CallerOf(State([], map[]), c))
  {
  }

  lemma LastBeganIsOne(events: seq<Event>, i: nat, j: nat, c: nat)
    requires LastBegan(events, i, c) && LastBegan(events, j, c)
    ensures i == j
  {
  }

  lemma CarriesItsRequest(events: seq<Event>, c: nat, i: nat)
    requires UnderWay(CallerOf(Run(events), c)) && LastBegan(events, i, c)
    ensures Carries(CallerOf(Run(events), c), events[i])
  {
    hide Run;
    hide Carries;
    hide UnderWay;
    hide LastBegan;
    var j := CallerBegan(events, c);
    LastBeganIsOne(events, i, j, c);
  }

  // Two usable keys that are the same up to white space around them.
  predicate SameKey(a: Option<string>, b: Option<string>) {
    a.Some? && b.Some? && Trim(a.value) != "" && Trim(a.value) == Trim(b.value)
  }

  lemma SameKeySameTuple(a: Option<string>, b: Option<string>)
    ensures SameKey(a, b) <==> UsableKey(a).Some? && UsableKey(a) == UsableKey(b)
  {
    hide Trim;
  }

  // Every successful answer under one key, at any time, is that gift, and every
  // request so answered asked for the same.
  lemma SuccessesAgree(events: seq<Event>, later: seq<Event>, c: nat, d: nat, i: nat, j: nat)
    requires CallerOf(Run(events), c).Answered? && CallerOf(Run(events + later), d).Answered?
    requires LastBegan(events, i, c) && LastBegan(events + later, j, d)
    requires
      var a, b := events[i], (events + later)[j];
      a.senderId == b.senderId && SameKey(a.header, b.header)
    ensures
      var a, b := CallerOf(Run(events), c), CallerOf(Run(events + later), d);
      && a.reply.gift == b.reply.gift && a.payload == b.payload
      && SameRequest(events[i].body, (events + later)[j].body)
  {
    hide Run;
    hide Canonical;
    hide UsableKey;
    hide SameRequest;
    hide SameKey;
    hide Refusal;
    var all := events + later;
    var e, f := events[i], all[j];
    CarriesItsRequest(events, c, i);
    CarriesItsRequest(all, d, j);
    SameKeySameTuple(e.header, f.header);
    AnswersAgree(events, later, c, d);
    SamePayloadExactlyWhen(e.body, f.body);
  }

  lemma AnswersAgree(events: seq<Event>, later: seq<Event>, c: nat, d: nat)
    requires CallerOf(Run(events), c).Answered? && CallerOf(Run(events + later), d).Answered?
    requires
      var a, b := CallerOf(Run(events), c), CallerOf(Run(events + later), d);
      a.senderId == b.senderId && a.key == b.key && a.key.Some?
    ensures
      var a, b := CallerOf(Run(events), c), CallerOf(Run(events + later), d);
      a.reply.gift == b.reply.gift && a.payload == b.payload
  {
    hide Run;
    RunsAreSound(events);
    RunsAreSound(events + later);
    GiftsStay(events, later);
    var a, b := CallerOf(Run(events), c), CallerOf(Run(events + later), d);
    assert CallerOk(Run(events).gifts, a) && CallerOk(Run(events + later).gifts, b);
    assert Run(events + later).gifts[a.reply.gift] == Run(events).gifts[a.reply.gift];
  }

  // Once a request under a key was answered, a later one of that sender and key
  // is answered with its gift exactly if it asks for the same, and refused as a
  // reuse of the key otherwise.
  lemma RetryIsAnsweredExactlyWhen(events: seq<Event>, c: nat, i: nat, d: nat, header: Option<string>, body: Body)
    requires CallerOf(Run(events), c).Answered? && LastBegan(events, i, c)
    requires Refusal(header, body).None? && SameKey(events[i].header, header)
    ensures
      var after := CallerOf(Apply(Run(events), Begin(d, events[i].senderId, header, body)), d);
      && (SameRequest(events[i].body, body) ==>
            after.Answered? && after.reply == Reply(CallerOf(Run(events), c).reply.gift, true))
      && (!SameRequest(events[i].body, body) ==> after == Failed("idempotency_key_reused"))
  {
    hide Run;
    hide Canonical;
    hide UsableKey;
    hide Refusal;
    hide SameRequest;
    hide SameKey;
    var s, caller := Run(events), CallerOf(Run(events), c);
    RunsAreSound(events);
    CarriesItsRequest(events, c, i);
    SameKeySameTuple(events[i].header, header);
    SamePayloadExactlyWhen(events[i].body, body);
    assert CallerOk(s.gifts, caller);
    assert HasKey(s.gifts[caller.reply.gift], caller.senderId, caller.key.value);
    var found := FindByKey(s.gifts, caller.senderId, caller.key.value);
    OneGiftPerKey(events, found.value, caller.reply.gift);
  }

  // A caller that lost the race always finds the winner: it is answered with it,
  // or refused for having asked for something else.
  lemma LosersFindTheWinner(events: seq<Event>, c: nat)
    requires CallerOf(Run(events), c).LostRace?
    ensures
      var lost, after := CallerOf(Run(events), c), RefetchStep(Run(events).gifts, CallerOf(Run(events), c));
      after.Answered? || after == Failed("idempotency_key_reused")
  {
    hide Run;
    RunsAreSound(events);
    assert CallerOk(Run(events).gifts, CallerOf(Run(events), c));
  }
}

// Which requests become gifts (create in src/gifts/gifts.service.ts), read off
// whole runs of the creation protocol: what the request must say, what the
// database must say when it is written, and what the gift then holds.

module GiftGates {
  import opened Wrappers
  import opened Text
  import opened GiftCreation

  // A request names receiver, product and store, and its key, if it has one, is
  // not too long.
  predicate IsProper(header: Option<string>, b: Body) {
    && Shows(b.receiverUsername) && Shows(b.productName) && Shows(b.storeName)
    && (header.Some? ==> |Trim(header.value)| <= 255)
  }

  // Sender and receiver exist and are not the same, neither has blocked the other,
  // the receiver can receive, fast delivery reaches them, and a named product is
  // available.
  predicate Passes(b: Body, g: Gates) {
    && g.senderUsername.Some? && g.receiverFound && !g.blocked && g.hasDefaultAddress
    && b.receiverUsername.Some? && Lower(g.senderUsername.value) != Lower(Trim(b.receiverUsername.value))
    && (b.isFastDelivery ==> Shows(b.storeCity) && g.cityReached)
    && (b.productId.Some? && b.productId.value != "" ==> g.productAvailable == Some(true))
  }

  // What the gift holds of its request.
  predicate Holds(p: Payload, b: Body) {
    && b.receiverUsername.Some? && p.receiverUsername == Some(Lower(Trim(b.receiverUsername.value)))
    && Keeps(b.productName, p.productName) && Keeps(b.storeName, p.storeName)
    && Keeps(b.productId, p.productId) && Keeps(b.storeId, p.storeId)
    && Keeps(if Shows(b.messageText) then b.messageText else b.message, p.messageText)
    && p.isAnonymous == b.isAnonymous && p.isSurprise == b.isSurprise && p.isFastDelivery == b.isFastDelivery
    && Keeps(b.storeCity, p.storeCity) && Keeps(b.occasionId, p.occasionId)
    && Keeps(b.mediaUrl, p.mediaUrl) && p.mediaType == b.mediaType
  }

  lemma ProperExactlyWhen(header: Option<string>, b: Body)
    ensures Refusal(header, b).None? <==> IsProper(header, b)
  {
    hide Trim;
  }

  lemma GatesOpenExactlyWhen(b: Body, g: Gates)
    requires b.receiverUsername.Some?
    ensures GateRefusal(b, g).None? <==> Passes(b, g)
  {
    hide Trim;
    hide Lower;
  }

  lemma PayloadHolds(header: Option<string>, b: Body)
    requires IsProper(header, b)
    ensures Holds(Canonical(b), b)
  {
    hide Trim;
    hide Lower;
  }

  lemma KeyIsKept(header: Option<string>)
    ensures Keeps(header, UsableKey(header))
  {
    hide Trim;
  }

  // ── Over a run ────────────────────────────────────────────────────

  // Event b began the call whose insert is event n.
  ghost predicate BegunBy(events: seq<Event>, b: nat, n: nat) {
    && n < |events| && events[n].Insert? && LastBegan(events[..n], b, events[n].caller)
  }

  // The gift is the one that was asked for.
  predicate IsGiftOf(g: Gift, e: Event) {
    e.Begin? && g.senderId == e.senderId && Keeps(e.header, g.key) && Holds(g.payload, e.body)
  }

  // The caller still has its request in hand.
  predicate HasInHand(c: Caller, e: Event) {
    c.Checked? && e.Begin? && c.body == e.body
  }

  lemma InHandSteps(s: State, e: Event, c: nat)
    requires CallerOf(Apply(s, e), c).Checked?
    ensures
      if e.Begin? && e.caller == c then HasInHand(CallerOf(Apply(s, e), c), e)
      else CallerOf(s, c) == CallerOf(Apply(s, e), c)
  {
    hide Canonical;
    hide GiftCreation.Refusal;
    hide UsableKey;
    hide GateRefusal;
  }

  lemma {:induction false} CheckedHasInHand(events: seq<Event>, c: nat, i: nat)
    requires CallerOf(Run(events), c).Checked? && LastBegan(events, i, c)
    ensures HasInHand(CallerOf(Run(events), c), events[i])
  {
    hide Apply;
    if events != [] {
      var n := |events| - 1;
      InHandSteps(Run(events[..n]), events[n], c);
      if !(events[n].Begin? && events[n].caller == c) {
        CheckedHasInHand(events[..n], c, i);
      }
    }
  }

  // A call whose request is in hand makes a gift exactly if the gates are open
  // then and its key, if it has one, is not in use; and that gift is the last one.
  lemma InsertsExactlyWhen(events: seq<Event>, c: nat, i: nat, gates: Gates)
    requires CallerOf(Run(events), c).Checked? && LastBegan(events, i, c)
    ensures
      var s, after, e := Run(events), Apply(Run(events), Insert(c, gates)), events[i];
      && IsProper(e.header, e.body)
      && ((forall g :: 0 <= g < |s.gifts| ==> !(s.gifts[g].senderId == e.senderId && s.gifts[g].key.Some?
                                               && Keeps(e.header, s.gifts[g].key))) && Passes(e.body, gates) <==>
          |after.gifts| == |s.gifts| + 1)
      && (|after.gifts| == |s.gifts| + 1 ==>
            && s.gifts == after.gifts[..|s.gifts|] && IsGiftOf(after.gifts[|s.gifts|], e)
            && CallerOf(after, c).Answered? && CallerOf(after, c).reply == Reply(|s.gifts|, false))
      && (|after.gifts| != |s.gifts| + 1 ==> after.gifts == s.gifts && !CallerOf(after, c).Answered?)
  {
    hide Run;
    hide Canonical;
    hide UsableKey;
    hide GiftCreation.Refusal;
    hide GateRefusal;
    hide IsProper;
    hide Passes;
    hide Holds;
    var s, e := Run(events), events[i];
    var caller := CallerOf(s, c);
    CarriesItsRequest(events, c, i);
    CheckedHasInHand(events, c, i);
    ProperExactlyWhen(e.header, e.body);
    ReceiverIsNamed(e.header, e.body);
    GatesOpenExactlyWhen(e.body, gates);
    PayloadHolds(e.header, e.body);
    KeyIsKept(e.header);
    KeptOnce(e.header, caller.key, s.gifts, e.senderId);
  }

  lemma ReceiverIsNamed(header: Option<string>, b: Body)
    requires IsProper(header, b)
    ensures b.receiverUsername.Some?
  {
  }

  lemma KeptOnce(header: Option<string>, key: Option<string>, gifts: seq<Gift>, senderId: nat)
    requires Keeps(header, key)
    ensures
      (key.Some? && FindByKey(gifts, senderId, key.value).Some?) <==>
      exists g :: 0 <= g < |gifts| && gifts[g].senderId == senderId && gifts[g].key.Some? && Keeps(header, gifts[g].key)
  {
    hide Trim;
    if key.Some? {
      if g :| 0 <= g < |gifts| && gifts[g].senderId == senderId && gifts[g].key.Some? && Keeps(header, gifts[g].key) {
        assert HasKey(gifts[g], senderId, key.value);
      }
    }
  }

  // Every gift of every run goes back to a proper request and to a write that
  // found all gates open, and holds what was asked for.
  lemma {:induction false} GiftsPassedTheGates(events: seq<Event>, g: nat) returns (b: nat, n: nat)
    requires g < |Run(events).gifts|
    ensures BegunBy(events, b, n) && b < n < |events|
    ensures
      && IsGiftOf(Run(events).gifts[g], events[b])
      && IsProper(events[b].header, events[b].body) && Passes(events[b].body, events[n].gates)
  {
    hide Apply;
    hide IsGiftOf;
    hide IsProper;
    hide Passes;
    if events == [] {
      assert false;
    } else {
      var m := |events| - 1;
      var s := Run(events[..m]);
      OnlyInsertsAdd(s, events[m], g);
      if g < |s.gifts| {
        b, n := GiftsPassedTheGates(events[..m], g);
        assert events[..m][..n] == events[..n];
      } else {
        n := m;
        var caller := CallerOf(s, events[m].caller);
        b := CallerBegan(events[..m], events[m].caller);
        InsertsExactlyWhen(events[..m], events[m].caller, b, events[m].gates);
      }
    }
  }

  lemma OnlyInsertsAdd(s: State, e: Event, g: nat)
    requires g < |Apply(s, e).gifts|
    ensures g < |s.gifts| ==> Apply(s, e).gifts[g] == s.gifts[g]
    ensures g >= |s.gifts| ==>
      e.Insert? && CallerOf(s, e.caller).Checked? && |Apply(s, e).gifts| == |s.gifts| + 1 && g == |s.gifts|
  {
    hide Canonical;
    hide GiftCreation.Refusal;
    hide UsableKey;
    hide GateRefusal;
  }
}

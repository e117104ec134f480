// The life of a gift: the status graph (src/gifts/gift-status.ts), the calls that
// move a gift (create, confirmAddress and cancel in src/gifts/gifts.service.ts,
// the default-address sweep in src/gifts/gifts-auto-default.service.ts, the
// store's steps in src/store/store.service.ts) and the calls that publish and
// unpublish posts about it (src/gift-posts/gift-posts.service.ts).
//
// A call is a chain of database calls, and a step of the model is one of them.
// The counter writes and the take-down of posts are best effort: they may fail,
// and the call goes on. Any call may die between two of its steps.
// confirmAddress and the store's steps check and then write unconditionally;
// each is taken as one atomic step.

module GiftLifecycle {
  import opened Wrappers

  datatype GiftStatus =
    | PendingAddress | AddressConfirmed | DefaultAddressUsed | Preparing | Shipped | Delivered | Cancelled

  function AllowedTransitions(from: GiftStatus): set<GiftStatus> {
    match from
    case PendingAddress => {AddressConfirmed, DefaultAddressUsed, Cancelled}
    case AddressConfirmed => {Preparing, Cancelled}
    case DefaultAddressUsed => {Preparing, Cancelled}
    case Preparing => {Shipped}
    case Shipped => {Delivered}
    case Delivered => {}
    case Cancelled => {}
  }

  const CANCELLABLE: set<GiftStatus> := {PendingAddress, AddressConfirmed, DefaultAddressUsed}

  // A gift with the statuses it has had, first to last.
  datatype Gift = Gift(senderId: nat, receiverId: nat, productId: Option<nat>, trail: seq<GiftStatus>)

  function StatusOf(g: Gift): GiftStatus
    requires g.trail != []
  {
    g.trail[|g.trail| - 1]
  }

  // A post of one side about a gift.
  datatype Post = Post(giftId: nat, owner: nat, published: bool, deactivated: bool)

  predicate LivePost(p: Post) {
    p.published && !p.deactivated
  }

  // A call in flight, by the database call it is about to make.
  datatype Call =
    | Raising(gift: nat)                     // create: the row is in, the counter is next
    | Promoting(gift: nat)                   // the sweep has chosen an address
    | Cancelling(gift: nat)                  // cancel has seen a cancellable gift
    | Lowering(gift: nat)                    // its flip changed the row; the counter is next
    | TakingDown(gift: nat)                  // and then the posts
    | Checked(gift: nat, owner: nat)         // publish has seen a gift not cancelled
    | Posting(gift: nat, owner: nat, existing: Option<nat>)  // and its own unpublished post, or none

  datatype State = State(
    gifts: seq<Gift>, giftedBy: map<nat, int>, posts: seq<Post>, calls: map<nat, Call>)

  const START := State([], map[], [], map[])

  datatype Event =
    | CreateGift(call: nat, sender: nat, receiver: nat, product: Option<nat>)
    | ConfirmAddress(gift: nat, viewer: nat, addressOwned: bool, covered: bool)
    | SweepChooses(call: nat, gift: nat)
    | CancelReads(call: nat, gift: nat, viewer: nat)
    | PublishReads(call: nat, gift: nat, viewer: nat)
    | StoreMoves(gift: nat, to: GiftStatus)
    | Unpublish(post: nat, viewer: nat)
    | Next(call: nat, ok: bool)   // the call's next database call; a best-effort one may fail
    | Die(call: nat)

  predicate Exists(s: State, g: nat) {
    g < |s.gifts| && s.gifts[g].trail != []
  }

  predicate HasStatus(s: State, g: nat, status: GiftStatus) {
    Exists(s, g) && StatusOf(s.gifts[g]) == status
  }

  predicate Cancellable(s: State, g: nat) {
    Exists(s, g) && StatusOf(s.gifts[g]) in CANCELLABLE
  }

  predicate IsParty(s: State, g: nat, viewer: nat) {
    g < |s.gifts| && (viewer == s.gifts[g].senderId || viewer == s.gifts[g].receiverId)
  }

  predicate MayPublish(s: State, g: nat, viewer: nat) {
    Exists(s, g) && IsParty(s, g, viewer) && StatusOf(s.gifts[g]) != Cancelled
  }

  predicate MayUnpublish(s: State, p: nat, viewer: nat) {
    p < |s.posts| && s.posts[p].owner == viewer && s.posts[p].published
  }

  function Move(s: State, g: nat, to: GiftStatus): State
    requires g < |s.gifts|
  {
    s.(gifts := s.gifts[g := s.gifts[g].(trail := s.gifts[g].trail + [to])])
  }

  function Count(s: State, product: nat): int {
    if product in s.giftedBy then s.giftedBy[product] else 0
  }

  // The counter of a gift's product goes up or down; a gift of no product has none.
  function Counted(s: State, g: nat, delta: int): State {
    if g < |s.gifts| && s.gifts[g].productId.Some? then
      var product := s.gifts[g].productId.value;
      s.(giftedBy := s.giftedBy[product := Count(s, product) + delta])
    else s
  }

  // Every post of a gift that is not deactivated yet is.
  function TakenDown(posts: seq<Post>, g: nat): (after: seq<Post>)
    ensures |after| == |posts|
    ensures forall p :: 0 <= p < |posts| ==>
      after[p] == if posts[p].giftId == g then posts[p].(deactivated := true) else posts[p]
  {
    seq(|posts|, p requires 0 <= p < |posts| =>
      if posts[p].giftId == g then posts[p].(deactivated := true) else posts[p])
  }

  function PostOf(posts: seq<Post>, g: nat, owner: nat): (r: Option<nat>)
    ensures r.Some? ==> r.value < |posts| && posts[r.value].giftId == g && posts[r.value].owner == owner
    ensures r.None? ==> forall p :: 0 <= p < |posts| ==> !(posts[p].giftId == g && posts[p].owner == owner)
  {
    if posts == [] then None
    else if posts[|posts| - 1].giftId == g && posts[|posts| - 1].owner == owner then Some(|posts| - 1)
    else PostOf(posts[..|posts| - 1], g, owner)
  }

  // A post that was found is surfaced by its id; a new one goes through the
  // unique index on gift and owner.
  function Posted(posts: seq<Post>, g: nat, owner: nat, existing: Option<nat>): seq<Post> {
    if existing.Some? then
      if existing.value < |posts|
      then posts[existing.value := posts[existing.value].(published := true, deactivated := false)]
      else posts
    else if PostOf(posts, g, owner).None? then posts + [Post(g, owner, true, false)]
    else posts
  }

  function Started(s: State, c: nat, call: Call): State {
    s.(calls := s.calls[c := call])
  }

  function Rested(s: State, c: nat): State {
    s.(calls := s.calls - {c})
  }

  function NextStep(s: State, c: nat, ok: bool): State
    requires c in s.calls
  {
    match s.calls[c]
    case Raising(g) => Rested(if ok then Counted(s, g, 1) else s, c)
    case Promoting(g) =>
      Rested(if HasStatus(s, g, PendingAddress) then Move(s, g, DefaultAddressUsed) else s, c)
    case Cancelling(g) =>
      if Cancellable(s, g) then Started(Move(s, g, Cancelled), c, Lowering(g)) else Rested(s, c)
    case Lowering(g) => Started(if ok then Counted(s, g, -1) else s, c, TakingDown(g))
    case TakingDown(g) => Rested(if ok then s.(posts := TakenDown(s.posts, g)) else s, c)
    case Checked(g, owner) =>
      var existing := PostOf(s.posts, g, owner);
      if existing.Some? && s.posts[existing.value].published then Rested(s, c)
      else Started(s, c, Posting(g, owner, existing))
    case Posting(g, owner, existing) => Rested(s.(posts := Posted(s.posts, g, owner, existing)), c)
  }

  function Apply(s: State, e: Event): State {
    match e
    case CreateGift(c, sender, receiver, product) =>
      if c in s.calls then s
      else Started(s.(gifts := s.gifts + [Gift(sender, receiver, product, [PendingAddress])]), c, Raising(|s.gifts|))
    case ConfirmAddress(g, viewer, addressOwned, covered) =>
      if HasStatus(s, g, PendingAddress) && s.gifts[g].receiverId == viewer && addressOwned && covered
      then Move(s, g, AddressConfirmed) else s
    case SweepChooses(c, g) =>
      if c !in s.calls && HasStatus(s, g, PendingAddress) then Started(s, c, Promoting(g)) else s
    case CancelReads(c, g, viewer) =>
      if c !in s.calls && Cancellable(s, g) && s.gifts[g].senderId == viewer then Started(s, c, Cancelling(g)) else s
    case PublishReads(c, g, viewer) =>
      if c !in s.calls && MayPublish(s, g, viewer) then Started(s, c, Checked(g, viewer)) else s
    case StoreMoves(g, to) =>
      if Exists(s, g) && to in {Preparing, Shipped, Delivered} && to in AllowedTransitions(StatusOf(s.gifts[g]))
      then Move(s, g, to) else s
    case Unpublish(p, viewer) =>
      if MayUnpublish(s, p, viewer) then s.(posts := s.posts[p := s.posts[p].(published := false)]) else s
    case Next(c, ok) => if c in s.calls then NextStep(s, c, ok) else s
    case Die(c) => Rested(s, c)
  }

  function Run(events: seq<Event>): State {
    if events == [] then START else Apply(Run(events[..|events| - 1]), events[|events| - 1])
  }

  // ── Status histories are paths in the graph ───────────────────────

  predicate IsPath(trail: seq<GiftStatus>) {
    && trail != [] && trail[0] == PendingAddress
    && forall i :: 0 <= i < |trail| - 1 ==> trail[i + 1] in AllowedTransitions(trail[i])
  }

  lemma PathExtends(trail: seq<GiftStatus>, to: GiftStatus)
    requires IsPath(trail) && to in AllowedTransitions(trail[|trail| - 1])
    ensures IsPath(trail + [to])
  {
  }

  ghost predicate AllPaths(gifts: seq<Gift>) {
    forall g :: 0 <= g < |gifts| ==> IsPath(gifts[g].trail)
  }

  lemma MoveKeepsPaths(s: State, g: nat, to: GiftStatus)
    requires AllPaths(s.gifts) && g < |s.gifts|
    requires s.gifts[g].trail != [] && to in AllowedTransitions(StatusOf(s.gifts[g]))
    ensures AllPaths(Move(s, g, to).gifts)
  {
    PathExtends(s.gifts[g].trail, to);
  }

  lemma StepKeepsPaths(s: State, e: Event)
    requires AllPaths(s.gifts)
    ensures AllPaths(Apply(s, e).gifts)
  {
    hide IsPath;
    hide Posted;
    match e
    case ConfirmAddress(g, _, _, _) => if HasStatus(s, g, PendingAddress) { MoveKeepsPaths(s, g, AddressConfirmed); }
    case StoreMoves(g, to) =>
      if Exists(s, g) && to in AllowedTransitions(StatusOf(s.gifts[g])) { MoveKeepsPaths(s, g, to); }
    case Next(c, _) =>
      if c in s.calls {
        match s.calls[c] {
          case Promoting(g) =>
            if HasStatus(s, g, PendingAddress) { MoveKeepsPaths(s, g, DefaultAddressUsed); }
          case Cancelling(g) =>
            if Cancellable(s, g) { MoveKeepsPaths(s, g, Cancelled); }
          case _ =>
        }
      }
    case CreateGift(_, _, _, _) => StartIsAPath();
    case _ =>
  }

  lemma StartIsAPath()
    ensures IsPath([PendingAddress])
  {
  }

  // However confirming, sweeping, cancelling and the store's steps interleave,
  // each gift's history is a path from pending in the allowed graph.
  lemma {:induction false} HistoriesArePaths(events: seq<Event>)
    ensures AllPaths(Run(events).gifts)
  {
    hide Apply;
    hide IsPath;
    if events != [] {
      HistoriesArePaths(events[..|events| - 1]);
      StepKeepsPaths(Run(events[..|events| - 1]), events[|events| - 1]);
    }
  }

  // Delivered and cancelled are ends: nothing follows them in any history.
  lemma NothingFollowsTheEnd(events: seq<Event>, g: nat, i: nat)
    requires g < |Run(events).gifts| && i < |Run(events).gifts[g].trail|
    requires Run(events).gifts[g].trail[i] in {Delivered, Cancelled}
    ensures i == |Run(events).gifts[g].trail| - 1
  {
    hide Run;
    HistoriesArePaths(events);
    var trail := Run(events).gifts[g].trail;
    assert IsPath(trail);
    assert i < |trail| - 1 ==> trail[i + 1] in AllowedTransitions(trail[i]);
  }

  // ── Which step makes which move ───────────────────────────────────

  // The step moves the gift to this status.
  predicate Moves(s: State, e: Event, g: nat, to: GiftStatus)
    requires Exists(s, g)
  {
    var status := StatusOf(s.gifts[g]);
    match to
    case PendingAddress => false
    case AddressConfirmed =>
      status == PendingAddress && e == Event.ConfirmAddress(g, s.gifts[g].receiverId, true, true)
    case DefaultAddressUsed => status == PendingAddress && GoesOn(s, e, Promoting(g))
    case Preparing => (status == AddressConfirmed || status == DefaultAddressUsed) && e == StoreMoves(g, Preparing)
    case Shipped => status == Preparing && e == StoreMoves(g, Shipped)
    case Delivered => status == Shipped && e == StoreMoves(g, Delivered)
    case Cancelled =>
      && (status == PendingAddress || status == AddressConfirmed || status == DefaultAddressUsed)
      && GoesOn(s, e, Cancelling(g))
  }

  predicate GoesOn(s: State, e: Event, call: Call) {
    e.Next? && e.call in s.calls && s.calls[e.call] == call
  }

  lemma MoveIsMade(s: State, e: Event, g: nat, to: GiftStatus)
    requires Exists(s, g) && Moves(s, e, g, to)
    ensures Exists(Apply(s, e), g) && Apply(s, e).gifts[g] == s.gifts[g].(trail := s.gifts[g].trail + [to])
  {
    hide Posted;
    hide TakenDown;
    hide PostOf;
    hide Counted;
  }

  lemma NothingMoves(s: State, e: Event, g: nat)
    requires Exists(s, g) && forall to :: !Moves(s, e, g, to)
    ensures Exists(Apply(s, e), g) && Apply(s, e).gifts[g] == s.gifts[g]
  {
    hide Posted;
    hide TakenDown;
    hide PostOf;
    hide Moves;
    match e
    case ConfirmAddress(_, _, _, _) => WouldMove(s, e, g, AddressConfirmed);
    case StoreMoves(_, to) => WouldMove(s, e, g, to);
    case Next(_, _) =>
      WouldMove(s, e, g, DefaultAddressUsed);
      WouldMove(s, e, g, Cancelled);
    case _ =>
  }

  // A step that changes the gift's trail in any of the ways of the model is a move.
  lemma WouldMove(s: State, e: Event, g: nat, to: GiftStatus)
    requires Exists(s, g) && !Moves(s, e, g, to)
    ensures
      match e
      case ConfirmAddress(_, _, _, _) => to == AddressConfirmed ==> Apply(s, e).gifts == s.gifts || e.gift != g
      case StoreMoves(_, _) => to == e.to ==> Apply(s, e).gifts == s.gifts || e.gift != g
      case Next(c, _) =>
        && (to == DefaultAddressUsed && c in s.calls && s.calls[c] == Promoting(g) ==> !HasStatus(s, g, PendingAddress))
        && (to == Cancelled && c in s.calls && s.calls[c] == Cancelling(g) ==> !Cancellable(s, g))
      case _ => true
  {
  }

  // A gift gets a new status exactly by the step that is for it: its receiver's
  // confirmation of an own, covered address, the sweep's or a cancellation's flip,
  // or the store's next step.
  lemma MovesExactlyWhen(s: State, e: Event, g: nat, to: GiftStatus)
    requires Exists(s, g)
    ensures
      var after := Apply(s, e);
      && Exists(after, g)
      && (after.gifts[g].trail == s.gifts[g].trail + [to] <==> Moves(s, e, g, to))
      && ((forall other :: !Moves(s, e, g, other)) ==> after.gifts[g] == s.gifts[g])
  {
    hide Apply;
    hide Moves;
    if other :| Moves(s, e, g, other) {
      MoveIsMade(s, e, g, other);
      var trail := s.gifts[g].trail;
      assert (trail + [other])[|trail|] == other && (trail + [to])[|trail|] == to;
      if Moves(s, e, g, to) {
        MoveIsMade(s, e, g, to);
      }
    } else {
      NothingMoves(s, e, g);
    }
  }

  // A whole life, and what may be cut short: pending, one of the two ways to an
  // address, then the store's steps in order; or a cancellation before them.
  predicate IsLife(trail: seq<GiftStatus>) {
    || (exists way :: way in {AddressConfirmed, DefaultAddressUsed}
                      && trail <= [PendingAddress, way, Preparing, Shipped, Delivered] && trail != [])
    || trail == [PendingAddress, Cancelled]
    || trail == [PendingAddress, AddressConfirmed, Cancelled]
    || trail == [PendingAddress, DefaultAddressUsed, Cancelled]
  }

  lemma MovesLiveOn(s: State, e: Event, g: nat, to: GiftStatus)
    requires Exists(s, g) && IsLife(s.gifts[g].trail) && Moves(s, e, g, to)
    ensures IsLife(s.gifts[g].trail + [to])
  {
    var trail := s.gifts[g].trail;
    if way :| way in {AddressConfirmed, DefaultAddressUsed}
              && trail <= [PendingAddress, way, Preparing, Shipped, Delivered] && trail != []
    {
      var other := if |trail| == 1 && to == DefaultAddressUsed then DefaultAddressUsed
                   else if |trail| == 1 then AddressConfirmed else way;
      if to != Cancelled {
        assert trail + [to] <= [PendingAddress, other, Preparing, Shipped, Delivered];
      }
    }
  }

  // In every run each gift's history is such a life, as far as it has come.
  lemma {:induction false} EveryGiftHasALife(events: seq<Event>, g: nat)
    requires g < |Run(events).gifts|
    ensures IsLife(Run(events).gifts[g].trail)
  {
    hide Apply;
    hide IsLife;
    hide Moves;
    if events != [] {
      var n := |events| - 1;
      var s, e := Run(events[..n]), events[n];
      GiftsStay(s, e, g);
      if g < |s.gifts| {
        EveryGiftHasALife(events[..n], g);
        LivesExist(s.gifts[g].trail);
        if to :| Moves(s, e, g, to) {
          MoveIsMade(s, e, g, to);
          MovesLiveOn(s, e, g, to);
        } else {
          NothingMoves(s, e, g);
        }
      } else {
        Beginning();
      }
    }
  }

  lemma Beginning()
    ensures IsLife([PendingAddress])
  {
    assert [PendingAddress] <= [PendingAddress, AddressConfirmed, Preparing, Shipped, Delivered];
  }

  lemma LivesExist(trail: seq<GiftStatus>)
    requires IsLife(trail)
    ensures trail != []
  {
  }

  lemma GiftsStay(s: State, e: Event, g: nat)
    requires g < |Apply(s, e).gifts|
    ensures g < |s.gifts| || Apply(s, e).gifts[g].trail == [PendingAddress]
  {
    hide Posted;
    hide TakenDown;
    hide PostOf;
  }
}

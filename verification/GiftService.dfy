// The gift calls as the services run them, undisturbed: confirming, cancelling
// (src/gifts/gifts.service.ts), publishing (src/gift-posts/gift-posts.service.ts)
// and the sweep that falls back to a saved address
// (src/gifts/gifts-auto-default.service.ts).

module GiftService {
  import opened Wrappers
  import opened GiftLifecycle
  import opened GiftCancellation
  import opened GiftTakeDown

  // A saved address, the default one first, and whether the store delivers there.
  datatype Candidate = Candidate(addressId: nat, covered: bool)

  // What the sweep finds for one overdue gift; a look-up may throw.
  datatype Choice = NoAddress | OutOfCoverage | Use(addressId: nat) | Broken

  datatype SweepReport = SweepReport(promoted: nat, skipped: nat, blocked: nat)

  // The conditional flip of the sweep, for one overdue gift.
  function Promoted(s: State, g: nat, choice: Choice): State {
    if choice.Use? && HasStatus(s, g, PendingAddress) then Move(s, g, DefaultAddressUsed) else s
  }

  function PromotedAll(s: State, overdue: seq<nat>, choices: nat -> Choice): State {
    if overdue == [] then s
    else
      var n := |overdue| - 1;
      Promoted(PromotedAll(s, overdue[..n], choices), overdue[n], choices(overdue[n]))
  }

  // The steps of one cancel call with nobody else between them. Its two
  // best-effort writes succeed or fail.
  function CancelledWhole(s: State, c: nat, g: nat, viewer: nat, counted: bool, takenDown: bool): State {
    Apply(Apply(Apply(Apply(s, CancelReads(c, g, viewer)), Next(c, true)), Next(c, counted)), Next(c, takenDown))
  }

  // The steps of one publish call with nobody else between them.
  function PublishedWhole(s: State, c: nat, g: nat, viewer: nat): State {
    Apply(Apply(Apply(s, PublishReads(c, g, viewer)), Next(c, true)), Next(c, true))
  }

  predicate IsFirst(candidates: seq<Candidate>, coverageCounts: bool, k: nat)
    requires k < |candidates|
  {
    if coverageCounts then candidates[k].covered && forall i :: 0 <= i < k ==> !candidates[i].covered else k == 0
  }

  // Where coverage counts, the first saved address the store delivers to;
  // otherwise the first.
  method ChooseAddress(candidates: seq<Candidate>, coverageCounts: bool) returns (choice: Choice)
    ensures !choice.Broken?
    ensures choice.NoAddress? <==> candidates == []
    ensures choice.OutOfCoverage? <==>
      candidates != [] && coverageCounts && forall i :: 0 <= i < |candidates| ==> !candidates[i].covered
    ensures choice.Use? ==>
      exists k :: 0 <= k < |candidates| && candidates[k].addressId == choice.addressId
                  && IsFirst(candidates, coverageCounts, k)
  {
    if |candidates| == 0 {
      return NoAddress;
    }
    if !coverageCounts {
      return Use(candidates[0].addressId);
    }
    for i := 0 to |candidates|
      invariant forall k :: 0 <= k < i ==> !candidates[k].covered
    {
      if candidates[i].covered {
        return Use(candidates[i].addressId);
      }
    }
    choice := OutOfCoverage;
  }

  class GiftsService {
    var state: State

    constructor (state: State)
      ensures this.state == state
    {
      this.state := state;
    }

    // The receiver names one of their addresses, or leaves it to their default one.
    method ConfirmAddress(g: nat, viewer: nat, named: bool, addressOwned: bool, covered: bool)
      returns (r: Result<GiftStatus>)
      modifies this
      ensures state == Apply(old(state), Event.ConfirmAddress(g, viewer, addressOwned, covered))
      ensures r.Success? ==> HasStatus(state, g, r.value)
      ensures r.Failure? ==> state == old(state)
      ensures !Exists(old(state), g) <==> r == Failure("Gift not found")
      ensures r == Failure("forbidden") <==> Exists(old(state), g) && old(state).gifts[g].receiverId != viewer
      ensures HasStatus(old(state), g, PendingAddress) && old(state).gifts[g].receiverId == viewer ==>
        r == if !addressOwned then Failure(if named then "address_not_owned" else "no_default_address")
             else if !covered then Failure("address_unsupported_for_store")
             else Success(AddressConfirmed)
    {
      if !(g < |state.gifts| && |state.gifts[g].trail| > 0) {
        return Failure("Gift not found");
      }
      var gift := state.gifts[g];
      if gift.receiverId != viewer {
        return Failure("forbidden");
      }
      if StatusOf(gift) != PendingAddress {
        return Success(StatusOf(gift));
      }
      if !addressOwned {
        return Failure(if named then "address_not_owned" else "no_default_address");
      }
      if !covered {
        return Failure("address_unsupported_for_store");
      }
      state := state.(gifts := state.gifts[g := gift.(trail := gift.trail + [AddressConfirmed])]);
      r := Success(AddressConfirmed);
    }

    method Cancel(c: nat, g: nat, viewer: nat, counted: bool, takenDown: bool) returns (r: Result<GiftStatus>)
      requires c !in state.calls
      modifies this
      ensures state == CancelledWhole(old(state), c, g, viewer, counted, takenDown)
      ensures r.Success? ==> r.value == Cancelled && HasStatus(state, g, Cancelled)
      ensures r.Failure? ==> state == old(state)
      ensures r == Failure("Gift not found") <==> !Exists(old(state), g)
      ensures r == Failure("forbidden") <==> Exists(old(state), g) && old(state).gifts[g].senderId != viewer
      ensures r == Failure("not_cancellable") <==>
        && Exists(old(state), g) && old(state).gifts[g].senderId == viewer
        && StatusOf(old(state).gifts[g]) in {Preparing, Shipped, Delivered}
      ensures r.Failure? ==> r.error in {"Gift not found", "forbidden", "not_cancellable"}
    {
      ghost var before := state;
      if !(g < |state.gifts| && |state.gifts[g].trail| > 0) {
        NothingStarts(before, c, g, viewer, counted, takenDown);
        return Failure("Gift not found");
      }
      var gift := state.gifts[g];
      if gift.senderId != viewer {
        NothingStarts(before, c, g, viewer, counted, takenDown);
        return Failure("forbidden");
      }
      if StatusOf(gift) == Cancelled {
        NothingStarts(before, c, g, viewer, counted, takenDown);
        return Success(Cancelled);
      }
      if StatusOf(gift) !in CANCELLABLE {
        NothingStarts(before, c, g, viewer, counted, takenDown);
        return Failure("not_cancellable");
      }
      state := Move(state, g, Cancelled);
      if gift.productId.Some? && counted {
        var product := gift.productId.value;
        state := state.(giftedBy := state.giftedBy[product := Count(state, product) - 1]);
      }
      if takenDown {
        state := state.(posts := TakenDown(state.posts, g));
      }
      CancelGoesThrough(before, c, g, viewer, counted, takenDown);
      r := Success(Cancelled);
    }

    method Publish(c: nat, g: nat, viewer: nat) returns (r: Result<bool>)
      requires c !in state.calls
      modifies this
      ensures state == PublishedWhole(old(state), c, g, viewer)
      ensures r.Success? <==> MayPublish(old(state), g, viewer)
      ensures r.Failure? ==> state == old(state)
      ensures r.Success? ==>
        exists p: nat :: IsPostOf(state, p, g, viewer) && state.posts[p].published
    {
      ghost var before := state;
      if !(g < |state.gifts| && |state.gifts[g].trail| > 0) {
        return Failure("Gift not found");
      }
      var gift := state.gifts[g];
      if viewer != gift.senderId && viewer != gift.receiverId {
        return Failure("forbidden");
      }
      if StatusOf(gift) == Cancelled {
        return Failure("gift_cancelled");
      }
      var existing := PostOf(state.posts, g, viewer);
      PublishGoesThrough(before, c, g, viewer);
      if existing.Some? {
        var p := existing.value;
        if !state.posts[p].published {
          state := state.(posts := state.posts[p := state.posts[p].(published := true, deactivated := false)]);
        }
        assert IsPostOf(state, p, g, viewer);
      } else {
        state := state.(posts := state.posts + [Post(g, viewer, true, false)]);
        assert IsPostOf(state, |before.posts|, g, viewer);
      }
      r := Success(true);
    }

    // The loop over the overdue gifts; one the receiver or the sender has moved
    // meanwhile is skipped, and so is one whose row throws.
    method RunOnce(overdue: seq<nat>, choices: nat -> Choice) returns (report: SweepReport)
      modifies this
      ensures state == PromotedAll(old(state), overdue, choices)
      ensures report.promoted + report.skipped + report.blocked == |overdue|
      ensures report.blocked == |BlockedIn(overdue, choices)|
      ensures report.promoted == Promotions(old(state), overdue, choices)
    {
      hide Promoted;
      report := SweepReport(0, 0, 0);
      for i := 0 to |overdue|
        invariant state == PromotedAll(old(state), overdue[..i], choices)
        invariant report.promoted + report.skipped + report.blocked == i
        invariant report.blocked == |BlockedIn(overdue[..i], choices)|
        invariant report.promoted == Promotions(old(state), overdue[..i], choices)
      {
        assert overdue[..i + 1][..i] == overdue[..i];
        var flipped := PromoteOne(overdue[i], choices(overdue[i]));
        if choices(overdue[i]).OutOfCoverage? {
          report := report.(blocked := report.blocked + 1);
        } else if flipped {
          report := report.(promoted := report.promoted + 1);
        } else {
          report := report.(skipped := report.skipped + 1);
        }
      }
      assert overdue[..|overdue|] == overdue;
    }

    method PromoteOne(g: nat, choice: Choice) returns (flipped: bool)
      modifies this
      ensures state == Promoted(old(state), g, choice)
      ensures flipped == (choice.Use? && HasStatus(old(state), g, PendingAddress))
    {
      flipped := choice.Use? && HasStatus(state, g, PendingAddress);
      if flipped {
        state := Move(state, g, DefaultAddressUsed);
      }
    }
  }

  function BlockedIn(overdue: seq<nat>, choices: nat -> Choice): seq<nat> {
    if overdue == [] then []
    else
      var n := |overdue| - 1;
      BlockedIn(overdue[..n], choices) + if choices(overdue[n]).OutOfCoverage? then [overdue[n]] else []
  }

  function Promotions(s: State, overdue: seq<nat>, choices: nat -> Choice): nat {
    if overdue == [] then 0
    else
      var n := |overdue| - 1;
      Promotions(s, overdue[..n], choices) +
        if choices(overdue[n]).Use? && HasStatus(PromotedAll(s, overdue[..n], choices), overdue[n], PendingAddress)
        then 1 else 0
  }

  // ── What a whole sweep does ───────────────────────────────────────

  // A sweep moves exactly the overdue gifts that are still pending and have an
  // address to use, and touches nothing else.
  lemma {:induction false} SweepMovesExactly(s: State, overdue: seq<nat>, choices: nat -> Choice, g: nat)
    requires g < |s.gifts|
    ensures
      var after := PromotedAll(s, overdue, choices);
      && |after.gifts| == |s.gifts| && after.posts == s.posts && after.giftedBy == s.giftedBy
      && after.gifts[g] ==
           if g in overdue && choices(g).Use? && HasStatus(s, g, PendingAddress)
           then Move(s, g, DefaultAddressUsed).gifts[g] else s.gifts[g]
  {
    if overdue != [] {
      var n := |overdue| - 1;
      SweepMovesExactly(s, overdue[..n], choices, g);
      assert overdue == overdue[..n] + [overdue[n]];
    }
  }

  // The sweep's flip is the protocol's: the choice, then the conditional write.
  lemma PromotedIsTwoSteps(s: State, c: nat, g: nat, choice: Choice)
    requires c !in s.calls && choice.Use?
    ensures Promoted(s, g, choice) == Apply(Apply(s, SweepChooses(c, g)), Next(c, true))
  {
    assert s.calls[c := Promoting(g)] - {c} == s.calls;
  }

  // ── Whole calls ───────────────────────────────────────────────────

  lemma NothingStarts(s: State, c: nat, g: nat, viewer: nat, counted: bool, takenDown: bool)
    requires c !in s.calls && !(Cancellable(s, g) && s.gifts[g].senderId == viewer)
    ensures CancelledWhole(s, c, g, viewer, counted, takenDown) == s
  {
  }

  lemma CancelGoesThrough(s: State, c: nat, g: nat, viewer: nat, counted: bool, takenDown: bool)
    requires c !in s.calls && Cancellable(s, g) && s.gifts[g].senderId == viewer
    ensures
      var moved := Move(s, g, Cancelled);
      var after := if counted then Counted(moved, g, -1) else moved;
      CancelledWhole(s, c, g, viewer, counted, takenDown) ==
      if takenDown then after.(posts := TakenDown(s.posts, g)) else after
  {
    hide TakenDown;
    var read := Apply(s, CancelReads(c, g, viewer));
    assert read.calls - {c} == s.calls && read.(calls := s.calls) == s;
    var flipped := Apply(read, Next(c, true));
    var lowered := Apply(flipped, Next(c, counted));
    assert lowered.calls - {c} == s.calls;
  }

  lemma PublishGoesThrough(s: State, c: nat, g: nat, viewer: nat)
    requires c !in s.calls && MayPublish(s, g, viewer)
    ensures
      var existing := PostOf(s.posts, g, viewer);
      PublishedWhole(s, c, g, viewer) ==
      if existing.Some? && s.posts[existing.value].published then s
      else s.(posts := Posted(s.posts, g, viewer, existing))
  {
    hide Posted;
    var read := Apply(s, PublishReads(c, g, viewer));
    assert read.calls - {c} == s.calls;
    var looked := Apply(read, Next(c, true));
    assert looked.calls - {c} == s.calls;
  }

  // A whole cancellation counts the gift out once if that write succeeds, and
  // leaves it no live post if the take-down does.
  lemma CancelSettlesTheGift(s: State, c: nat, g: nat, viewer: nat, counted: bool, takenDown: bool, product: nat)
    requires c !in s.calls && Cancellable(s, g) && s.gifts[g].senderId == viewer
    ensures
      var after := CancelledWhole(s, c, g, viewer, counted, takenDown);
      && HasStatus(after, g, Cancelled) && after.calls == s.calls
      && Count(after, product) == Count(s, product) - Once(counted && IsOf(s.gifts, g, product))
      && (takenDown ==> forall p :: 0 <= p < |after.posts| && after.posts[p].giftId == g ==> !LivePost(after.posts[p]))
      && (!takenDown ==> after.posts == s.posts)
  {
    hide Apply;
    CancelGoesThrough(s, c, g, viewer, counted, takenDown);
  }
}

// What cancelling a gift promises (cancel in src/gifts/gifts.service.ts): of any
// number of racing calls only the one whose flip changed the row goes on, so a
// gift is counted out and its posts are taken down at most once, and the counter
// of a product accounts for its gifts.

module GiftCancellation {
  import opened Wrappers
  import opened GiftLifecycle

  // What a step of a call does about a gift.
  datatype Deed = Raised | RaiseLost | Flipped | Lowered | LoweringLost | TookDown | TakeDownLost

  predicate Does(deed: Deed, g: nat, s: State, e: Event) {
    && (e.Next? || e.Die?) && e.call in s.calls
    && var call, made, failed := s.calls[e.call], e.Next? && e.ok, e.Die? || !e.ok;
    match deed
    case Raised => call == Raising(g) && made
    case RaiseLost => call == Raising(g) && failed
    case Flipped => call == Cancelling(g) && e.Next? && Cancellable(s, g)
    case Lowered => call == Lowering(g) && made
    case LoweringLost => call == Lowering(g) && failed
    case TookDown => call == TakingDown(g) && made
    case TakeDownLost => (call == TakingDown(g) && failed) || (call == Lowering(g) && e.Die?)
  }

  function Once(b: bool): nat {
    if b then 1 else 0
  }

  // How often a run does a deed about a gift.
  function Times(deed: Deed, g: nat, events: seq<Event>): nat {
    if events == [] then 0
    else
      var n := |events| - 1;
      Times(deed, g, events[..n]) + Once(Does(deed, g, Run(events[..n]), events[n]))
  }

  // The calls in flight that are about to make a given database call.
  function Calls(s: State, call: Call): set<nat> {
    set c | c in s.calls && s.calls[c] == call
  }

  predicate At(s: State, c: nat, call: Call) {
    c in s.calls && s.calls[c] == call
  }

  // Only the call with this id may have moved.
  predicate SameOtherCalls(s: State, after: State, c: nat) {
    s.calls - {c} == after.calls - {c}
  }

  lemma CallsWithout(s: State, c: nat, call: Call)
    ensures |Calls(s, call)| == |Calls(Rested(s, c), call)| + Once(At(s, c, call))
  {
    var rest := Calls(Rested(s, c), call);
    if At(s, c, call) {
      assert Calls(s, call) == rest + {c};
    } else {
      assert Calls(s, call) == rest;
    }
  }

  lemma OneCallMoves(s: State, after: State, c: nat, call: Call)
    requires SameOtherCalls(s, after, c)
    ensures |Calls(after, call)| + Once(At(s, c, call)) == |Calls(s, call)| + Once(At(after, c, call))
  {
    CallsWithout(s, c, call);
    CallsWithout(after, c, call);
    assert Calls(Rested(s, c), call) == Calls(Rested(after, c), call);
  }

  // A step moves at most the call it names.
  lemma StepMovesItsCall(s: State, e: Event)
    ensures e.ConfirmAddress? || e.StoreMoves? || e.Unpublish? ==> Apply(s, e).calls == s.calls
    ensures !(e.ConfirmAddress? || e.StoreMoves? || e.Unpublish?) ==> SameOtherCalls(s, Apply(s, e), e.call)
  {
    hide Posted;
    hide TakenDown;
    hide PostOf;
  }

  lemma SameCalls(s: State, after: State, call: Call)
    requires after.calls == s.calls
    ensures Calls(after, call) == Calls(s, call)
  {
  }

  // ── One winner ────────────────────────────────────────────────────

  lemma StepFlips(s: State, e: Event, g: nat)
    ensures Once(HasStatus(Apply(s, e), g, Cancelled)) <= Once(HasStatus(s, g, Cancelled)) + Once(Does(Flipped, g, s, e))
    ensures HasStatus(s, g, Cancelled) ==> HasStatus(Apply(s, e), g, Cancelled) && !Does(Flipped, g, s, e)
    ensures Does(Flipped, g, s, e) ==> HasStatus(Apply(s, e), g, Cancelled)
  {
    hide Posted;
    hide TakenDown;
  }

  // However many calls cancel a gift, exactly one flip changes its row, and none
  // does as long as it is not cancelled.
  lemma {:induction false} OneCallWins(events: seq<Event>, g: nat)
    ensures Times(Flipped, g, events) == Once(HasStatus(Run(events), g, Cancelled))
  {
    hide Apply;
    hide Does;
    if events != [] {
      OneCallWins(events[..|events| - 1], g);
      StepFlips(Run(events[..|events| - 1]), events[|events| - 1], g);
    }
  }

  lemma OtherEventsDoNothing(s: State, e: Event, g: nat)
    requires !e.Next? && !e.Die?
    ensures forall deed :: !Does(deed, g, s, e)
  {
  }

  lemma TheWinnersCall(s: State, e: Event, g: nat)
    requires !(e.ConfirmAddress? || e.StoreMoves? || e.Unpublish?)
    ensures
      var after := Apply(s, e);
      && Once(At(after, e.call, Lowering(g))) + Once(Does(Lowered, g, s, e)) + Once(Does(LoweringLost, g, s, e)) ==
         Once(At(s, e.call, Lowering(g))) + Once(Does(Flipped, g, s, e))
      && Once(At(after, e.call, Lowering(g))) + Once(At(after, e.call, TakingDown(g)))
           + Once(Does(TookDown, g, s, e)) + Once(Does(TakeDownLost, g, s, e)) ==
         Once(At(s, e.call, Lowering(g))) + Once(At(s, e.call, TakingDown(g))) + Once(Does(Flipped, g, s, e))
  {
    hide Posted;
    hide TakenDown;
    hide PostOf;
    hide Counted;
    hide Move;
    hide HasStatus;
  }

  lemma StepOfTheWinner(s: State, e: Event, g: nat)
    ensures
      var after := Apply(s, e);
      && |Calls(after, Lowering(g))| + Once(Does(Lowered, g, s, e)) + Once(Does(LoweringLost, g, s, e)) ==
         |Calls(s, Lowering(g))| + Once(Does(Flipped, g, s, e))
      && |Calls(after, Lowering(g))| + |Calls(after, TakingDown(g))|
           + Once(Does(TookDown, g, s, e)) + Once(Does(TakeDownLost, g, s, e)) ==
         |Calls(s, Lowering(g))| + |Calls(s, TakingDown(g))| + Once(Does(Flipped, g, s, e))
  {
    hide Apply;
    hide Does;
    hide Calls;
    hide At;
    var after := Apply(s, e);
    StepMovesItsCall(s, e);
    if e.ConfirmAddress? || e.StoreMoves? || e.Unpublish? {
      SameCalls(s, after, Lowering(g));
      SameCalls(s, after, TakingDown(g));
      OtherEventsDoNothing(s, e, g);
    } else {
      OneCallMoves(s, after, e.call, Lowering(g));
      OneCallMoves(s, after, e.call, TakingDown(g));
      TheWinnersCall(s, e, g);
    }
  }

  // The winner, and nobody else, goes on to the counter and then to the posts:
  // what it has not done yet it is about to do, or it failed or died.
  lemma {:induction false} TheWinnerGoesOn(events: seq<Event>, g: nat)
    ensures
      var s := Run(events);
      && |Calls(s, Lowering(g))| + Times(Lowered, g, events) + Times(LoweringLost, g, events) ==
         Times(Flipped, g, events)
      && |Calls(s, Lowering(g))| + |Calls(s, TakingDown(g))| + Times(TookDown, g, events)
           + Times(TakeDownLost, g, events) == Times(Flipped, g, events)
  {
    hide Apply;
    hide Does;
    hide Calls;
    if events == [] {
      NobodyAtTheStart(Lowering(g));
      NobodyAtTheStart(TakingDown(g));
    } else {
      TheWinnerGoesOn(events[..|events| - 1], g);
      StepOfTheWinner(Run(events[..|events| - 1]), events[|events| - 1], g);
    }
  }

  lemma NobodyAtTheStart(call: Call)
    ensures Calls(START, call) == {}
  {
  }

  // A gift is counted out and its posts are taken down at most once, and exactly
  // one call past the flip, done, failed or on its way, stands behind a cancelled
  // gift.
  lemma CancelledOnce(events: seq<Event>, g: nat)
    ensures
      var s := Run(events);
      && Times(Lowered, g, events) <= 1 && Times(TookDown, g, events) <= 1
      && |Calls(s, Lowering(g))| + |Calls(s, TakingDown(g))| <= 1
      && |Calls(s, Lowering(g))| + |Calls(s, TakingDown(g))| + Times(TookDown, g, events)
           + Times(TakeDownLost, g, events) == Once(HasStatus(s, g, Cancelled))
  {
    OneCallWins(events, g);
    TheWinnerGoesOn(events, g);
  }

  lemma {:induction false} TimesGrow(deed: Deed, g: nat, events: seq<Event>, i: nat)
    requires i <= |events|
    ensures Times(deed, g, events[..i]) <= Times(deed, g, events)
    decreases |events|
  {
    if i < |events| {
      var n := |events| - 1;
      assert events[..n][..i] == events[..i];
      TimesGrow(deed, g, events[..n], i);
    } else {
      assert events[..i] == events;
    }
  }

  predicate DoesAt(deed: Deed, g: nat, events: seq<Event>, i: nat) {
    i < |events| && Does(deed, g, Run(events[..i]), events[i])
  }

  lemma DoneAt(deed: Deed, g: nat, events: seq<Event>, i: nat)
    requires DoesAt(deed, g, events, i)
    ensures Times(deed, g, events[..i + 1]) == Times(deed, g, events[..i]) + 1
  {
    assert events[..i + 1][..i] == events[..i];
  }

  // Two different steps of a run never both flip a gift, lower the counter for
  // it, or take its posts down.
  lemma AtMostOneStep(deed: Deed, g: nat, events: seq<Event>, i: nat, j: nat)
    requires deed in {Flipped, Lowered, TookDown} && DoesAt(deed, g, events, i) && DoesAt(deed, g, events, j)
    ensures i == j
  {
    hide Does;
    var low, high := if i < j then i else j, if i < j then j else i;
    if low < high {
      DoneAt(deed, g, events, low);
      DoneAt(deed, g, events, high);
      assert events[..high][..low + 1] == events[..low + 1];
      TimesGrow(deed, g, events[..high], low + 1);
      TimesGrow(deed, g, events, high + 1);
      OneCallWins(events, g);
      CancelledOnce(events, g);
    }
  }

  // Once cancelled, always cancelled.
  lemma CancelledStays(events: seq<Event>, i: nat, g: nat)
    requires i <= |events| && HasStatus(Run(events[..i]), g, Cancelled)
    ensures HasStatus(Run(events), g, Cancelled)
  {
    OneCallWins(events[..i], g);
    OneCallWins(events, g);
    TimesGrow(Flipped, g, events, i);
  }

  // ── The counter ───────────────────────────────────────────────────

  lemma TheCreatorsCall(s: State, e: Event, g: nat)
    ensures
      var after := Apply(s, e);
      if e.ConfirmAddress? || e.StoreMoves? || e.Unpublish? then |after.gifts| == |s.gifts|
      else
        Once(At(after, e.call, Raising(g))) + Once(Does(Raised, g, s, e)) + Once(Does(RaiseLost, g, s, e)) ==
        Once(At(s, e.call, Raising(g))) + Once(|s.gifts| <= g < |after.gifts|)
  {
    hide Posted;
    hide TakenDown;
    hide PostOf;
  }

  lemma StepOfTheCreator(s: State, e: Event, g: nat)
    ensures
      var after := Apply(s, e);
      && |s.gifts| <= |after.gifts|
      && |Calls(after, Raising(g))| + Once(Does(Raised, g, s, e)) + Once(Does(RaiseLost, g, s, e)) ==
         |Calls(s, Raising(g))| + Once(|s.gifts| <= g < |after.gifts|)
  {
    hide Apply;
    hide Does;
    hide Calls;
    hide At;
    var after := Apply(s, e);
    StepMovesItsCall(s, e);
    StepKeepsProducts(s, e);
    TheCreatorsCall(s, e, g);
    if e.ConfirmAddress? || e.StoreMoves? || e.Unpublish? {
      SameCalls(s, after, Raising(g));
      OtherEventsDoNothing(s, e, g);
    } else {
      OneCallMoves(s, after, e.call, Raising(g));
    }
  }

  // Each gift is counted in by the call that created it, once: it has done so, is
  // about to, or failed or died.
  lemma {:induction false} TheCreatorCounts(events: seq<Event>, g: nat)
    ensures
      |Calls(Run(events), Raising(g))| + Times(Raised, g, events) + Times(RaiseLost, g, events) ==
      Once(g < |Run(events).gifts|)
  {
    hide Apply;
    hide Does;
    hide Calls;
    if events == [] {
      NobodyAtTheStart(Raising(g));
    } else {
      TheCreatorCounts(events[..|events| - 1], g);
      StepOfTheCreator(Run(events[..|events| - 1]), events[|events| - 1], g);
    }
  }

  predicate IsOf(gifts: seq<Gift>, g: nat, product: nat) {
    g < |gifts| && gifts[g].productId == Some(product)
  }

  // The gifts of a product that are not cancelled, among the first n.
  function NotCancelled(s: State, product: nat, n: nat): nat {
    if n == 0 then 0
    else
      var last := Once(IsOf(s.gifts, n - 1, product) && !HasStatus(s, n - 1, Cancelled));
      NotCancelled(s, product, n - 1) + last
  }

  // How much a gift's counter writes that are outstanding, failed or were never
  // reached still owe: an uncounted creation is one too few, an uncounted
  // cancellation one too many.
  function Owed(events: seq<Event>, g: nat): int {
    var s := Run(events);
    |Calls(s, Lowering(g))| + Times(LoweringLost, g, events)
      - |Calls(s, Raising(g))| - Times(RaiseLost, g, events)
  }

  function OwedBy(events: seq<Event>, product: nat, n: nat): int {
    if n == 0 then 0
    else
      var last := if IsOf(Run(events).gifts, n - 1, product) then Owed(events, n - 1) else 0;
      OwedBy(events, product, n - 1) + last
  }

  // Counter writes made for the first n gifts of a product.
  function Made(events: seq<Event>, product: nat, n: nat): int {
    if n == 0 then 0
    else
      var last := if IsOf(Run(events).gifts, n - 1, product)
                  then Times(Raised, n - 1, events) - Times(Lowered, n - 1, events) else 0;
      Made(events, product, n - 1) + last
  }

  // What one step adds to the writes made for the first n gifts.
  function MadeBy(s: State, e: Event, product: nat, n: nat): int {
    if n == 0 then 0
    else
      var last := if IsOf(s.gifts, n - 1, product)
                  then Once(Does(Raised, n - 1, s, e)) - Once(Does(Lowered, n - 1, s, e)) else 0;
      MadeBy(s, e, product, n - 1) + last
  }

  predicate Counts(s: State, e: Event) {
    e.Next? && e.ok && e.call in s.calls && (s.calls[e.call].Raising? || s.calls[e.call].Lowering?)
  }

  lemma {:induction false} MadeByOneGift(s: State, e: Event, product: nat, n: nat)
    ensures MadeBy(s, e, product, n) ==
      if Counts(s, e) && s.calls[e.call].gift < n && IsOf(s.gifts, s.calls[e.call].gift, product)
      then (if s.calls[e.call].Raising? then 1 else -1) else 0
  {
    if n > 0 {
      MadeByOneGift(s, e, product, n - 1);
    }
  }

  lemma StepCounts(s: State, e: Event, product: nat)
    ensures Count(Apply(s, e), product) == Count(s, product) + MadeBy(s, e, product, |s.gifts|)
  {
    hide Posted;
    hide TakenDown;
    hide PostOf;
    hide MadeBy;
    MadeByOneGift(s, e, product, |s.gifts|);
  }

  lemma StepKeepsProducts(s: State, e: Event)
    ensures |s.gifts| <= |Apply(s, e).gifts|
    ensures forall g: nat, product :: g < |s.gifts| ==> (IsOf(Apply(s, e).gifts, g, product) <==> IsOf(s.gifts, g, product))
  {
    hide Posted;
    hide TakenDown;
    hide PostOf;
  }

  // One step changes the writes made so far by what it makes itself.
  lemma {:induction false} MadeAfterStep(events: seq<Event>, product: nat, n: nat)
    requires events != []
    requires n <= |Run(events[..|events| - 1]).gifts|
    ensures
      var before := events[..|events| - 1];
      Made(events, product, n) ==
        Made(before, product, n) + MadeBy(Run(before), events[|events| - 1], product, n)
  {
    hide Apply;
    hide Does;
    if n > 0 {
      MadeAfterStep(events, product, n - 1);
      StepKeepsProducts(Run(events[..|events| - 1]), events[|events| - 1]);
    }
  }

  // Nothing has been counted yet for gifts that do not exist.
  lemma {:induction false} NothingMadeBeyond(events: seq<Event>, product: nat, n: nat, k: nat)
    requires n <= k && forall g :: n <= g < k ==> Times(Raised, g, events) == 0 && Times(Lowered, g, events) == 0
    ensures Made(events, product, k) == Made(events, product, n)
  {
    hide Run;
    if n < k {
      NothingMadeBeyond(events, product, n, k - 1);
    }
  }

  lemma NewGiftsAreUncounted(events: seq<Event>, g: nat)
    requires events != [] && |Run(events[..|events| - 1]).gifts| <= g
    ensures Times(Raised, g, events) == 0 && Times(Lowered, g, events) == 0
  {
    hide Run;
    hide Does;
    var n := |events| - 1;
    TheCreatorCounts(events[..n], g);
    TheWinnerGoesOn(events[..n], g);
    OneCallWins(events[..n], g);
    NoStepAboutIt(Run(events[..n]), events[n], g);
  }

  lemma NoStepAboutIt(s: State, e: Event, g: nat)
    requires |Calls(s, Raising(g))| == 0 && |Calls(s, Lowering(g))| == 0
    ensures !Does(Raised, g, s, e) && !Does(Lowered, g, s, e)
  {
    assert Calls(s, Raising(g)) == {} && Calls(s, Lowering(g)) == {};
    assert forall c :: c in s.calls && s.calls[c] == Raising(g) ==> c in Calls(s, Raising(g));
    assert forall c :: c in s.calls && s.calls[c] == Lowering(g) ==> c in Calls(s, Lowering(g));
  }

  // The stored counter is the counter writes made, whoever raced.
  lemma {:induction false} CounterIsTheWritesMade(events: seq<Event>, product: nat)
    ensures Count(Run(events), product) == Made(events, product, |Run(events).gifts|)
  {
    hide Apply;
    hide Does;
    hide Made;
    hide MadeBy;
    if events == [] {
      NothingMadeBeyond(events, product, 0, 0);
      NothingMade(events, product);
    } else {
      var n := |events| - 1;
      var before, e := events[..n], events[n];
      var had, has := |Run(before).gifts|, |Run(events).gifts|;
      CounterIsTheWritesMade(before, product);
      StepCounts(Run(before), e, product);
      StepKeepsProducts(Run(before), e);
      MadeAfterStep(events, product, had);
      forall g | had <= g < has ensures Times(Raised, g, events) == 0 && Times(Lowered, g, events) == 0 {
        NewGiftsAreUncounted(events, g);
      }
      NothingMadeBeyond(events, product, had, has);
    }
  }

  lemma NothingMade(events: seq<Event>, product: nat)
    ensures Made(events, product, 0) == 0
  {
  }

  lemma {:induction false} MadeBalances(events: seq<Event>, product: nat, n: nat)
    requires n <= |Run(events).gifts|
    ensures Made(events, product, n) == NotCancelled(Run(events), product, n) + OwedBy(events, product, n)
  {
    hide Run;
    hide Times;
    if n > 0 {
      MadeBalances(events, product, n - 1);
      TheCreatorCounts(events, n - 1);
      TheWinnerGoesOn(events, n - 1);
      OneCallWins(events, n - 1);
    }
  }

  // In every reachable state a product's counter is the number of its gifts that
  // are not cancelled, plus what its gifts' counter writes still owe.
  lemma CounterBalances(events: seq<Event>, product: nat)
    ensures
      var s := Run(events);
      Count(s, product) == NotCancelled(s, product, |s.gifts|) + OwedBy(events, product, |s.gifts|)
  {
    hide Run;
    CounterIsTheWritesMade(events, product);
    MadeBalances(events, product, |Run(events).gifts|);
  }

  // No counter write of a product is outstanding and none was lost.
  predicate Settled(events: seq<Event>, product: nat) {
    var s := Run(events);
    forall g :: 0 <= g < |s.gifts| && IsOf(s.gifts, g, product) ==>
      && Calls(s, Raising(g)) == {} && Calls(s, Lowering(g)) == {}
      && Times(RaiseLost, g, events) == 0 && Times(LoweringLost, g, events) == 0
  }

  lemma {:induction false} NothingOwed(events: seq<Event>, product: nat, n: nat)
    requires Settled(events, product) && n <= |Run(events).gifts|
    ensures OwedBy(events, product, n) == 0
  {
    hide Run;
    hide Times;
    hide Calls;
    if n > 0 {
      NothingOwed(events, product, n - 1);
    }
  }

  // When the counter writes that were due have been made, a product's counter is
  // the number of its gifts that are not cancelled.
  lemma CounterCountsLiveGifts(events: seq<Event>, product: nat)
    requires Settled(events, product)
    ensures Count(Run(events), product) == NotCancelled(Run(events), product, |Run(events).gifts|)
  {
    hide Run;
    CounterBalances(events, product);
    NothingOwed(events, product, |Run(events).gifts|);
  }
}

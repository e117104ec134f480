// When a post about a gift is live (publish and unpublish in
// src/gift-posts/gift-posts.service.ts against the post cascade of cancel in
// src/gifts/gifts.service.ts). A cancelled gift is not supposed to have a live
// post. It can: here is exactly when.

module GiftTakeDown {
  import opened Wrappers
  import opened GiftLifecycle
  import opened GiftCancellation

  // The post exists and is live.
  predicate IsLive(s: State, p: nat) {
    p < |s.posts| && LivePost(s.posts[p])
  }

  // The step is the write of a publish call, and it surfaces this post: it
  // creates it, or publishes it again.
  predicate Surfaces(s: State, e: Event, p: nat) {
    && e.Next? && e.call in s.calls && s.calls[e.call].Posting?
    && var call := s.calls[e.call];
    if call.existing.Some? then call.existing == Some(p) && p < |s.posts|
    else p == |s.posts| && PostOf(s.posts, call.gift, call.owner).None?
  }

  // The step unpublishes this post.
  predicate Withdraws(s: State, e: Event, p: nat) {
    e.Unpublish? && e.post == p && MayUnpublish(s, p, e.viewer)
  }

  // The step unpublishes this post or takes its gift's posts down.
  predicate Hides(s: State, e: Event, p: nat) {
    p < |s.posts| && (Withdraws(s, e, p) || Does(TookDown, s.posts[p].giftId, s, e))
  }

  // ── One post over one step ────────────────────────────────────────

  lemma SurfacedIsLive(posts: seq<Post>, g: nat, owner: nat, existing: Option<nat>, p: nat)
    ensures
      var after := Posted(posts, g, owner, existing);
      && |posts| <= |after|
      && (p < |after| && LivePost(after[p]) <==>
          || (p < |posts| && LivePost(posts[p]))
          || (if existing.Some? then existing == Some(p) && p < |posts|
              else p == |posts| && PostOf(posts, g, owner).None?))
  {
  }

  lemma StepOfAPost(s: State, e: Event, p: nat)
    ensures IsLive(Apply(s, e), p) <==> Surfaces(s, e, p) || (IsLive(s, p) && !Hides(s, e, p))
  {
    hide Posted;
    if e.Next? && e.call in s.calls && s.calls[e.call].Posting? {
      var call := s.calls[e.call];
      SurfacedIsLive(s.posts, call.gift, call.owner, call.existing, p);
    }
  }

  predicate SurfacesAt(events: seq<Event>, k: nat, p: nat) {
    k < |events| && Surfaces(Run(events[..k]), events[k], p)
  }

  predicate HidesAt(events: seq<Event>, k: nat, p: nat) {
    k < |events| && Hides(Run(events[..k]), events[k], p)
  }

  predicate WithdrawsAt(events: seq<Event>, k: nat, p: nat) {
    k < |events| && Withdraws(Run(events[..k]), events[k], p)
  }

  // Event k surfaced the post and nothing has hidden it since.
  predicate SurfacedForGood(events: seq<Event>, k: nat, p: nat) {
    SurfacesAt(events, k, p) && forall m :: k < m < |events| ==> !HidesAt(events, m, p)
  }

  lemma PrefixAgrees(events: seq<Event>, n: nat, k: nat, p: nat)
    requires k < n <= |events|
    ensures SurfacesAt(events[..n], k, p) <==> SurfacesAt(events, k, p)
    ensures HidesAt(events[..n], k, p) <==> HidesAt(events, k, p)
  {
    assert events[..n][..k] == events[..k];
  }

  lemma ForGoodOneStepLater(events: seq<Event>, k: nat, p: nat)
    requires events != [] && k < |events| - 1
    ensures SurfacedForGood(events, k, p) <==>
      SurfacedForGood(events[..|events| - 1], k, p) && !HidesAt(events, |events| - 1, p)
  {
    hide SurfacesAt;
    hide HidesAt;
    var n := |events| - 1;
    PrefixAgrees(events, n, k, p);
    forall m | k < m < n ensures HidesAt(events[..n], m, p) <==> HidesAt(events, m, p) {
      PrefixAgrees(events, n, m, p);
    }
    if SurfacedForGood(events[..n], k, p) && !HidesAt(events, n, p) {
      forall m | k < m < |events| ensures !HidesAt(events, m, p) {
        if m < n {
          assert !HidesAt(events[..n], m, p);
        }
      }
    }
  }

  // In every run a post is live exactly if some publish call surfaced it and
  // nobody has unpublished it or taken it down since.
  lemma {:induction false} PostIsLiveExactlyWhen(events: seq<Event>, p: nat)
    ensures IsLive(Run(events), p) <==> exists k: nat :: SurfacedForGood(events, k, p)
  {
    hide Apply;
    hide Surfaces;
    hide Hides;
    if events != [] {
      var n := |events| - 1;
      var before := events[..n];
      PostIsLiveExactlyWhen(before, p);
      StepOfAPost(Run(before), events[n], p);
      if IsLive(Run(events), p) {
        if Surfaces(Run(before), events[n], p) {
          assert SurfacedForGood(events, n, p);
        } else {
          var k: nat :| SurfacedForGood(before, k, p);
          ForGoodOneStepLater(events, k, p);
        }
      }
      if k: nat :| SurfacedForGood(events, k, p) {
        if k < n {
          ForGoodOneStepLater(events, k, p);
        }
      }
    }
  }

  // ── Posts keep their gift and owner ───────────────────────────────

  // A publish call that found a post holds the id of a post of its own gift and
  // owner, and there is one post per gift and owner.
  ghost predicate PostsOk(s: State) {
    && (forall c :: c in s.calls && s.calls[c].Posting? && s.calls[c].existing.Some? ==>
          IsPostOf(s, s.calls[c].existing.value, s.calls[c].gift, s.calls[c].owner))
    && (forall p, q :: 0 <= p < q < |s.posts| ==>
          s.posts[p].giftId != s.posts[q].giftId || s.posts[p].owner != s.posts[q].owner)
  }

  predicate IsPostOf(s: State, p: nat, g: nat, owner: nat) {
    p < |s.posts| && s.posts[p].giftId == g && s.posts[p].owner == owner
  }

  lemma StepKeepsIdentity(s: State, e: Event, p: nat, g: nat, owner: nat)
    requires IsPostOf(s, p, g, owner)
    ensures IsPostOf(Apply(s, e), p, g, owner)
  {
  }

  lemma {:induction false} PostsKeepIdentity(events: seq<Event>, i: nat, p: nat, g: nat, owner: nat)
    requires i <= |events| && IsPostOf(Run(events[..i]), p, g, owner)
    ensures IsPostOf(Run(events), p, g, owner)
    decreases |events|
  {
    hide Apply;
    hide IsPostOf;
    if i < |events| {
      var n := |events| - 1;
      assert events[..n][..i] == events[..i];
      PostsKeepIdentity(events[..n], i, p, g, owner);
      StepKeepsIdentity(Run(events[..n]), events[n], p, g, owner);
    } else {
      assert events[..i] == events;
    }
  }

  lemma SamePosts(s: State, after: State)
    requires PostsOk(s) && after.posts == s.posts
    requires forall c :: c in after.calls ==> (c in s.calls && after.calls[c] == s.calls[c]) || !after.calls[c].Posting?
    ensures PostsOk(after)
  {
    forall c | c in after.calls && after.calls[c].Posting? && after.calls[c].existing.Some?
      ensures IsPostOf(after, after.calls[c].existing.value, after.calls[c].gift, after.calls[c].owner) {
      assert c in s.calls && IsPostOf(s, s.calls[c].existing.value, s.calls[c].gift, s.calls[c].owner);
    }
  }

  // Writes that leave every post's gift and owner alone.
  lemma SameIdentities(s: State, after: State)
    requires PostsOk(s) && |after.posts| == |s.posts|
    requires forall p :: 0 <= p < |s.posts| ==>
      after.posts[p].giftId == s.posts[p].giftId && after.posts[p].owner == s.posts[p].owner
    requires forall c :: c in after.calls ==> c in s.calls && after.calls[c] == s.calls[c]
    ensures PostsOk(after)
  {
    forall c | c in after.calls && after.calls[c].Posting? && after.calls[c].existing.Some?
      ensures IsPostOf(after, after.calls[c].existing.value, after.calls[c].gift, after.calls[c].owner) {
      assert IsPostOf(s, s.calls[c].existing.value, s.calls[c].gift, s.calls[c].owner);
    }
  }

  lemma NewPost(s: State, after: State, g: nat, owner: nat)
    requires PostsOk(s) && PostOf(s.posts, g, owner).None?
    requires after.posts == s.posts + [Post(g, owner, true, false)]
    requires forall c :: c in after.calls ==> c in s.calls && after.calls[c] == s.calls[c]
    ensures PostsOk(after)
  {
    forall c | c in after.calls && after.calls[c].Posting? && after.calls[c].existing.Some?
      ensures IsPostOf(after, after.calls[c].existing.value, after.calls[c].gift, after.calls[c].owner) {
      assert IsPostOf(s, s.calls[c].existing.value, s.calls[c].gift, s.calls[c].owner);
    }
  }

  lemma NextKeepsPosts(s: State, c: nat, ok: bool)
    requires PostsOk(s) && c in s.calls
    ensures PostsOk(NextStep(s, c, ok))
  {
    hide PostsOk;
    var after := NextStep(s, c, ok);
    match s.calls[c]
    case Posting(g, owner, existing) =>
      if existing.None? && PostOf(s.posts, g, owner).None? {
        NewPost(s, after, g, owner);
      } else {
        SameIdentities(s, after);
      }
    case TakingDown(_) => SameIdentities(s, after);
    case Checked(g, owner) => LookupKeepsPosts(s, c, ok);
    case _ => SamePosts(s, after);
  }

  lemma LookupKeepsPosts(s: State, c: nat, ok: bool)
    requires PostsOk(s) && c in s.calls && s.calls[c].Checked?
    ensures PostsOk(NextStep(s, c, ok))
  {
    var after := NextStep(s, c, ok);
    forall d | d in after.calls && after.calls[d].Posting? && after.calls[d].existing.Some?
      ensures IsPostOf(after, after.calls[d].existing.value, after.calls[d].gift, after.calls[d].owner) {
      if d != c {
        assert d in s.calls && IsPostOf(s, s.calls[d].existing.value, s.calls[d].gift, s.calls[d].owner);
      }
    }
  }

  lemma StepKeepsPostsOk(s: State, e: Event)
    requires PostsOk(s)
    ensures PostsOk(Apply(s, e))
  {
    hide NextStep;
    hide PostsOk;
    match e
    case Next(c, ok) => if c in s.calls { NextKeepsPosts(s, c, ok); }
    case Unpublish(_, _) => SameIdentities(s, Apply(s, e));
    case _ => SamePosts(s, Apply(s, e));
  }

  lemma {:induction false} OnePostPerSide(events: seq<Event>)
    ensures PostsOk(Run(events))
  {
    hide Apply;
    hide PostsOk;
    if events == [] {
      NoPosts();
    } else {
      OnePostPerSide(events[..|events| - 1]);
      StepKeepsPostsOk(Run(events[..|events| - 1]), events[|events| - 1]);
    }
  }

  lemma NoPosts()
    ensures PostsOk(START)
  {
  }

  // ── The write of an overtaken publish call ────────────────────────

  ghost predicate HasLivePost(s: State, g: nat, owner: nat) {
    exists p: nat :: IsPostOf(s, p, g, owner) && LivePost(s.posts[p])
  }

  lemma LiveIffItsPost(s: State, g: nat, owner: nat)
    requires PostsOk(s)
    ensures
      var post := PostOf(s.posts, g, owner);
      HasLivePost(s, g, owner) <==> post.Some? && LivePost(s.posts[post.value])
  {
    var post := PostOf(s.posts, g, owner);
    if post.Some? {
      assert IsPostOf(s, post.value, g, owner);
    }
    if p: nat :| IsPostOf(s, p, g, owner) && LivePost(s.posts[p]) {
      assert post.Some? && post.value == p;
    }
  }

  // The write of a publish call leaves a live post on a cancelled gift exactly if
  // the gift is already cancelled then, unless the call had found no post, one
  // has appeared since, and that one is not live.
  lemma WriteOutlivesTheGiftExactlyWhen(s: State, c: nat, ok: bool, g: nat, owner: nat, existing: Option<nat>)
    requires PostsOk(s) && At(s, c, Posting(g, owner, existing))
    ensures
      var after, post := Apply(s, Next(c, ok)), PostOf(s.posts, g, owner);
      HasStatus(after, g, Cancelled) && HasLivePost(after, g, owner) <==>
      && HasStatus(s, g, Cancelled)
      && (existing.None? && post.Some? ==> LivePost(s.posts[post.value]))
  {
    var after, post := Apply(s, Next(c, ok)), PostOf(s.posts, g, owner);
    assert after.gifts == s.gifts;
    if existing.Some? {
      assert IsPostOf(s, existing.value, g, owner);
      assert IsPostOf(after, existing.value, g, owner) && LivePost(after.posts[existing.value]);
    } else if post.None? {
      assert IsPostOf(after, |s.posts|, g, owner) && LivePost(after.posts[|s.posts|]);
    } else {
      LiveIffItsPost(s, g, owner);
      assert after.posts == s.posts;
      assert HasLivePost(after, g, owner) <==> HasLivePost(s, g, owner);
    }
  }

  // From the look-up of its post on, a publish call nobody interferes with leaves
  // its owner a live post exactly if the owner had none, an unpublished one, or a
  // live one; a published post that was deactivated stays as it is.
  lemma PublishOutlivesTheGiftExactlyWhen(s: State, c: nat, g: nat, owner: nat)
    requires PostsOk(s) && At(s, c, Checked(g, owner))
    ensures
      var after, post := Apply(Apply(s, Next(c, true)), Next(c, true)), PostOf(s.posts, g, owner);
      HasStatus(after, g, Cancelled) && HasLivePost(after, g, owner) <==>
      && HasStatus(s, g, Cancelled)
      && (post.Some? && s.posts[post.value].published ==> !s.posts[post.value].deactivated)
  {
    hide Posted;
    var post := PostOf(s.posts, g, owner);
    var looked := Apply(s, Next(c, true));
    if post.Some? && s.posts[post.value].published {
      assert Apply(looked, Next(c, true)) == looked;
      assert looked.posts == s.posts && looked.gifts == s.gifts;
      LiveIffItsPost(s, g, owner);
      assert HasLivePost(looked, g, owner) <==> HasLivePost(s, g, owner);
    } else {
      StepKeepsPostsOk(s, Next(c, true));
      WriteOutlivesTheGiftExactlyWhen(looked, c, true, g, owner, post);
    }
  }

  // ── Runs ──────────────────────────────────────────────────────────

  // A call of publish read the gift before it was cancelled.
  predicate ReadInTime(events: seq<Event>, r: nat, c: nat, g: nat, owner: nat) {
    && r < |events| && events[r] == PublishReads(c, g, owner)
    && g < |Run(events[..r]).gifts| && !HasStatus(Run(events[..r]), g, Cancelled)
  }

  predicate IsPublishing(s: State, c: nat, g: nat, owner: nat) {
    c in s.calls && (s.calls[c] == Checked(g, owner) ||
      (s.calls[c].Posting? && s.calls[c].gift == g && s.calls[c].owner == owner))
  }

  lemma StepOfAPublish(s: State, e: Event, c: nat, g: nat, owner: nat)
    requires IsPublishing(Apply(s, e), c, g, owner)
    ensures IsPublishing(s, c, g, owner) ||
      (e == PublishReads(c, g, owner) && g < |s.gifts| && !HasStatus(s, g, Cancelled))
  {
    hide Posted;
    hide PostOf;
    hide TakenDown;
  }

  lemma {:induction false} PublishBegan(events: seq<Event>, c: nat, g: nat, owner: nat) returns (r: nat)
    requires IsPublishing(Run(events), c, g, owner)
    ensures ReadInTime(events, r, c, g, owner)
  {
    hide Apply;
    hide IsPublishing;
    if events == [] {
      NobodyPublishes(c, g, owner);
      assert false;
    } else {
      var n := |events| - 1;
      StepOfAPublish(Run(events[..n]), events[n], c, g, owner);
      if IsPublishing(Run(events[..n]), c, g, owner) {
        r := PublishBegan(events[..n], c, g, owner);
        assert events[..n][..r] == events[..r];
      } else {
        r := n;
      }
    }
  }

  lemma NobodyPublishes(c: nat, g: nat, owner: nat)
    ensures !IsPublishing(START, c, g, owner)
  {
  }

  // A publish call read the gift before it was cancelled, wrote after its posts
  // were taken down by event t, and the post was not unpublished since.
  predicate LatePublish(events: seq<Event>, g: nat, owner: nat, t: nat, r: nat, k: nat, p: nat) {
    && r < t < k < |events| && events[k].Next?
    && ReadInTime(events, r, events[k].call, g, owner)
    && SurfacesAt(events, k, p)
    && forall m :: k < m < |events| ==> !WithdrawsAt(events, m, p)
  }

  // The gift of a post hidden by a take-down.
  lemma HidesByTakeDown(events: seq<Event>, m: nat, p: nat, g: nat, owner: nat)
    requires IsPostOf(Run(events), p, g, owner) && HidesAt(events, m, p)
    ensures WithdrawsAt(events, m, p) || DoesAt(TookDown, g, events, m)
  {
    hide Run;
    hide Does;
    var s := Run(events[..m]);
    PostsKeepIdentity(events, m, p, s.posts[p].giftId, s.posts[p].owner);
  }

  lemma SurfacedExists(events: seq<Event>, k: nat, p: nat)
    requires SurfacesAt(events, k, p)
    ensures p < |Run(events[..k + 1]).posts|
  {
    hide Posted;
    var s := Run(events[..k]);
    assert events[..k + 1][..k] == events[..k];
    var call := s.calls[events[k].call];
    SurfacedIsLive(s.posts, call.gift, call.owner, call.existing, p);
  }

  lemma {:induction false} PostsOnlyGrow(events: seq<Event>, i: nat)
    requires i <= |events|
    ensures |Run(events[..i]).posts| <= |Run(events).posts|
    decreases |events|
  {
    hide Apply;
    if i < |events| {
      var n := |events| - 1;
      assert events[..n][..i] == events[..i];
      PostsOnlyGrow(events[..n], i);
      StepKeepsPostCount(Run(events[..n]), events[n]);
    } else {
      assert events[..i] == events;
    }
  }

  lemma StepKeepsPostCount(s: State, e: Event)
    ensures |s.posts| <= |Apply(s, e).posts|
  {
    hide PostOf;
  }

  // A post surfaced before its gift's posts were taken down is hidden then.
  lemma SurfacedAfterTakeDown(events: seq<Event>, g: nat, owner: nat, t: nat, k: nat, p: nat)
    requires DoesAt(TookDown, g, events, t) && IsPostOf(Run(events), p, g, owner)
    requires SurfacedForGood(events, k, p)
    ensures t < k
  {
    hide Run;
    hide Surfaces;
    if k == t {
      OneDeedAtATime(Run(events[..t]), events[t], g, p);
    } else if k < t {
      TakeDownHides(events, g, owner, t, k, p);
    }
  }

  lemma TakeDownHides(events: seq<Event>, g: nat, owner: nat, t: nat, k: nat, p: nat)
    requires DoesAt(TookDown, g, events, t) && IsPostOf(Run(events), p, g, owner)
    requires SurfacesAt(events, k, p) && k < t
    ensures HidesAt(events, t, p)
  {
    hide Run;
    hide Surfaces;
    SurfacedExists(events, k, p);
    assert events[..t][..k + 1] == events[..k + 1];
    PostsOnlyGrow(events[..t], k + 1);
    var s := Run(events[..t]);
    PostsKeepIdentity(events, t, p, s.posts[p].giftId, s.posts[p].owner);
  }

  lemma OneDeedAtATime(s: State, e: Event, g: nat, p: nat)
    requires Does(TookDown, g, s, e)
    ensures !Surfaces(s, e, p)
  {
  }

  // The call that wrote was about the post's own gift and owner, and had read the
  // gift before.
  lemma WriterReadInTime(events: seq<Event>, k: nat, p: nat, g: nat, owner: nat) returns (r: nat)
    requires SurfacesAt(events, k, p) && IsPostOf(Run(events), p, g, owner)
    ensures r < k && events[k].Next? && ReadInTime(events, r, events[k].call, g, owner)
  {
    hide Apply;
    hide Run;
    var s, e := Run(events[..k]), events[k];
    var call := s.calls[e.call];
    OnePostPerSide(events[..k]);
    SurfacesItsOwn(s, e, p);
    assert Run(events[..k + 1]) == Apply(s, e) by {
      RunOneMore(events, k);
    }
    PostsKeepIdentity(events, k + 1, p, call.gift, call.owner);
    r := PublishBegan(events[..k], e.call, g, owner);
    assert events[..k][..r] == events[..r];
  }

  lemma RunOneMore(events: seq<Event>, k: nat)
    requires k < |events|
    ensures Run(events[..k + 1]) == Apply(Run(events[..k]), events[k])
  {
    assert events[..k + 1][..k] == events[..k];
  }

  lemma SurfacesItsOwn(s: State, e: Event, p: nat)
    requires PostsOk(s) && Surfaces(s, e, p)
    ensures IsPostOf(Apply(s, e), p, s.calls[e.call].gift, s.calls[e.call].owner)
  {
  }

  lemma CancelledBeforeTakeDown(events: seq<Event>, g: nat, t: nat)
    requires DoesAt(TookDown, g, events, t)
    ensures HasStatus(Run(events[..t]), g, Cancelled)
  {
    hide Run;
    CancelledOnce(events[..t], g);
    assert events[t].call in Calls(Run(events[..t]), TakingDown(g));
  }

  // After its gift's posts were taken down a post is live exactly as the late
  // write of a publish call that had read the gift before it was cancelled.
  lemma TakenDownPostIsLiveExactlyWhen(events: seq<Event>, g: nat, owner: nat, t: nat, p: nat)
    requires DoesAt(TookDown, g, events, t) && IsPostOf(Run(events), p, g, owner)
    ensures IsLive(Run(events), p) <==> exists r: nat, k: nat :: LatePublish(events, g, owner, t, r, k, p)
  {
    hide Run;
    hide DoesAt;
    PostIsLiveExactlyWhen(events, p);
    if k: nat :| SurfacedForGood(events, k, p) {
      SurfacedAfterTakeDown(events, g, owner, t, k, p);
      var r := WriterReadInTime(events, k, p, g, owner);
      CancelledBeforeTakeDown(events, g, t);
      InTimeMeansBefore(events, r, t, events[k].call, g, owner);
      NotHiddenMeansNotWithdrawn(events, k, p);
      assert LatePublish(events, g, owner, t, r, k, p);
    }
    if r: nat, k: nat :| LatePublish(events, g, owner, t, r, k, p) {
      forall m: nat | k < m < |events| ensures !HidesAt(events, m, p) {
        if HidesAt(events, m, p) {
          HidesByTakeDown(events, m, p, g, owner);
          AtMostOneStep(TookDown, g, events, t, m);
        }
      }
      assert SurfacedForGood(events, k, p);
    }
  }

  lemma InTimeMeansBefore(events: seq<Event>, r: nat, t: nat, c: nat, g: nat, owner: nat)
    requires ReadInTime(events, r, c, g, owner) && DoesAt(TookDown, g, events, t)
    requires HasStatus(Run(events[..t]), g, Cancelled)
    ensures r < t
  {
    hide Run;
    if t <= r {
      assert events[..r][..t] == events[..t];
      CancelledStays(events[..r], t, g);
    }
  }

  lemma NotHiddenMeansNotWithdrawn(events: seq<Event>, k: nat, p: nat)
    requires SurfacedForGood(events, k, p)
    ensures forall m :: k < m < |events| ==> !WithdrawsAt(events, m, p)
  {
    hide Run;
    forall m: nat | k < m < |events| ensures !WithdrawsAt(events, m, p) {
      assert !HidesAt(events, m, p);
    }
  }

  // Between the flip and the take-down, and for good if that is lost, a cancelled
  // gift's posts stay as they were: live exactly if surfaced and not unpublished.
  lemma PostsStayUntilTakenDown(events: seq<Event>, g: nat, owner: nat, p: nat)
    requires Times(TookDown, g, events) == 0 && IsPostOf(Run(events), p, g, owner)
    ensures IsLive(Run(events), p) <==>
      exists k: nat :: SurfacesAt(events, k, p) && forall m :: k < m < |events| ==> !WithdrawsAt(events, m, p)
  {
    hide Run;
    hide SurfacesAt;
    PostIsLiveExactlyWhen(events, p);
    if k: nat :| SurfacedForGood(events, k, p) {
      NotHiddenMeansNotWithdrawn(events, k, p);
    }
    if k: nat :| SurfacesAt(events, k, p) && forall m :: k < m < |events| ==> !WithdrawsAt(events, m, p) {
      forall m: nat | k < m < |events| ensures !HidesAt(events, m, p) {
        if HidesAt(events, m, p) {
          HidesByTakeDown(events, m, p, g, owner);
          DoneAt(TookDown, g, events, m);
          TimesGrow(TookDown, g, events, m + 1);
        }
      }
      assert SurfacedForGood(events, k, p);
    }
  }

  // ── The schedule ──────────────────────────────────────────────────

  // A publish call checks the gift and its post, the gift is cancelled and its
  // posts are taken down, and then the call writes.
  function Overtaken(): seq<Event> {
    [CreateGift(0, 7, 8, None), Next(0, true), PublishReads(1, 0, 7), Next(1, true),
     CancelReads(2, 0, 7), Next(2, true), Next(2, true), Next(2, true), Next(1, true)]
  }

  lemma InterruptedPublishOutlivesTheGift()
    ensures
      var end := Run(Overtaken());
      && DoesAt(TookDown, 0, Overtaken(), 7)
      && HasStatus(end, 0, Cancelled) && IsPostOf(end, 0, 0, 7) && IsLive(end, 0) && end.calls == map[]
  {
    hide Run;
    hide Apply;
    OvertakenPublishes();
    OvertakenCancels();
    OvertakenWrites();
    assert Overtaken()[..9] == Overtaken();
  }

  const WAITING := Gift(7, 8, None, [PendingAddress])
  const GONE := Gift(7, 8, None, [PendingAddress, Cancelled])

  lemma OvertakenPublishes()
    ensures Run(Overtaken()[..4]) == State([WAITING], map[], [], map[1 := Posting(0, 7, None)])
  {
    hide Run;
    hide Counted;
    NothingYet();
    Step(Overtaken(), 0, START);
    Step(Overtaken(), 1, State([WAITING], map[], [], map[0 := Raising(0)]));
    NoProductNoCounter(State([WAITING], map[], [], map[0 := Raising(0)]), 0, 1);
    Step(Overtaken(), 2, State([WAITING], map[], [], map[]));
    Step(Overtaken(), 3, State([WAITING], map[], [], map[1 := Checked(0, 7)]));
  }

  lemma NothingYet()
    ensures Run(Overtaken()[..0]) == START
  {
  }

  lemma OvertakenCancels()
    requires Run(Overtaken()[..4]) == State([WAITING], map[], [], map[1 := Posting(0, 7, None)])
    ensures Run(Overtaken()[..7]) == State([GONE], map[], [], map[1 := Posting(0, 7, None), 2 := TakingDown(0)])
  {
    hide Run;
    hide Counted;
    Step(Overtaken(), 4, State([WAITING], map[], [], map[1 := Posting(0, 7, None)]));
    Step(Overtaken(), 5, State([WAITING], map[], [], map[1 := Posting(0, 7, None), 2 := Cancelling(0)]));
    assert WAITING.trail + [Cancelled] == GONE.trail;
    Step(Overtaken(), 6, State([GONE], map[], [], map[1 := Posting(0, 7, None), 2 := Lowering(0)]));
    NoProductNoCounter(State([GONE], map[], [], map[1 := Posting(0, 7, None), 2 := Lowering(0)]), 0, -1);
  }

  lemma OvertakenWrites()
    requires Run(Overtaken()[..7]) == State([GONE], map[], [], map[1 := Posting(0, 7, None), 2 := TakingDown(0)])
    ensures DoesAt(TookDown, 0, Overtaken(), 7)
    ensures Run(Overtaken()[..9]) == State([GONE], map[], [Post(0, 7, true, false)], map[])
  {
    hide Run;
    Step(Overtaken(), 7, State([GONE], map[], [], map[1 := Posting(0, 7, None), 2 := TakingDown(0)]));
    Step(Overtaken(), 8, State([GONE], map[], [], map[1 := Posting(0, 7, None)]));
  }

  lemma NoProductNoCounter(s: State, g: nat, delta: int)
    requires g < |s.gifts| && s.gifts[g].productId.None?
    ensures Counted(s, g, delta) == s
  {
  }

  lemma Step(events: seq<Event>, k: nat, s: State)
    requires k < |events| && Run(events[..k]) == s
    ensures Run(events[..k + 1]) == Apply(s, events[k])
  {
    RunOneMore(events, k);
  }
}

// The in-memory sliding-window limiter (src/common/rate-limiter.ts). It keeps
// a trimmed list of timestamps per key; the theorems say that nobody can tell
// it from a limiter that remembers every accepted hit for ever.

module RateLimiting {

  datatype Call = Call(key: string, now: int)

  // The timestamps after the cutoff, in order.
  function Recent(list: seq<int>, cutoff: int): (recent: seq<int>)
    ensures |recent| <= |list|
  {
    if list == [] then []
    else
      var init, t := list[..|list| - 1], list[|list| - 1];
      if t > cutoff then Recent(init, cutoff) + [t] else Recent(init, cutoff)
  }

  // The reference: every hit ever accepted for the key, where a hit is
  // accepted when fewer than max accepted ones lie inside its window.
  ghost function Accepted(calls: seq<Call>, key: string, max: int, windowMs: int): seq<int>
    decreases |calls|, 0
  {
    if calls == [] then []
    else
      var before := calls[..|calls| - 1];
      var last := calls[|calls| - 1];
      if last.key == key && Permitted(before, key, last.now, max, windowMs)
      then Accepted(before, key, max, windowMs) + [last.now]
      else Accepted(before, key, max, windowMs)
  }

  ghost predicate Permitted(calls: seq<Call>, key: string, now: int, max: int, windowMs: int)
    decreases |calls|, 1
  {
    CountIn(Accepted(calls, key, max, windowMs), now - windowMs, now) < max
  }

  // How many timestamps lie in (from, to].
  ghost function CountIn(list: seq<int>, from: int, to: int): nat {
    if list == [] then 0
    else
      var t := list[|list| - 1];
      CountIn(list[..|list| - 1], from, to) + if from < t <= to then 1 else 0
  }

  ghost predicate ClockNeverGoesBack(calls: seq<Call>) {
    forall i, j :: 0 <= i < j < |calls| ==> calls[i].now <= calls[j].now
  }

  ghost predicate NotBefore(calls: seq<Call>, now: int) {
    calls == [] || calls[|calls| - 1].now <= now
  }

  lemma ClockSoFar(calls: seq<Call>, key: string, now: int)
    ensures ClockNeverGoesBack(calls + [Call(key, now)]) <==> ClockNeverGoesBack(calls) && NotBefore(calls, now)
  {
    var all := calls + [Call(key, now)];
    assert all[|calls|].now == now;
    assert forall i :: 0 <= i < |calls| ==> all[i] == calls[i];
    if ClockNeverGoesBack(all) {
      assert forall i, j :: 0 <= i < j < |calls| ==> all[i].now <= all[j].now;
    }
  }

  // A trimmed list and the full history look the same from the horizon on.
  ghost predicate Agree(stored: seq<int>, full: seq<int>, horizon: int) {
    forall cutoff {:trigger Recent(stored, cutoff)} :: cutoff >= horizon ==> Recent(stored, cutoff) == Recent(full, cutoff)
  }

  function StoredFor(hits: map<string, seq<int>>, key: string): seq<int> {
    if key in hits then hits[key] else []
  }

  // What a hit leaves in the list: the unexpired timestamps, and its own when
  // there was room.
  function Kept(list: seq<int>, now: int, max: int, windowMs: int): seq<int> {
    var recent := Recent(list, now - windowMs);
    if |recent| >= max then recent else recent + [now]
  }

  // Whatever is asked next, the trimmed lists answer it like the history does.
  ghost predicate Faithful(hits: map<string, seq<int>>, calls: seq<Call>, max: int, windowMs: int) {
    forall key, now :: NotBefore(calls, now) ==>
      Agree(StoredFor(hits, key), Accepted(calls, key, max, windowMs), now - windowMs)
  }

  class RateLimiter {
    const max: int
    const windowMs: int
    var hits: map<string, seq<int>>
    ghost var calls: seq<Call>

    ghost predicate Valid()
      reads this
    {
      && (max >= 0 ==> forall key :: key in hits ==> |hits[key]| <= max)
      && (ClockNeverGoesBack(calls) ==> Faithful(hits, calls, max, windowMs))
    }

    constructor (max: int, windowMs: int)
      ensures Valid() && calls == [] && hits == map[]
      ensures this.max == max && this.windowMs == windowMs
    {
      this.max := max;
      this.windowMs := windowMs;
      hits := map[];
      calls := [];
    }

    // A hit is accepted exactly when fewer than max of all hits ever accepted for
    // the key lie in its window, provided the clock never went back.
    method Hit(key: string, now: int) returns (allowed: bool)
      requires Valid()
      modifies this
      ensures Valid() && calls == old(calls) + [Call(key, now)]
      ensures hits == old(hits)[key := Kept(StoredFor(old(hits), key), now, max, windowMs)]
      ensures allowed <==> old(Remaining(key, now)) > 0
      ensures ClockNeverGoesBack(calls) ==>
        (allowed <==> CountIn(Accepted(old(calls), key, max, windowMs), now - windowMs, now) < max)
    {
      var cutoff := now - windowMs;
      var list := if key in hits then hits[key] else [];
      var recent := Recent(list, cutoff);
      ClockSoFar(calls, key, now);
      if ClockNeverGoesBack(calls + [Call(key, now)]) {
        HitStaysFaithful(hits, calls, key, now, max, windowMs);
      }
      if |recent| >= max {
        hits := hits[key := recent];
        allowed := false;
      } else {
        recent := recent + [now];
        hits := hits[key := recent];
        allowed := true;
      }
      calls := calls + [Call(key, now)];
    }

    // The allowance left is what a hit would see, and with an honest clock it
    // is max minus the accepted hits of the whole history still in the window.
    function Remaining(key: string, now: int): (left: int)
      reads this
      ensures left >= 0
      ensures Valid() && ClockNeverGoesBack(calls + [Call(key, now)]) ==>
        var used := CountIn(Accepted(calls, key, max, windowMs), now - windowMs, now);
        left == if max - used > 0 then max - used else 0
    {
      ClockSoFar(calls, key, now);
      assert Valid() && ClockNeverGoesBack(calls + [Call(key, now)]) ==>
          |Recent(StoredFor(hits, key), now - windowMs)|
            == CountIn(Accepted(calls, key, max, windowMs), now - windowMs, now) by {
        if Valid() && ClockNeverGoesBack(calls + [Call(key, now)]) {
          StoredIsCounted(hits, calls, key, now, max, windowMs);
        }
      }
      var count := |Recent(StoredFor(hits, key), now - windowMs)|;
      if max - count > 0 then max - count else 0
    }
  }

  // ── Counting and trimming ─────────────────────────────────────────

  lemma {:induction false} AcceptedArePast(calls: seq<Call>, key: string, now: int, max: int, windowMs: int)
    requires ClockNeverGoesBack(calls) && NotBefore(calls, now)
    ensures AllPast(Accepted(calls, key, max, windowMs), now)
  {
    hide Permitted;
    if calls != [] {
      var before, last := calls[..|calls| - 1], calls[|calls| - 1];
      OneCallEarlier(calls);
      AcceptedArePast(before, key, last.now, max, windowMs);
    }
  }

  predicate AllPast(list: seq<int>, now: int) {
    forall i :: 0 <= i < |list| ==> list[i] <= now
  }

  lemma OneCallEarlier(calls: seq<Call>)
    requires calls != [] && ClockNeverGoesBack(calls)
    ensures ClockNeverGoesBack(calls[..|calls| - 1]) && NotBefore(calls[..|calls| - 1], calls[|calls| - 1].now)
  {
    var before, last := calls[..|calls| - 1], calls[|calls| - 1];
    assert before + [Call(last.key, last.now)] == calls;
    ClockSoFar(before, last.key, last.now);
  }

  // Of past timestamps, those after the cutoff are those in the window.
  lemma {:induction false} RecentIsTheWindow(list: seq<int>, cutoff: int, now: int)
    requires AllPast(list, now)
    ensures |Recent(list, cutoff)| == CountIn(list, cutoff, now)
  {
    if list != [] {
      RecentIsTheWindow(list[..|list| - 1], cutoff, now);
    }
  }

  lemma StoredIsCounted(
    hits: map<string, seq<int>>, calls: seq<Call>, key: string, now: int, max: int, windowMs: int)
    requires ClockNeverGoesBack(calls) && NotBefore(calls, now) && Faithful(hits, calls, max, windowMs)
    ensures
      |Recent(StoredFor(hits, key), now - windowMs)|
        == CountIn(Accepted(calls, key, max, windowMs), now - windowMs, now)
  {
    var full := Accepted(calls, key, max, windowMs);
    AcceptedArePast(calls, key, now, max, windowMs);
    RecentIsTheWindow(full, now - windowMs, now);
    assert Agree(StoredFor(hits, key), full, now - windowMs);
    assert Recent(StoredFor(hits, key), now - windowMs) == Recent(full, now - windowMs);
  }

  lemma {:induction false} RecentConcat(a: seq<int>, b: seq<int>, cutoff: int)
    ensures Recent(a + b, cutoff) == Recent(a, cutoff) + Recent(b, cutoff)
  {
    if b == [] {
      assert a + b == a;
    } else {
      var n := |b| - 1;
      assert (a + b)[..|a + b| - 1] == a + b[..n];
      RecentConcat(a, b[..n], cutoff);
    }
  }

  lemma {:induction false} RecentRecent(list: seq<int>, early: int, late: int)
    requires early <= late
    ensures Recent(Recent(list, early), late) == Recent(list, late)
  {
    if list != [] {
      var n := |list| - 1;
      RecentRecent(list[..n], early, late);
      if list[n] > early {
        var kept := Recent(list[..n], early);
        assert (kept + [list[n]])[..|kept|] == kept;
      }
    }
  }

  // Dropping expired hits and recording a new one keeps the stored list
  // indistinguishable from the history ...
  lemma RecordingAgrees(stored: seq<int>, full: seq<int>, cutoff: int, now: int)
    requires Agree(stored, full, cutoff)
    ensures Agree(Recent(stored, cutoff) + [now], full + [now], cutoff)
  {
    forall later | later >= cutoff
      ensures Recent(Recent(stored, cutoff) + [now], later) == Recent(full + [now], later)
    {
      RecentConcat(Recent(stored, cutoff), [now], later);
      RecentConcat(full, [now], later);
      RecentRecent(stored, cutoff, later);
    }
  }

  // ... and so does dropping them alone.
  lemma TrimmingAgrees(stored: seq<int>, full: seq<int>, cutoff: int)
    requires Agree(stored, full, cutoff)
    ensures Agree(Recent(stored, cutoff), full, cutoff)
  {
    forall later | later >= cutoff
      ensures Recent(Recent(stored, cutoff), later) == Recent(full, later)
    {
      RecentRecent(stored, cutoff, later);
    }
  }

  lemma AcceptedStep(calls: seq<Call>, call: Call, key: string, max: int, windowMs: int)
    ensures Accepted(calls + [call], key, max, windowMs) ==
      if call.key == key && Permitted(calls, key, call.now, max, windowMs)
      then Accepted(calls, key, max, windowMs) + [call.now]
      else Accepted(calls, key, max, windowMs)
  {
    assert (calls + [call])[..|calls|] == calls;
  }

  lemma AgreeLater(stored: seq<int>, full: seq<int>, early: int, late: int)
    requires early <= late && Agree(stored, full, early)
    ensures Agree(stored, full, late)
  {
  }

  lemma HitKeyAgrees(list: seq<int>, calls: seq<Call>, key: string, now: int, max: int, windowMs: int)
    requires ClockNeverGoesBack(calls) && NotBefore(calls, now)
    requires Agree(list, Accepted(calls, key, max, windowMs), now - windowMs)
    ensures |Recent(list, now - windowMs)| < max <==> Permitted(calls, key, now, max, windowMs)
    ensures Agree(Kept(list, now, max, windowMs),
                  Accepted(calls + [Call(key, now)], key, max, windowMs), now - windowMs)
  {
    hide Accepted;
    AcceptedStep(calls, Call(key, now), key, max, windowMs);
    var full := Accepted(calls, key, max, windowMs);
    assert Recent(list, now - windowMs) == Recent(full, now - windowMs);
    AcceptedArePast(calls, key, now, max, windowMs);
    RecentIsTheWindow(full, now - windowMs, now);
    if Permitted(calls, key, now, max, windowMs) {
      RecordingAgrees(list, full, now - windowMs, now);
    } else {
      TrimmingAgrees(list, full, now - windowMs);
    }
  }

  lemma HitStaysFaithful(hits: map<string, seq<int>>, calls: seq<Call>, key: string, now: int, max: int, windowMs: int)
    requires ClockNeverGoesBack(calls) && NotBefore(calls, now) && Faithful(hits, calls, max, windowMs)
    ensures Faithful(hits[key := Kept(StoredFor(hits, key), now, max, windowMs)],
                     calls + [Call(key, now)], max, windowMs)
    ensures |Recent(StoredFor(hits, key), now - windowMs)| < max <==> Permitted(calls, key, now, max, windowMs)
  {
    var after := calls + [Call(key, now)];
    var list := StoredFor(hits, key);
    var hits' := hits[key := Kept(list, now, max, windowMs)];
    HitKeyAgrees(list, calls, key, now, max, windowMs);
    forall k, later | NotBefore(after, later)
      ensures Agree(StoredFor(hits', k), Accepted(after, k, max, windowMs), later - windowMs)
    {
      AcceptedStep(calls, Call(key, now), k, max, windowMs);
      if k == key {
        AgreeLater(StoredFor(hits', k), Accepted(after, k, max, windowMs), now - windowMs, later - windowMs);
      } else {
        assert NotBefore(calls, later);
      }
    }
  }

  // ── The limit itself ──────────────────────────────────────────────

  // Of timestamps that are all past, a window that reaches further back counts
  // at least as many.
  lemma {:induction false} CountInGrows(list: seq<int>, now: int, early: int, from: int, to: int)
    requires early <= from && AllPast(list, now)
    ensures CountIn(list, from, to) <= CountIn(list, early, now)
  {
    if list != [] {
      CountInGrows(list[..|list| - 1], now, early, from, to);
    }
  }

  // Wherever a window of length windowMs is placed, at most max accepted hits
  // of one key fall inside it.
  lemma {:induction false} EveryWindowHoldsAtMostMax(
    calls: seq<Call>, key: string, max: nat, windowMs: int, from: int)
    requires ClockNeverGoesBack(calls)
    ensures CountIn(Accepted(calls, key, max, windowMs), from, from + windowMs) <= max
  {
    hide ClockNeverGoesBack;
    hide AllPast;
    if calls != [] {
      var before := calls[..|calls| - 1];
      var last := calls[|calls| - 1];
      OneCallEarlier(calls);
      EveryWindowHoldsAtMostMax(before, key, max, windowMs, from);
      var full := Accepted(before, key, max, windowMs);
      assert (full + [last.now])[..|full|] == full;
      if last.now <= from + windowMs {
        AcceptedArePast(before, key, last.now, max, windowMs);
        CountInGrows(full, last.now, last.now - windowMs, from, from + windowMs);
      }
    }
  }
}

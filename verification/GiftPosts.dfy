// The gift wall (src/gift-posts/gift-posts.service.ts): collapsing repeated
// gifts of one product into one entry, and the appreciation toggle that keeps a
// post's counter in step with its rows.

module GiftPosts {
  import opened Wrappers

  // ── Collapsing ────────────────────────────────────────────────────

  datatype Row = Row(id: nat, ownerUserId: nat, direction: string, productId: Option<nat>)

  // Posts about the same product, by the same owner, in the same direction,
  // share a key; a post without a product stands alone.
  datatype Key = ProductKey(owner: nat, direction: string, productId: nat) | SingleKey(id: nat)

  datatype Group = Group(row: Row, eventCount: nat)

  function KeyOf(r: Row): Key {
    if r.productId.Some? then ProductKey(r.ownerUserId, r.direction, r.productId.value) else SingleKey(r.id)
  }

  method CollapseGiftPostGroups(rows: seq<Row>) returns (groups: seq<Group>)
    ensures groups == Collapsed(rows)
  {
    hide Indexes;
    hide KeyOf;
    groups := [];
    var index: map<Key, nat> := map[];
    NothingIndexed();
    for i := 0 to |rows|
      invariant groups == Collapsed(rows[..i])
      invariant Indexes(index, groups)
    {
      assert rows[..i + 1][..i] == rows[..i];
      var key := KeyOf(rows[i]);
      IndexFindsGroup(index, groups, key);
      if key in index {
        var g := index[key];
        BumpKeepsIndex(index, groups, g);
        groups := groups[g := groups[g].(eventCount := groups[g].eventCount + 1)];
      } else {
        AppendKeepsIndex(index, groups, Group(rows[i], 1));
        index := index[key := |groups|];
        groups := groups + [Group(rows[i], 1)];
      }
    }
    assert rows[..|rows|] == rows;
  }

  // The map of the loop: each group's key leads to it.
  predicate Indexes(index: map<Key, nat>, groups: seq<Group>) {
    && (forall k :: k in index ==> index[k] < |groups| && KeyOf(groups[index[k]].row) == k)
    && (forall g :: 0 <= g < |groups| ==> KeyOf(groups[g].row) in index && index[KeyOf(groups[g].row)] == g)
  }

  // The group of a key, if it has one.
  function GroupOf(groups: seq<Group>, key: Key): (r: Option<nat>)
    ensures r.Some? ==> r.value < |groups| && KeyOf(groups[r.value].row) == key
    ensures r.None? ==> forall g :: 0 <= g < |groups| ==> KeyOf(groups[g].row) != key
  {
    if groups == [] then None
    else if KeyOf(groups[|groups| - 1].row) == key then Some(|groups| - 1)
    else GroupOf(groups[..|groups| - 1], key)
  }

  lemma IndexFindsGroup(index: map<Key, nat>, groups: seq<Group>, key: Key)
    requires Indexes(index, groups)
    ensures GroupOf(groups, key) == if key in index then Some(index[key]) else None
    ensures key in index ==> index[key] < |groups|
  {
  }

  lemma NothingIndexed()
    ensures Indexes(map[], [])
  {
  }

  lemma BumpKeepsIndex(index: map<Key, nat>, groups: seq<Group>, g: nat)
    requires Indexes(index, groups) && g < |groups|
    ensures Indexes(index, groups[g := groups[g].(eventCount := groups[g].eventCount + 1)])
  {
  }

  lemma AppendKeepsIndex(index: map<Key, nat>, groups: seq<Group>, group: Group)
    requires Indexes(index, groups) && KeyOf(group.row) !in index
    ensures Indexes(index[KeyOf(group.row) := |groups|], groups + [group])
  {
  }

  // One row more: counted in its group, or the first of a new one.
  function Collapsed(rows: seq<Row>): seq<Group> {
    if rows == [] then []
    else
      var groups, r := Collapsed(rows[..|rows| - 1]), rows[|rows| - 1];
      var found := GroupOf(groups, KeyOf(r));
      if found.Some? then groups[found.value := groups[found.value].(eventCount := groups[found.value].eventCount + 1)]
      else groups + [Group(r, 1)]
  }

  function CountKey(rows: seq<Row>, key: Key): nat {
    if rows == [] then 0
    else CountKey(rows[..|rows| - 1], key) + if KeyOf(rows[|rows| - 1]) == key then 1 else 0
  }

  // The first position of a key.
  predicate FirstAt(rows: seq<Row>, key: Key, i: nat) {
    i < |rows| && KeyOf(rows[i]) == key && forall j :: 0 <= j < i ==> KeyOf(rows[j]) != key
  }

  // Group g answers for a key: its row is the first with that key, and its count
  // is how often the key occurs.
  ghost predicate Represents(rows: seq<Row>, group: Group, at: nat) {
    FirstAt(rows, KeyOf(group.row), at) && rows[at] == group.row && group.eventCount == CountKey(rows, KeyOf(group.row))
  }

  // The groups, in order, answer for the rows at these positions.
  ghost predicate Faithful(rows: seq<Row>, groups: seq<Group>, firsts: seq<nat>) {
    && |firsts| == |groups|
    && (forall g :: 0 <= g < |groups| ==> Represents(rows, groups[g], firsts[g]))
    && (forall g, h :: 0 <= g < h < |groups| ==> firsts[g] < firsts[h])
    && (forall i :: 0 <= i < |rows| ==> GroupOf(groups, KeyOf(rows[i])).Some?)
  }

  lemma FirstStays(rows: seq<Row>, r: Row, key: Key, i: nat)
    requires FirstAt(rows, key, i)
    ensures FirstAt(rows + [r], key, i)
  {
  }

  lemma CountOneMore(rows: seq<Row>, r: Row, key: Key)
    ensures CountKey(rows + [r], key) == CountKey(rows, key) + if KeyOf(r) == key then 1 else 0
  {
    assert (rows + [r])[..|rows|] == rows;
  }

  lemma {:induction false} CountZero(rows: seq<Row>, key: Key)
    requires forall i :: 0 <= i < |rows| ==> KeyOf(rows[i]) != key
    ensures CountKey(rows, key) == 0
  {
    if rows != [] {
      CountZero(rows[..|rows| - 1], key);
    }
  }

  // Two rows share an entry exactly if they are about the same product, of the same
  // owner, in the same direction; one without a product shares with itself alone.
  lemma SameEntryExactlyWhen(a: Row, b: Row)
    ensures KeyOf(a) == KeyOf(b) <==>
      if a.productId.Some? && b.productId.Some?
      then a.productId == b.productId && a.ownerUserId == b.ownerUserId && a.direction == b.direction
      else a.productId.None? && b.productId.None? && a.id == b.id
  {
  }

  // Every key has one entry: its first row, counted as often as the key occurs,
  // and the entries keep the order of those first rows.
  lemma {:induction false} CollapseIsFaithful(rows: seq<Row>) returns (firsts: seq<nat>)
    ensures Faithful(rows, Collapsed(rows), firsts)
  {
    hide KeyOf;
    hide Faithful;
    if rows == [] {
      firsts := [];
      EmptyIsFaithful(rows);
    } else {
      var n := |rows| - 1;
      var before := CollapseIsFaithful(rows[..n]);
      assert rows == rows[..n] + [rows[n]];
      var groups := Collapsed(rows[..n]);
      if GroupOf(groups, KeyOf(rows[n])).Some? {
        firsts := before;
        JoinsItsGroup(rows[..n], rows[n], groups, before);
      } else {
        firsts := before + [n];
        StartsAGroup(rows[..n], rows[n], groups, before);
      }
    }
  }

  lemma EmptyIsFaithful(rows: seq<Row>)
    requires rows == []
    ensures Faithful(rows, Collapsed(rows), [])
  {
  }

  lemma JoinsItsGroup(rows: seq<Row>, r: Row, groups: seq<Group>, firsts: seq<nat>)
    requires Faithful(rows, groups, firsts) && GroupOf(groups, KeyOf(r)).Some?
    ensures
      var g := GroupOf(groups, KeyOf(r)).value;
      Faithful(rows + [r], groups[g := groups[g].(eventCount := groups[g].eventCount + 1)], firsts)
  {
    hide KeyOf;
    var all := rows + [r];
    var g := GroupOf(groups, KeyOf(r)).value;
    var after := groups[g := groups[g].(eventCount := groups[g].eventCount + 1)];
    forall h | 0 <= h < |after| ensures Represents(all, after[h], firsts[h]) {
      assert Represents(rows, groups[h], firsts[h]);
      FirstStays(rows, r, KeyOf(groups[h].row), firsts[h]);
      CountOneMore(rows, r, KeyOf(groups[h].row));
      OneGroupPerKey(rows, groups, firsts, g, h);
    }
    forall i | 0 <= i < |all| ensures GroupOf(after, KeyOf(all[i])).Some? {
      assert GroupOf(groups, KeyOf(all[i])).Some?;
      SameRowsSameGroups(groups, after, KeyOf(all[i]));
    }
  }

  lemma OneGroupPerKey(rows: seq<Row>, groups: seq<Group>, firsts: seq<nat>, g: nat, h: nat)
    requires Faithful(rows, groups, firsts) && g < |groups| && h < |groups|
    ensures KeyOf(groups[g].row) == KeyOf(groups[h].row) <==> g == h
  {
    assert Represents(rows, groups[g], firsts[g]) && Represents(rows, groups[h], firsts[h]);
  }

  lemma SameRowsSameGroups(groups: seq<Group>, after: seq<Group>, key: Key)
    requires |after| == |groups| && forall g :: 0 <= g < |groups| ==> after[g].row == groups[g].row
    ensures GroupOf(after, key).Some? <==> GroupOf(groups, key).Some?
  {
    if GroupOf(groups, key).Some? {
      assert KeyOf(after[GroupOf(groups, key).value].row) == key;
    }
    if GroupOf(after, key).Some? {
      assert KeyOf(groups[GroupOf(after, key).value].row) == key;
    }
  }

  lemma StartsAGroup(rows: seq<Row>, r: Row, groups: seq<Group>, firsts: seq<nat>)
    requires Faithful(rows, groups, firsts) && GroupOf(groups, KeyOf(r)).None?
    ensures Faithful(rows + [r], groups + [Group(r, 1)], firsts + [|rows|])
  {
    hide KeyOf;
    var all, after, at := rows + [r], groups + [Group(r, 1)], firsts + [|rows|];
    forall i | 0 <= i < |rows| ensures KeyOf(rows[i]) != KeyOf(r) {
      var g := GroupOf(groups, KeyOf(rows[i])).value;
      assert KeyOf(groups[g].row) == KeyOf(rows[i]);
    }
    forall h | 0 <= h < |after| ensures Represents(all, after[h], at[h]) {
      if h < |groups| {
        assert Represents(rows, groups[h], firsts[h]);
        FirstStays(rows, r, KeyOf(groups[h].row), firsts[h]);
        CountOneMore(rows, r, KeyOf(groups[h].row));
      } else {
        CountZero(rows, KeyOf(r));
        CountOneMore(rows, r, KeyOf(r));
      }
    }
    forall g, h | 0 <= g < h < |after| ensures at[g] < at[h] {
      if h == |groups| {
        assert Represents(rows, groups[g], firsts[g]);
      }
    }
    forall i | 0 <= i < |all| ensures GroupOf(after, KeyOf(all[i])).Some? {
      if i < |rows| {
        var g := GroupOf(groups, KeyOf(rows[i])).value;
        assert KeyOf(after[g].row) == KeyOf(all[i]);
      } else {
        assert KeyOf(after[|groups|].row) == KeyOf(all[i]);
      }
    }
  }

  function TotalEvents(groups: seq<Group>): nat {
    if groups == [] then 0 else TotalEvents(groups[..|groups| - 1]) + groups[|groups| - 1].eventCount
  }

  lemma {:induction false} TotalAfterBump(groups: seq<Group>, g: nat)
    requires g < |groups|
    ensures TotalEvents(groups[g := groups[g].(eventCount := groups[g].eventCount + 1)]) == TotalEvents(groups) + 1
  {
    var n := |groups| - 1;
    var after := groups[g := groups[g].(eventCount := groups[g].eventCount + 1)];
    if g == n {
      assert after[..n] == groups[..n];
    } else {
      assert after[..n] == groups[..n][g := groups[g].(eventCount := groups[g].eventCount + 1)];
      TotalAfterBump(groups[..n], g);
    }
  }

  // No post is lost or counted twice.
  lemma {:induction false} CollapseConservesPosts(rows: seq<Row>)
    ensures TotalEvents(Collapsed(rows)) == |rows|
  {
    if rows != [] {
      var n := |rows| - 1;
      CollapseConservesPosts(rows[..n]);
      var groups := Collapsed(rows[..n]);
      var found := GroupOf(groups, KeyOf(rows[n]));
      if found.Some? {
        TotalAfterBump(groups, found.value);
      } else {
        assert (groups + [Group(rows[n], 1)])[..|groups|] == groups;
      }
    }
  }

  // ── Appreciating ──────────────────────────────────────────────────

  // The rows of one post and its stored counter. A toggle first tries to create
  // the row; if it is there already, a second transaction deletes it.
  datatype Wall = Wall(fans: set<nat>, count: int, undoing: map<nat, nat>)

  datatype Step = TryCreate(call: nat, user: nat) | Delete(call: nat)

  function Apply(w: Wall, s: Step): Wall {
    match s
    case TryCreate(call, user) =>
      if user in w.fans then w.(undoing := w.undoing[call := user])
      else w.(fans := w.fans + {user}, count := w.count + 1)
    case Delete(call) =>
      if call !in w.undoing then w
      else
        var user, rested := w.undoing[call], w.(undoing := w.undoing - {call});
        if user in w.fans then rested.(fans := w.fans - {user}, count := w.count - 1) else rested
  }

  function Run(steps: seq<Step>): Wall {
    if steps == [] then Wall({}, 0, map[]) else Apply(Run(steps[..|steps| - 1]), steps[|steps| - 1])
  }

  // However toggles interleave, the counter is the number of rows, so it is never
  // negative and the clamp in the answer never changes it.
  lemma {:induction false} CounterIsTheNumberOfFans(steps: seq<Step>)
    ensures Run(steps).count == |Run(steps).fans|
  {
    hide Apply;
    if steps != [] {
      CounterIsTheNumberOfFans(steps[..|steps| - 1]);
      StepKeepsCount(Run(steps[..|steps| - 1]), steps[|steps| - 1]);
    }
  }

  lemma StepKeepsCount(w: Wall, s: Step)
    requires w.count == |w.fans|
    ensures Apply(w, s).count == |Apply(w, s).fans|
  {
  }

  // The post as the gates of a toggle read it.
  datatype Shown = Shown(owner: nat, published: bool, isPublic: bool, deactivated: bool)

  datatype Answer = Answer(appreciated: bool, appreciationCount: int)

  class AppreciationService {
    var wall: Wall

    constructor ()
      ensures wall == Wall({}, 0, map[])
    {
      wall := Wall({}, 0, map[]);
    }

    // A whole toggle, undisturbed, on a post that may not exist.
    method Appreciate(user: nat, post: Option<Shown>) returns (r: Result<Answer>)
      requires wall.count == |wall.fans|
      modifies this
      ensures wall.count == |wall.fans| && wall.undoing == old(wall.undoing)
      ensures r.Success? <==>
        post.Some? && post.value.owner != user
        && post.value.published && post.value.isPublic && !post.value.deactivated
      ensures r.Failure? ==>
        && wall == old(wall)
        && r.error == if post.None? then "Post not found"
                      else if post.value.owner == user then "own_post" else "forbidden"
      ensures r.Success? ==>
        && (r.value.appreciated <==> user !in old(wall.fans))
        && wall.fans == (if r.value.appreciated then old(wall.fans) + {user} else old(wall.fans) - {user})
        && r.value.appreciationCount == |wall.fans|
    {
      if post.None? {
        return Failure("Post not found");
      }
      if post.value.owner == user {
        return Failure("own_post");
      }
      if !(post.value.published && post.value.isPublic && !post.value.deactivated) {
        return Failure("forbidden");
      }
      if user !in wall.fans {
        wall := wall.(fans := wall.fans + {user}, count := wall.count + 1);
        return Success(Answer(true, wall.count));
      }
      wall := wall.(fans := wall.fans - {user}, count := wall.count - 1);
      r := Success(Answer(false, if wall.count < 0 then 0 else wall.count));
    }
  }

  // The database calls of one toggle: the create, and if the row was there the
  // delete.
  function Toggled(w: Wall, call: nat, user: nat): Wall {
    Apply(Apply(w, TryCreate(call, user)), Delete(call))
  }

  // Two undisturbed toggles of one user cancel out, whichever way they start, and
  // each changes the count by one.
  lemma ToggleTwiceIsNothing(w: Wall, call: nat, user: nat)
    requires w.count == |w.fans| && call !in w.undoing
    ensures
      var once := Toggled(w, call, user);
      && (user in once.fans <==> user !in w.fans)
      && once.count == w.count + (if user in w.fans then -1 else 1)
      && Toggled(once, call, user) == w
  {
    var once := Toggled(w, call, user);
    assert w.undoing[call := user] - {call} == w.undoing;
    if user in w.fans {
      assert once == Wall(w.fans - {user}, w.count - 1, w.undoing);
      assert w.fans - {user} + {user} == w.fans;
      assert Apply(Apply(once, TryCreate(call, user)), Delete(call)) == Apply(once, TryCreate(call, user));
    } else {
      assert once == Wall(w.fans + {user}, w.count + 1, w.undoing);
      assert w.fans + {user} - {user} == w.fans;
    }
  }
}

// The privacy filter in front of the ledger's free-form metadata
// (stripSensitive in src/financial/financial-ledger.service.ts).

module LedgerMetadata {
  import opened Wrappers
  import opened Text

  datatype Json =
    | Null
    | Bool(b: bool)
    | Number(n: real)
    | Str(s: string)
    | Arr(items: seq<Json>)
    | Obj(fields: seq<Field>)

  datatype Field = Field(key: string, value: Json)

  const SENSITIVE_METADATA_KEYS: set<string> := {
    "address", "addressline", "addressline1", "addressline2", "line1", "line2",
    "street", "building", "buildingnumber", "district", "neighborhood", "city",
    "region", "postalcode", "zip", "phone", "phonenumber", "mobile",
    "recipientaddress", "recipientphone", "lat", "lng", "latitude", "longitude",
    "coordinates", "geo"
  }

  predicate IsSensitive(key: string) {
    Lower(key) in SENSITIVE_METADATA_KEYS
  }


  function StripSensitive(value: Json): Json {
    match value
    case Arr(items) => Arr(StripItems(items))
    case Obj(fields) => Obj(StripFields(fields))
    case _ => value
  }

  function StripItems(items: seq<Json>): seq<Json> {
    if items == [] then [] else [StripSensitive(items[0])] + StripItems(items[1..])
  }

  // The entries of an object, in order: a sensitive one is skipped.
  function StripFields(fields: seq<Field>): seq<Field> {
    if fields == [] then []
    else if IsSensitive(fields[0].key) then StripFields(fields[1..])
    else [Field(fields[0].key, StripSensitive(fields[0].value))] + StripFields(fields[1..])
  }

  // No sensitive key at any depth.
  predicate IsClean(value: Json) {
    match value
    case Arr(items) => forall i :: 0 <= i < |items| ==> IsClean(items[i])
    case Obj(fields) => forall i :: 0 <= i < |fields| ==> !IsSensitive(fields[i].key) && IsClean(fields[i].value)
    case _ => true
  }

  lemma {:induction false} StrippedIsClean(value: Json)
    ensures IsClean(StripSensitive(value))
  {
    match value {
      case Arr(items) => StrippedItemsAreClean(items);
      case Obj(fields) => StrippedFieldsAreClean(fields);
      case _ =>
    }
  }

  lemma {:induction false} StrippedItemsAreClean(items: seq<Json>)
    ensures forall i :: 0 <= i < |StripItems(items)| ==> IsClean(StripItems(items)[i])
  {
    if items != [] {
      StrippedIsClean(items[0]);
      StrippedItemsAreClean(items[1..]);
    }
  }

  lemma {:induction false} StrippedFieldsAreClean(fields: seq<Field>)
    ensures forall i :: 0 <= i < |StripFields(fields)| ==>
      !IsSensitive(StripFields(fields)[i].key) && IsClean(StripFields(fields)[i].value)
  {
    if fields != [] {
      StrippedIsClean(fields[0].value);
      StrippedFieldsAreClean(fields[1..]);
    }
  }

  lemma {:induction false} CleanIsKept(value: Json)
    requires IsClean(value)
    ensures StripSensitive(value) == value
  {
    match value {
      case Arr(items) => CleanItemsAreKept(items);
      case Obj(fields) => CleanFieldsAreKept(fields);
      case _ =>
    }
  }

  lemma {:induction false} CleanItemsAreKept(items: seq<Json>)
    requires forall i :: 0 <= i < |items| ==> IsClean(items[i])
    ensures StripItems(items) == items
  {
    if items != [] {
      CleanIsKept(items[0]);
      CleanItemsAreKept(items[1..]);
    }
  }

  lemma {:induction false} CleanFieldsAreKept(fields: seq<Field>)
    requires forall i :: 0 <= i < |fields| ==> !IsSensitive(fields[i].key) && IsClean(fields[i].value)
    ensures StripFields(fields) == fields
  {
    if fields != [] {
      CleanIsKept(fields[0].value);
      CleanFieldsAreKept(fields[1..]);
    }
  }

  // The filter changes nothing exactly when there is nothing to remove.
  lemma StripChangesOnlyTheSensitive(value: Json)
    ensures StripSensitive(value) == value <==> IsClean(value)
  {
    StrippedIsClean(value);
    if IsClean(value) {
      CleanIsKept(value);
    }
  }

  // A key is sensitive exactly if it is a listed one in whatever case.
  lemma SensitiveExactlyWhen(key: string)
    ensures IsSensitive(key) <==> exists s :: s in SENSITIVE_METADATA_KEYS && SameLetters(key, s)
  {
    assert Lower(key) in SENSITIVE_METADATA_KEYS ==> SameLetters(key, Lower(key));
    forall s | s in SENSITIVE_METADATA_KEYS && SameLetters(key, s) ensures Lower(key) == s {
      assert forall i :: 0 <= i < |s| ==> Lower(key)[i] == s[i];
    }
  }

  predicate SameLetters(key: string, s: string) {
    |key| == |s| && forall i :: 0 <= i < |s| ==> LowerChar(key[i]) == s[i]
  }

  // ── What survives, place by place ─────────────────────────────────

  datatype Place = At(index: nat) | Under(key: string)

  function FieldOf(fields: seq<Field>, key: string): Option<Json> {
    if fields == [] then None
    else if fields[0].key == key then Some(fields[0].value)
    else FieldOf(fields[1..], key)
  }

  function Child(value: Json, place: Place): Option<Json> {
    match place
    case At(i) => if value.Arr? && i < |value.items| then Some(value.items[i]) else None
    case Under(key) => if value.Obj? then FieldOf(value.fields, key) else None
  }

  function Lookup(value: Json, path: seq<Place>): Option<Json>
    decreases |path|
  {
    if path == [] then Some(value)
    else
      var child := Child(value, path[0]);
      if child.None? then None else Lookup(child.value, path[1..])
  }

  predicate CrossesSensitive(path: seq<Place>) {
    exists i :: 0 <= i < |path| && path[i].Under? && IsSensitive(path[i].key)
  }

  // Following any path into the filtered value finds nothing if the path crosses
  // a sensitive key, and otherwise exactly what was there, itself filtered:
  // every other key keeps its place and every array its length.
  lemma {:induction false} FilteredLookup(value: Json, path: seq<Place>)
    ensures Lookup(StripSensitive(value), path) ==
      (if CrossesSensitive(path) then None
       else
         var found := Lookup(value, path);
         if found.None? then None else Some(StripSensitive(found.value)))
    decreases |path|
  {
    if path != [] {
      var place, rest := path[0], path[1..];
      FilteredChild(value, place);
      assert CrossesSensitive(path) <==> CrossesSensitive([place]) || CrossesSensitive(rest) by {
        CrossingSplits(path);
      }
      assert CrossesSensitive([place]) <==> place.Under? && IsSensitive(place.key) by {
        if place.Under? && IsSensitive(place.key) {
          assert [place][0].Under? && IsSensitive([place][0].key);
        }
      }
      var child := Child(value, place);
      if child.Some? {
        FilteredLookup(child.value, rest);
      }
    }
  }

  lemma CrossingSplits(path: seq<Place>)
    requires path != []
    ensures CrossesSensitive(path) <==> CrossesSensitive([path[0]]) || CrossesSensitive(path[1..])
  {
    if CrossesSensitive([path[0]]) {
      var i :| 0 <= i < 1 && [path[0]][i].Under? && IsSensitive([path[0]][i].key);
      assert path[0].Under?;
    }
    if CrossesSensitive(path[1..]) {
      var i :| 0 <= i < |path[1..]| && path[1..][i].Under? && IsSensitive(path[1..][i].key);
      assert path[i + 1].Under?;
    }
    if CrossesSensitive(path) {
      var i :| 0 <= i < |path| && path[i].Under? && IsSensitive(path[i].key);
      if i == 0 {
        assert [path[0]][0].Under?;
      } else {
        assert path[1..][i - 1].Under?;
      }
    }
  }

  lemma FilteredChild(value: Json, place: Place)
    ensures Child(StripSensitive(value), place) ==
      (if place.Under? && IsSensitive(place.key) then None
       else
         var child := Child(value, place);
         if child.None? then None else Some(StripSensitive(child.value)))
  {
    if value.Arr? {
      StripItemsIsPointwise(value.items);
    }
    if value.Obj? && place.Under? {
      FilteredField(value.fields, place.key);
    }
  }

  lemma {:induction false} StripItemsIsPointwise(items: seq<Json>)
    ensures |StripItems(items)| == |items|
    ensures forall i :: 0 <= i < |items| ==> StripItems(items)[i] == StripSensitive(items[i])
  {
    if items != [] {
      StripItemsIsPointwise(items[1..]);
    }
  }

  lemma {:induction false} FilteredField(fields: seq<Field>, key: string)
    ensures FieldOf(StripFields(fields), key) ==
      (if IsSensitive(key) then None
       else
         var found := FieldOf(fields, key);
         if found.None? then None else Some(StripSensitive(found.value)))
  {
    if fields != [] {
      FilteredField(fields[1..], key);
      if !IsSensitive(fields[0].key) {
        var kept := Field(fields[0].key, StripSensitive(fields[0].value));
        assert StripFields(fields)[1..] == StripFields(fields[1..]);
        assert StripFields(fields)[0] == kept;
      }
    }
  }
}

/** The parts of the crawler's `UserManager` that decide what is stored:
    turning a GeoNames search result into a place document, normalising a
    Twitter user for MongoDB, the follower ids still to crawl, the `is_swiss`
    flag, `_add_geonames_information` with the web API's answer as a
    parameter, and updating a user by screen name. A Twitter user object is
    the `Doc` of its attributes; the collections are in-memory stores. */
module UserManager {
  import opened Common
  import Constants
  import Mongo

  // ------------------------------------------ _parse_geonames_information

  /** The fields a GeoNames result must carry, in the order they are checked. */
  const RequiredFields: seq<string> := ["geonameId", "countryId", "toponymName", "population", "adminName1",
                                        "adminCode1", "countryName", "countryCode", "lng", "lat"]

  /** The key each required field is stored under, position by position. */
  const PlaceFields: seq<string> := ["geonames_id", "country_id", "name", "population", "state",
                                     "state_code", "country_name", "country_code", "lng", "lat"]

  predicate Distinct(s: seq<string>)
  {
    forall i, j :: 0 <= i < j < |s| ==> s[i] != s[j]
  }

  lemma PlaceFieldsDistinct()
    ensures Distinct(PlaceFields)
  {
    forall i, j | 0 <= i < j < |PlaceFields| ensures PlaceFields[i] != PlaceFields[j] {
      var a, b := PlaceFields[i], PlaceFields[j];
      if |a| == |b| {
        if |a| == 3 {
          assert a[1] != b[1];
        } else if |a| == 12 {
          assert a[8] != b[8];
        } else {
          assert a[0] != b[0];
        }
      }
    }
  }

  /** A required field is present, not None and not "". */
  predicate Usable(result: Doc, field: string)
  {
    field in result && result[field] != JNull && result[field] != JStr("")
  }

  /** The check loop: no field is rejected. */
  function AllUsable(result: Doc, fields: seq<string>): (r: bool)
    ensures r <==> forall k :: 0 <= k < |fields| ==> Usable(result, fields[k])
  {
    if |fields| == 0 then true
    else
      assert forall k :: 1 <= k < |fields| ==> fields[k] == fields[1..][k - 1];
      Usable(result, fields[0]) && AllUsable(result, fields[1..])
  }

  /** The dict display: each `to[k]` holds `src[from[k]]`. */
  function Renamed(src: Doc, from: seq<string>, to: seq<string>): Doc
    requires |from| == |to| && forall k :: 0 <= k < |from| ==> from[k] in src
  {
    if |from| == 0 then map[]
    else Renamed(src, from[..|from| - 1], to[..|to| - 1])[to[|to| - 1] := src[from[|from| - 1]]]
  }

  lemma {:induction false} RenamedKeys(src: Doc, from: seq<string>, to: seq<string>)
    requires |from| == |to| && forall k :: 0 <= k < |from| ==> from[k] in src
    ensures forall key :: key in Renamed(src, from, to) <==> key in to
  {
    if |from| > 0 {
      var n := |from| - 1;
      RenamedKeys(src, from[..n], to[..n]);
      assert to == to[..n] + [to[n]];
    }
  }

  lemma {:induction false} RenamedCopies(src: Doc, from: seq<string>, to: seq<string>)
    requires |from| == |to| && forall k :: 0 <= k < |from| ==> from[k] in src
    requires Distinct(to)
    ensures forall k :: 0 <= k < |to| ==> to[k] in Renamed(src, from, to) && Renamed(src, from, to)[to[k]] == src[from[k]]
  {
    if |from| > 0 {
      var n := |from| - 1;
      var init, fromInit := to[..n], from[..n];
      assert Distinct(init) by {
        forall i, j | 0 <= i < j < |init| ensures init[i] != init[j] {
          assert init[i] == to[i] && init[j] == to[j];
        }
      }
      RenamedCopies(src, fromInit, init);
      var r := Renamed(src, fromInit, init);
      forall k | 0 <= k < |to| ensures to[k] in r[to[n] := src[from[n]]] && r[to[n] := src[from[n]]][to[k]] == src[from[k]] {
        if k < n {
          assert init[k] == to[k] && fromInit[k] == from[k] && to[k] != to[n];
        }
      }
    }
  }

  /** `_parse_geonames_information`: None for no result or a result missing
      a usable required field, else the place document. */
  function ParseGeonamesInformation(result: Option<Doc>): Option<Doc>
  {
    if result.None? || !AllUsable(result.value, RequiredFields) then None
    else Some(Renamed(result.value, RequiredFields, PlaceFields))
  }

  /** A result is rejected exactly when it is None or one of the ten fields
      is missing, None or "". */
  lemma ParseRejects(result: Option<Doc>)
    ensures ParseGeonamesInformation(result).None? <==>
              result.None? || exists k :: 0 <= k < |RequiredFields| && !Usable(result.value, RequiredFields[k])
  {
  }

  /** An accepted result gives exactly the ten renamed keys, each holding the
      value of its GeoNames field unchanged. */
  lemma ParseCopies(result: Option<Doc>)
    requires ParseGeonamesInformation(result).Some?
    ensures var place := ParseGeonamesInformation(result).value;
            && (forall key :: key in place <==> key in PlaceFields)
            && (forall k :: 0 <= k < |PlaceFields| ==> place[PlaceFields[k]] == result.value[RequiredFields[k]])
  {
    PlaceFieldsDistinct();
    RenamedKeys(result.value, RequiredFields, PlaceFields);
    RenamedCopies(result.value, RequiredFields, PlaceFields);
  }

  // ------------------------------------------- _normalize_user_for_mongo

  /** `getattr(user, field)` */
  function GetAttr(user: Doc, field: string): (r: Result<Json>)
    ensures r.Ok? <==> field in user
    ensures r.Ok? ==> r.value == user[field]
  {
    if field in user then Ok(user[field]) else Raised("AttributeError", field)
  }

  /** The dict after the loop over `collect_user_fields`. */
  function Collected(user: Doc, fields: seq<string>): Result<Doc>
  {
    if |fields| == 0 then Ok(map[])
    else match Collected(user, fields[..|fields| - 1])
      case Raised(e, m) => Raised(e, m)
      case Ok(d) =>
        match GetAttr(user, fields[|fields| - 1])
        case Raised(e, m) => Raised(e, m)
        case Ok(v) => Ok(d[fields[|fields| - 1] := v])
  }

  /** The loop fails on the first missing attribute; otherwise every
      configured field is copied from the user and nothing else is added. */
  lemma {:induction false} CollectedCopies(user: Doc, fields: seq<string>)
    ensures Collected(user, fields).Ok? <==> forall k :: 0 <= k < |fields| ==> fields[k] in user
    ensures Collected(user, fields).Raised? ==> Collected(user, fields).exception == "AttributeError"
    ensures Collected(user, fields).Ok? ==>
              forall key :: key in Collected(user, fields).value <==> key in fields
    ensures Collected(user, fields).Ok? ==>
              forall key :: key in Collected(user, fields).value ==> Collected(user, fields).value[key] == user[key]
  {
    if |fields| > 0 {
      var init := fields[..|fields| - 1];
      CollectedCopies(user, init);
      assert forall k :: 0 <= k < |init| ==> init[k] == fields[k];
      assert fields == init + [fields[|fields| - 1]];
    }
  }

  /** The `user_place` dict; its values are read in display order. */
  function UserPlace(user: Doc): Result<Json>
  {
    match GetAttr(user, "time_zone")
    case Raised(e, m) => Raised(e, m)
    case Ok(timeZone) =>
      match GetAttr(user, "utc_offset")
      case Raised(e, m) => Raised(e, m)
      case Ok(utcOffset) =>
        match GetAttr(user, "location")
        case Raised(e, m) => Raised(e, m)
        case Ok(location) =>
          Ok(JObj(map["time_zone" := timeZone, "utc_offset" := utcOffset, "location" := location]))
  }

  /** `_normalize_user_for_mongo(user, influencer_category)`, with Python's
      None as `JNull`. */
  function NormalizedUser(user: Doc, fields: seq<string>, category: Json): Result<Doc>
  {
    match Collected(user, fields)
    case Raised(e, m) => Raised(e, m)
    case Ok(d) =>
      match UserPlace(user)
      case Raised(e, m) => Raised(e, m)
      case Ok(place) =>
        var standard := d["user_place" := place]["type" := JStr(Constants.UserTypeValue(Constants.Standard))];
        if category == JNull then Ok(standard)
        else Ok(standard["type" := JStr(Constants.UserTypeValue(Constants.Influencer))]["influencer_category" := category])
  }

  /** Normalisation fails (AttributeError) exactly when a configured field or
      one of the three place attributes is missing. */
  lemma NormalizedFails(user: Doc, fields: seq<string>, category: Json)
    ensures NormalizedUser(user, fields, category).Ok? <==>
              (forall k :: 0 <= k < |fields| ==> fields[k] in user)
              && "time_zone" in user && "utc_offset" in user && "location" in user
    ensures NormalizedUser(user, fields, category).Raised? ==>
              NormalizedUser(user, fields, category).exception == "AttributeError"
  {
    CollectedCopies(user, fields);
  }

  /** The type is "standard" without a category; with one it is "influencer"
      and the category is stored. `user_place` holds exactly the time zone,
      UTC offset and location. Every other configured field is the user's. */
  lemma NormalizedShape(user: Doc, fields: seq<string>, category: Json)
    requires NormalizedUser(user, fields, category).Ok?
    ensures var n := NormalizedUser(user, fields, category).value;
            && n["type"] == JStr(if category == JNull then "standard" else "influencer")
            && (category != JNull ==> n["influencer_category"] == category)
            && n["user_place"].JObj?
            && (forall key :: key in n["user_place"].fields <==> key in ["time_zone", "utc_offset", "location"])
            && n["user_place"].fields["time_zone"] == user["time_zone"]
            && n["user_place"].fields["utc_offset"] == user["utc_offset"]
            && n["user_place"].fields["location"] == user["location"]
            && (forall key :: key in n <==>
                  key in fields || key == "user_place" || key == "type" || (category != JNull && key == "influencer_category"))
            && (forall key :: (key in fields && key != "user_place" && key != "type"
                                && (category == JNull || key != "influencer_category")) ==> key in user && n[key] == user[key])
  {
    CollectedCopies(user, fields);
  }

  /** The loop of `_normalize_user_for_mongo` over `collect_user_fields`. */
  method NormalizeUserForMongo(user: Doc, fields: seq<string>, category: Json) returns (r: Result<Doc>)
    ensures r == NormalizedUser(user, fields, category)
  {
    var normalized: Doc := map[];
    var i := 0;
    while i < |fields|
      invariant i <= |fields|
      invariant Collected(user, fields[..i]) == Ok(normalized)
    {
      assert fields[..i + 1][..i] == fields[..i];
      if fields[i] !in user {
        CollectedRaisedPrefix(user, fields, i + 1);
        return Raised("AttributeError", fields[i]);
      }
      normalized := normalized[fields[i] := user[fields[i]]];
      i := i + 1;
    }
    assert fields[..i] == fields;
    var place := UserPlace(user);
    if place.Raised? {
      return Raised(place.exception, place.message);
    }
    normalized := normalized["user_place" := place.value];
    normalized := normalized["type" := JStr(Constants.UserTypeValue(Constants.Standard))];
    if category != JNull {
      normalized := normalized["type" := JStr(Constants.UserTypeValue(Constants.Influencer))];
      normalized := normalized["influencer_category" := category];
    }
    r := Ok(normalized);
  }

  lemma {:induction false} CollectedRaisedPrefix(user: Doc, fields: seq<string>, n: nat)
    requires n <= |fields| && Collected(user, fields[..n]).Raised?
    ensures Collected(user, fields) == Collected(user, fields[..n])
    decreases |fields| - n
  {
    if n < |fields| {
      assert fields[..n + 1][..n] == fields[..n];
      CollectedRaisedPrefix(user, fields, n + 1);
    } else {
      assert fields[..n] == fields;
    }
  }

  // ----------------------------- _fetch_uncrawled_follower_ids_for_influencer

  /** The query `{"id": {"$in": ids}}`. */
  function IdIn(ids: seq<Json>): Doc -> bool
  {
    d => Get(d, "id") in ids
  }

  /** The follower ids of an influencer that no stored user has: the key
      reads of the progress message, then `followerIds`, the `$in` query
      (which needs an array), the ids of the matches and the two sets. */
  function UncrawledFollowerIds(influencer: Doc, users: Mongo.Store): Result<set<Json>>
  {
    if "screen_name" !in influencer then Raised("KeyError", "screen_name")
    else if "id" !in influencer then Raised("KeyError", "id")
    else match Lookup(influencer, "followerIds")
      case Raised(e, m) => Raised(e, m)
      case Ok(followers) =>
        if !followers.JList? then Raised("OperationFailure", "$in needs an array")
        else match IdsOf(Mongo.Find(users.docs, IdIn(followers.items)))
          case Raised(e, m) => Raised(e, m)
          case Ok(existing) =>
            match SetOf(existing)
            case Raised(e, m) => Raised(e, m)
            case Ok(existingIds) =>
              match SetOf(followers.items)
              case Raised(e, m) => Raised(e, m)
              case Ok(followerIds) => Ok(followerIds - existingIds)
  }

  /** The uncrawled ids are exactly the followers that no stored user has as
      its id: a subset of the followers, disjoint from the stored ids, each
      once. */
  lemma UncrawledMeaning(influencer: Doc, users: Mongo.Store)
    requires UncrawledFollowerIds(influencer, users).Ok?
    ensures "followerIds" in influencer && influencer["followerIds"].JList?
    ensures forall x :: x in UncrawledFollowerIds(influencer, users).value <==>
              x in influencer["followerIds"].items && forall d :: d in users.docs ==> Get(d, "id") != x
  {
    var followers := influencer["followerIds"].items;
    var matches := Mongo.Find(users.docs, IdIn(followers));
    var existing := IdsOf(matches).value;
    forall x | x in followers ensures x in existing <==> exists d :: d in users.docs && Get(d, "id") == x {
      if x in existing {
        var k :| 0 <= k < |existing| && existing[k] == x;
        assert matches[k] in users.docs && Get(matches[k], "id") == x;
      }
      if d :| d in users.docs && Get(d, "id") == x {
        assert d in matches;
        var k :| 0 <= k < |matches| && matches[k] == d;
        assert existing[k] == x;
      }
    }
  }

  /** A follower list that is not an array is refused by the `$in` query, and
      an unhashable follower id makes `set()` raise TypeError. */
  lemma UncrawledFailures(influencer: Doc, users: Mongo.Store)
    requires "screen_name" in influencer && "id" in influencer && "followerIds" in influencer
    ensures !influencer["followerIds"].JList? ==>
              UncrawledFollowerIds(influencer, users) == Raised("OperationFailure", "$in needs an array")
    ensures influencer["followerIds"].JList? && IdsOf(Mongo.Find(users.docs, IdIn(influencer["followerIds"].items))).Ok?
            && (exists k :: 0 <= k < |influencer["followerIds"].items| && !Hashable(influencer["followerIds"].items[k])) ==>
              UncrawledFollowerIds(influencer, users) == Raised("TypeError", "unhashable type")
  {
  }

  /** The loop collecting the ids of the stored followers, then the set difference. */
  method FetchUncrawledFollowerIds(influencer: Doc, users: Mongo.Store) returns (r: Result<set<Json>>)
    ensures r == UncrawledFollowerIds(influencer, users)
  {
    if "screen_name" !in influencer {
      return Raised("KeyError", "screen_name");
    }
    if "id" !in influencer {
      return Raised("KeyError", "id");
    }
    if "followerIds" !in influencer {
      return Raised("KeyError", "followerIds");
    }
    var followers := influencer["followerIds"];
    if !followers.JList? {
      return Raised("OperationFailure", "$in needs an array");
    }
    var cursor := Mongo.Find(users.docs, IdIn(followers.items));
    var existing: seq<Json> := [];
    var i := 0;
    while i < |cursor|
      invariant i <= |cursor|
      invariant IdsOf(cursor[..i]) == Ok(existing)
    {
      assert cursor[..i + 1][..i] == cursor[..i];
      if "id" !in cursor[i] {
        return Raised("KeyError", "id");
      }
      existing := existing + [cursor[i]["id"]];
      i := i + 1;
    }
    assert cursor[..i] == cursor;
    var existingIds := SetOf(existing);
    if existingIds.Raised? {
      return Raised(existingIds.exception, existingIds.message);
    }
    var followerIds := SetOf(followers.items);
    if followerIds.Raised? {
      return Raised(followerIds.exception, followerIds.message);
    }
    r := Ok(followerIds.value - existingIds.value);
  }

  // ------------------------------------------------ _set_is_swiss_for_cursor

  /** The query `{"user_place.geonames_id": {"$exists": True}, "is_swiss": {"$exists": False}}`. */
  predicate NeedsSwissFlag(d: Doc)
  {
    "user_place" in d && d["user_place"].JObj? && "geonames_id" in d["user_place"].fields && "is_swiss" !in d
  }

  /** One user of the loop: None when its place is unknown (the error
      message reads the user's "id"), else the user with `is_swiss` set. */
  function SwissFlag(user: Doc, places: Mongo.Store): Result<Option<Doc>>
  {
    match Lookup(user, "user_place")
    case Raised(e, m) => Raised(e, m)
    case Ok(userPlace) =>
      match Subscript(userPlace, "geonames_id")
      case Raised(e, m) => Raised(e, m)
      case Ok(id) =>
        match Mongo.FindOne(places, Mongo.FieldIs("geonames_id", id))
        case None =>
          if "id" in user then Ok(None) else Raised("KeyError", "id")
        case Some(place) =>
          match Lookup(place, "country_code")
          case Raised(e, m) => Raised(e, m)
          case Ok(code) => Ok(Some(user["is_swiss" := JBool(code == JStr("CH"))]))
  }

  /** What the loop leaves in place of a stored user. */
  function Flagged(user: Doc, places: Mongo.Store): Doc
  {
    if NeedsSwissFlag(user) && SwissFlag(user, places).Ok? && SwissFlag(user, places).value.Some?
    then SwissFlag(user, places).value.value
    else user
  }

  /** A user whose place is stored gets `is_swiss` true exactly when the
      first place with its geonames_id is in country "CH", and keeps every
      other field; a user whose geonames_id has no place is left unchanged. */
  lemma FlaggedMeaning(user: Doc, places: Mongo.Store)
    requires NeedsSwissFlag(user) && SwissFlag(user, places).Ok?
    ensures var id := user["user_place"].fields["geonames_id"];
            && (Mongo.FindOne(places, Mongo.FieldIs("geonames_id", id)).None? ==> Flagged(user, places) == user)
            && (Mongo.FindOne(places, Mongo.FieldIs("geonames_id", id)).Some? ==>
                  var place := Mongo.FindOne(places, Mongo.FieldIs("geonames_id", id)).value;
                  && place in places.docs && Get(place, "geonames_id") == id
                  && Flagged(user, places)["is_swiss"] == JBool(place["country_code"] == JStr("CH"))
                  && forall key :: key != "is_swiss" ==>
                       (key in Flagged(user, places) <==> key in user)
                       && (key in user ==> Flagged(user, places)[key] == user[key]))
  {
  }

  /** The collection once the loop has handled its first `i` users. */
  function FlaggedPrefix(users: Mongo.Store, places: Mongo.Store, i: nat): (s: Mongo.Store)
    requires i <= |users.docs|
    ensures |s.docs| == |users.docs| && s.nextOid == users.nextOid
    ensures s.docs[..i] == seq(i, k requires 0 <= k < i => Flagged(users.docs[k], places))
    ensures s.docs[i..] == users.docs[i..]
  {
    Mongo.Store(seq(|users.docs|, k requires 0 <= k < |users.docs| => if k < i then Flagged(users.docs[k], places) else users.docs[k]),
                users.nextOid)
  }

  /** The loop stopped at user `i` with exception `e`: every user before it
      was handled and saved, user `i` and the ones after it are untouched. */
  ghost predicate StoppedAt(users: Mongo.Store, places: Mongo.Store, after: Mongo.Store, e: string, m: string)
  {
    exists i :: 0 <= i < |users.docs| && after == FlaggedPrefix(users, places, i)
                && NeedsSwissFlag(users.docs[i]) && SwissFlag(users.docs[i], places) == Raised(e, m)
  }

  /** The loop's progress predicate pins the collection down. */
  lemma UpToIsPrefix(users: Mongo.Store, after: Mongo.Store, places: Mongo.Store, i: nat)
    requires FlaggedUpTo(users, after, places, i)
    ensures after == FlaggedPrefix(users, places, i)
  {
    var p := FlaggedPrefix(users, places, i);
    assert after.docs == p.docs by {
      forall k | 0 <= k < |after.docs| ensures after.docs[k] == p.docs[k] {
        if k < i { assert p.docs[..i][k] == p.docs[k]; } else { assert p.docs[i..][k - i] == p.docs[k]; }
      }
    }
  }

  /** `_set_is_swiss_for_cursor` over the users matching the query, in
      natural order: each one with a known place is saved back, in place,
      with `is_swiss`; the first error stops the loop. The cursor is walked
      as the collection itself, skipping the users the query excludes. */
  method SetIsSwissForCursor(users: Mongo.Store, places: Mongo.Store) returns (r: Result<()>, after: Mongo.Store)
    requires Mongo.Valid(users)
    ensures Mongo.Valid(after)
    ensures r.Ok? <==> forall d :: d in users.docs && NeedsSwissFlag(d) ==> SwissFlag(d, places).Ok?
    ensures r.Ok? ==> && |after.docs| == |users.docs| && after.nextOid == users.nextOid
                      && forall k :: 0 <= k < |users.docs| ==> after.docs[k] == Flagged(users.docs[k], places)
    ensures r.Ok? ==> after == FlaggedPrefix(users, places, |users.docs|)
    ensures r.Raised? ==> StoppedAt(users, places, after, r.exception, r.message)
  {
    after := users;
    var i := 0;
    while i < |users.docs|
      invariant i <= |users.docs|
      invariant Mongo.Valid(after)
      invariant FlaggedUpTo(users, after, places, i)
    {
      var user := users.docs[i];
      if NeedsSwissFlag(user) {
        var flag := SwissFlag(user, places);
        if flag.Raised? {
          UpToIsPrefix(users, after, places, i);
          return Raised(flag.exception, flag.message), after;
        }
      }
      if NeedsSwissFlag(user) && SwissFlag(user, places).value.Some? {
        FlaggedSave(users, after, places, i);
        after := Mongo.Save(after, SwissFlag(user, places).value.value);
      } else {
        FlaggedSkip(users, after, places, i);
      }
      i := i + 1;
    }
    forall d | d in users.docs && NeedsSwissFlag(d) ensures SwissFlag(d, places).Ok? {
      var k :| 0 <= k < |users.docs| && users.docs[k] == d;
    }
    UpToIsPrefix(users, after, places, i);
    r := Ok(());
  }

  /** The loop's progress: the first `i` users are flagged and could be,
      the rest are untouched. */
  ghost predicate FlaggedUpTo(users: Mongo.Store, after: Mongo.Store, places: Mongo.Store, i: nat)
  {
    && i <= |users.docs| && |after.docs| == |users.docs| && after.nextOid == users.nextOid
    && (forall k :: 0 <= k < i ==> after.docs[k] == Flagged(users.docs[k], places))
    && (forall k :: i <= k < |users.docs| ==> after.docs[k] == users.docs[k])
    && (forall k :: 0 <= k < i && NeedsSwissFlag(users.docs[k]) ==> SwissFlag(users.docs[k], places).Ok?)
  }

  /** One user of the loop that gets no flag: the progress advances by one
      with the collection unchanged. */
  lemma FlaggedSkip(users: Mongo.Store, after: Mongo.Store, places: Mongo.Store, i: nat)
    requires FlaggedUpTo(users, after, places, i) && i < |users.docs|
    requires NeedsSwissFlag(users.docs[i]) ==> SwissFlag(users.docs[i], places).Ok? && SwissFlag(users.docs[i], places).value.None?
    ensures FlaggedUpTo(users, after, places, i + 1)
  {
    assert after.docs[i] == Flagged(users.docs[i], places);
  }

  /** One user of the loop that gets a flag: saving it back writes it in
      place, so the progress advances by one and the collection stays valid. */
  lemma FlaggedSave(users: Mongo.Store, after: Mongo.Store, places: Mongo.Store, i: nat)
    requires Mongo.Valid(after) && FlaggedUpTo(users, after, places, i) && i < |users.docs|
    requires NeedsSwissFlag(users.docs[i]) && SwissFlag(users.docs[i], places).Ok? && SwissFlag(users.docs[i], places).value.Some?
    ensures var next := Mongo.Save(after, SwissFlag(users.docs[i], places).value.value);
            Mongo.Valid(next) && FlaggedUpTo(users, next, places, i + 1)
  {
    SaveFlagged(after, i, places);
  }

  /** Saving a flagged user back writes it over the stored user, in place. */
  lemma SaveFlagged(s: Mongo.Store, i: nat, places: Mongo.Store)
    requires Mongo.Valid(s) && i < |s.docs| && NeedsSwissFlag(s.docs[i])
    requires SwissFlag(s.docs[i], places).Ok? && SwissFlag(s.docs[i], places).value.Some?
    ensures var e := SwissFlag(s.docs[i], places).value.value;
            Mongo.Valid(Mongo.Save(s, e)) && Mongo.Save(s, e) == Mongo.Store(s.docs[i := e], s.nextOid)
            && e == Flagged(s.docs[i], places)
  {
    var e := SwissFlag(s.docs[i], places).value.value;
    assert Mongo.IdOf(e) == Mongo.IdOf(s.docs[i]);
    Mongo.SaveUpserts(s, e);
    Mongo.SaveReplacesInPlace(s, e, i);
  }

  // ------------------------------------------------ _add_geonames_information

  /** What `_add_geonames_information` reports: `(True, None)`,
      `(False, None)`, `(False, ex)`, or the retry after the hourly wait. */
  datatype GeonamesOutcome = Added | NoLocation | Failed(exception: string, message: string) | RetryAfterHourlyWait

  /** `_store_geonames_place`: save the place unless its geonames_id is stored. */
  function StoreGeonamesPlace(places: Mongo.Store, place: Doc): Mongo.Store
    requires "geonames_id" in place
  {
    if Mongo.FindOne(places, Mongo.FieldIs("geonames_id", place["geonames_id"])).Some? then places else Mongo.Save(places, place)
  }

  /** After storing, some place carries the geonames_id, and every place
      stored before is still there. */
  lemma StoredPlaceFound(places: Mongo.Store, place: Doc)
    requires Mongo.Valid(places) && "geonames_id" in place && "_id" !in place
    ensures Mongo.Valid(StoreGeonamesPlace(places, place))
    ensures Mongo.FindOne(StoreGeonamesPlace(places, place), Mongo.FieldIs("geonames_id", place["geonames_id"])).Some?
    ensures forall d :: d in places.docs ==> d in StoreGeonamesPlace(places, place).docs
  {
    var p := Mongo.FieldIs("geonames_id", place["geonames_id"]);
    if Mongo.FindOne(places, p).None? {
      Mongo.SaveUpserts(places, place);
      Mongo.FindOneAfterInsert(places, p, place);
      forall d | d in places.docs ensures d in StoreGeonamesPlace(places, place).docs {
        assert Mongo.IdOf(d) != Mongo.IdOf(Mongo.Stamped(places, place));
      }
    }
  }

  /** A GeoNames place document never carries a MongoDB `_id`. */
  lemma ParsedHasNoId(result: Option<Doc>)
    requires ParseGeonamesInformation(result).Some?
    ensures "geonames_id" in ParseGeonamesInformation(result).value
    ensures "_id" !in ParseGeonamesInformation(result).value
  {
    ParseCopies(result);
    assert PlaceFields[0] == "geonames_id" && "_id" !in PlaceFields;
  }

  /** One call of `_add_geonames_information`: its outcome, the user dict
      (whose `user_place` it may update) and the places collection. */
  datatype GeonamesStep = GeonamesStep(outcome: Result<GeonamesOutcome>, user: Doc, places: Mongo.Store)

  /** `_add_geonames_information(user)` with the GeoNames search's outcome as
      `api`: its first place, none, or the exception it raised. A rate-limit
      exception always leads to the hourly wait and a retry, because the
      source tests the method `is_hourly` itself, which is always true,
      instead of calling it. */
  function AddGeonames(user: Doc, places: Mongo.Store, api: Result<Option<Doc>>): GeonamesStep
  {
    if "user_place" !in user then GeonamesStep(Raised("AssertionError", ""), user, places)
    else match Subscript(user["user_place"], "location")
      case Raised(e, m) => GeonamesStep(Raised(e, m), user, places)
      case Ok(location) =>
        var userPlace := user["user_place"].fields;
        if location == JNull || location == JStr("") then GeonamesStep(Ok(NoLocation), user, places)
        else if "geonames_id" in userPlace && Mongo.FindOne(places, Mongo.FieldIs("geonames_id", userPlace["geonames_id"])).Some? then
          GeonamesStep(Ok(Added), user, places)
        else if "screen_name" !in user then GeonamesStep(Raised("KeyError", "screen_name"), user, places)
        else match api
          case Raised(e, m) =>
            if e == "GeonamesRateLimitException" then GeonamesStep(Ok(RetryAfterHourlyWait), user, places)
            else if e == "GeonamesException" then GeonamesStep(Ok(Failed(e, m)), user, places)
            else GeonamesStep(Raised(e, m), user, places)
          case Ok(result) =>
            match ParseGeonamesInformation(result)
            case None => GeonamesStep(Ok(NoLocation), user, places)
            case Some(place) =>
              ParsedHasNoId(result);
              GeonamesStep(Ok(Added), user["user_place" := JObj(userPlace["geonames_id" := place["geonames_id"]])],
                           StoreGeonamesPlace(places, place))
  }

  /** The checks before the search: no `user_place` fails the assertion, an
      empty location reports no location, and a geonames_id whose place is
      stored is already done; none of them changes the user or the places. */
  lemma AddGeonamesBeforeSearch(user: Doc, places: Mongo.Store, api: Result<Option<Doc>>)
    ensures "user_place" !in user ==> AddGeonames(user, places, api).outcome == Raised("AssertionError", "")
    ensures "user_place" in user && user["user_place"].JObj? && "location" in user["user_place"].fields ==>
              var userPlace := user["user_place"].fields;
              && (userPlace["location"] in {JNull, JStr("")} ==> AddGeonames(user, places, api).outcome == Ok(NoLocation))
              && (userPlace["location"] !in {JNull, JStr("")} && "geonames_id" in userPlace
                  && Mongo.FindOne(places, Mongo.FieldIs("geonames_id", userPlace["geonames_id"])).Some? ==>
                    AddGeonames(user, places, api).outcome == Ok(Added))
    ensures AddGeonames(user, places, api).outcome != Ok(Added) ==>
              AddGeonames(user, places, api).user == user && AddGeonames(user, places, api).places == places
  {
  }

  /** Once the search is reached, a rate-limit exception means waiting for
      the next hour and retrying, another GeoNames exception is reported as
      the failure, and a search without a usable place reports no location. */
  lemma AddGeonamesSearchOutcome(user: Doc, places: Mongo.Store, api: Result<Option<Doc>>)
    requires "user_place" in user && user["user_place"].JObj? && "location" in user["user_place"].fields
    requires user["user_place"].fields["location"] !in {JNull, JStr("")} && "screen_name" in user
    requires "geonames_id" in user["user_place"].fields ==>
               Mongo.FindOne(places, Mongo.FieldIs("geonames_id", user["user_place"].fields["geonames_id"])).None?
    ensures api.Raised? && api.exception == "GeonamesRateLimitException" ==>
              AddGeonames(user, places, api).outcome == Ok(RetryAfterHourlyWait)
    ensures api.Raised? && api.exception == "GeonamesException" ==>
              AddGeonames(user, places, api).outcome == Ok(Failed("GeonamesException", api.message))
    ensures api.Ok? && ParseGeonamesInformation(api.value).None? ==>
              AddGeonames(user, places, api).outcome == Ok(NoLocation)
    ensures api.Ok? && ParseGeonamesInformation(api.value).Some? ==>
              AddGeonames(user, places, api).outcome == Ok(Added)
  {
  }

  /** When a place is added, the user's `user_place` carries the
      geonames_id of the parsed place, that place is then found in the
      collection, no stored place is lost, and the store stays valid. */
  lemma AddGeonamesStores(user: Doc, places: Mongo.Store, api: Result<Option<Doc>>)
    requires Mongo.Valid(places)
    ensures Mongo.Valid(AddGeonames(user, places, api).places)
    ensures forall d :: d in places.docs ==> d in AddGeonames(user, places, api).places.docs
    ensures AddGeonames(user, places, api).outcome == Ok(Added) ==>
              var after := AddGeonames(user, places, api);
              && "user_place" in after.user && after.user["user_place"].JObj?
              && "geonames_id" in after.user["user_place"].fields
              && Mongo.FindOne(after.places, Mongo.FieldIs("geonames_id", after.user["user_place"].fields["geonames_id"])).Some?
  {
    if "user_place" in user && Subscript(user["user_place"], "location").Ok? {
      var location := user["user_place"].fields["location"];
      var userPlace := user["user_place"].fields;
      if && location != JNull && location != JStr("") && "screen_name" in user && api.Ok?
         && !("geonames_id" in userPlace && Mongo.FindOne(places, Mongo.FieldIs("geonames_id", userPlace["geonames_id"])).Some?) {
        match ParseGeonamesInformation(api.value)
        case None =>
        case Some(place) =>
          ParsedHasNoId(api.value);
          StoredPlaceFound(places, place);
          assert AddGeonames(user, places, api)
              == GeonamesStep(Ok(Added), user["user_place" := JObj(userPlace["geonames_id" := place["geonames_id"]])],
                              StoreGeonamesPlace(places, place));
      }
    }
  }

  class UserManager {
    /** The users, the test-set users and the GeoNames places collections. */
    var users: Mongo.Store
    var usersTestSet: Mongo.Store
    var geonamesPlaces: Mongo.Store
    /** The `collect_user_fields` setting. */
    const collectUserFields: seq<string>

    ghost predicate Valid()
      reads this
    {
      Mongo.Valid(users) && Mongo.Valid(usersTestSet) && Mongo.Valid(geonamesPlaces)
    }

    constructor (collectUserFields: seq<string>)
      ensures Valid() && this.collectUserFields == collectUserFields
      ensures users == usersTestSet == geonamesPlaces == Mongo.Store([], 0)
    {
      this.collectUserFields := collectUserFields;
      users, usersTestSet, geonamesPlaces := Mongo.Store([], 0), Mongo.Store([], 0), Mongo.Store([], 0);
    }

    /** `set_is_swiss_property`: the users collection, then the test set;
        the first error ends the call. */
    method SetIsSwissProperty() returns (r: Result<()>)
      requires Valid()
      modifies this
      ensures Valid() && geonamesPlaces == old(geonamesPlaces)
      ensures r.Ok? ==> |users.docs| == |old(users.docs)| && |usersTestSet.docs| == |old(usersTestSet.docs)|
      ensures r.Ok? ==> forall k :: 0 <= k < |users.docs| ==> users.docs[k] == Flagged(old(users.docs)[k], geonamesPlaces)
      ensures r.Ok? ==> forall k :: 0 <= k < |usersTestSet.docs| ==>
                          usersTestSet.docs[k] == Flagged(old(usersTestSet.docs)[k], geonamesPlaces)
      ensures r.Raised? ==>
                || (StoppedAt(old(users), geonamesPlaces, users, r.exception, r.message) && usersTestSet == old(usersTestSet))
                || (users == FlaggedPrefix(old(users), geonamesPlaces, |old(users.docs)|)
                    && StoppedAt(old(usersTestSet), geonamesPlaces, usersTestSet, r.exception, r.message))
    {
      var after;
      r, after := SetIsSwissForCursor(users, geonamesPlaces);
      users := after;
      if r.Raised? {
        return;
      }
      r, after := SetIsSwissForCursor(usersTestSet, geonamesPlaces);
      usersTestSet := after;
    }

    /** `_add_geonames_information`, updating the places collection. */
    method AddGeonamesInformation(user: Doc, api: Result<Option<Doc>>) returns (r: Result<GeonamesOutcome>, updated: Doc)
      requires Valid()
      modifies this
      ensures Valid() && users == old(users) && usersTestSet == old(usersTestSet)
      ensures GeonamesStep(r, updated, geonamesPlaces) == AddGeonames(user, old(geonamesPlaces), api)
    {
      AddGeonamesStores(user, geonamesPlaces, api);
      updated := user;
      if "user_place" !in user {
        return Raised("AssertionError", ""), updated;
      }
      var location := Subscript(user["user_place"], "location");
      if location.Raised? {
        return Raised(location.exception, location.message), updated;
      }
      var userPlace := user["user_place"].fields;
      if location.value == JNull || location.value == JStr("") {
        return Ok(NoLocation), updated;
      }
      if "geonames_id" in userPlace && Mongo.FindOne(geonamesPlaces, Mongo.FieldIs("geonames_id", userPlace["geonames_id"])).Some? {
        return Ok(Added), updated;
      }
      if "screen_name" !in user {
        return Raised("KeyError", "screen_name"), updated;
      }
      match api {
        case Raised(e, m) =>
          if e == "GeonamesRateLimitException" {
            r := Ok(RetryAfterHourlyWait);
          } else if e == "GeonamesException" {
            r := Ok(Failed(e, m));
          } else {
            r := Raised(e, m);
          }
        case Ok(result) =>
          var info := ParseGeonamesInformation(result);
          if info.None? {
            return Ok(NoLocation), updated;
          }
          ParsedHasNoId(result);
          updated := user["user_place" := JObj(userPlace["geonames_id" := info.value["geonames_id"]])];
          geonamesPlaces := StoreGeonamesPlace(geonamesPlaces, info.value);
          r := Ok(Added);
      }
    }

    /** `_update_user_in_mongo`: normalise the user as an influencer of the
        category, reuse the `_id` of a stored user with the same screen
        name, and save. */
    method UpdateUserInMongo(user: Doc, category: Json) returns (r: Result<()>)
      requires Valid()
      modifies this
      ensures Valid() && usersTestSet == old(usersTestSet) && geonamesPlaces == old(geonamesPlaces)
      ensures r.Ok? <==> UpdatedUsers(old(users), user, collectUserFields, category).Ok?
      ensures var u := UpdatedUsers(old(users), user, collectUserFields, category);
              r.Raised? ==> r == Raised(u.exception, u.message)
      ensures users == (if r.Ok? then UpdatedUsers(old(users), user, collectUserFields, category).value else old(users))
    {
      var n := NormalizeUserForMongo(user, collectUserFields, category);
      if n.Raised? {
        return Raised(n.exception, n.message);
      }
      var normalized := n.value;
      if "screen_name" !in normalized {
        return Raised("KeyError", "screen_name");
      }
      var existing := Mongo.FindOne(users, Mongo.FieldIs("screen_name", normalized["screen_name"]));
      if existing.Some? {
        normalized := normalized["_id" := existing.value["_id"]];
      }
      UpdatedUsersValid(old(users), user, collectUserFields, category);
      users := Mongo.Save(users, normalized);
      r := Ok(());
    }
  }

  /** The users collection after `_update_user_in_mongo`: the normalised
      user, under the `_id` of the first stored user with its screen name
      when there is one, saved. */
  function UpdatedUsers(users: Mongo.Store, user: Doc, fields: seq<string>, category: Json): Result<Mongo.Store>
  {
    match NormalizedUser(user, fields, category)
    case Raised(e, m) => Raised(e, m)
    case Ok(n) =>
      if "screen_name" !in n then Raised("KeyError", "screen_name")
      else match Mongo.FindOne(users, Mongo.FieldIs("screen_name", n["screen_name"]))
        case None => Ok(Mongo.Save(users, n))
        case Some(existing) => Ok(Mongo.Save(users, n["_id" := Mongo.IdOf(existing)]))
  }

  lemma UpdatedUsersValid(users: Mongo.Store, user: Doc, fields: seq<string>, category: Json)
    requires Mongo.Valid(users)
    ensures UpdatedUsers(users, user, fields, category).Ok? ==> Mongo.Valid(UpdatedUsers(users, user, fields, category).value)
  {
    match NormalizedUser(user, fields, category)
    case Raised(_, _) =>
    case Ok(n) =>
      if "screen_name" in n {
        match Mongo.FindOne(users, Mongo.FieldIs("screen_name", n["screen_name"]))
        case None => Mongo.SaveUpserts(users, n);
        case Some(existing) => Mongo.SaveUpserts(users, n["_id" := Mongo.IdOf(existing)]);
      }
  }

  /** The update fails exactly when normalisation fails or the normalised
      user has no screen name. */
  lemma UpdateFails(users: Mongo.Store, user: Doc, fields: seq<string>, category: Json)
    ensures UpdatedUsers(users, user, fields, category).Raised? <==>
              NormalizedUser(user, fields, category).Raised? || "screen_name" !in NormalizedUser(user, fields, category).value
    ensures NormalizedUser(user, fields, category).Raised? ==>
              var e := NormalizedUser(user, fields, category);
              UpdatedUsers(users, user, fields, category) == Raised(e.exception, e.message)
  {
  }

  /** A user whose screen name is stored replaces the first stored user with
      that name in place, keeping its `_id`; a new screen name is appended
      with a fresh ObjectId. Either way a lookup by the screen name then
      finds the normalised user. */
  lemma UpdateReusesId(users: Mongo.Store, user: Doc, fields: seq<string>, category: Json)
    requires Mongo.Valid(users) && UpdatedUsers(users, user, fields, category).Ok?
    ensures NormalizedUser(user, fields, category).Ok? && "screen_name" in NormalizedUser(user, fields, category).value
    ensures var n := NormalizedUser(user, fields, category).value;
            var byName := Mongo.FieldIs("screen_name", n["screen_name"]);
            var after := UpdatedUsers(users, user, fields, category).value;
            match Mongo.IndexWhere(users.docs, byName)
            case Some(k) =>
              && after == Mongo.Store(users.docs[k := n["_id" := users.docs[k]["_id"]]], users.nextOid)
              && Mongo.FindOne(after, byName) == Some(n["_id" := users.docs[k]["_id"]])
            case None =>
              "_id" !in n ==>
                && after == Mongo.Store(users.docs + [n["_id" := JOid(users.nextOid)]], users.nextOid + 1)
                && Mongo.FindOne(after, byName) == Some(n["_id" := JOid(users.nextOid)])
  {
    var n := NormalizedUser(user, fields, category).value;
    var byName := Mongo.FieldIs("screen_name", n["screen_name"]);
    match Mongo.IndexWhere(users.docs, byName)
    case Some(k) =>
      var e := n["_id" := users.docs[k]["_id"]];
      assert byName(e);
      Mongo.FindOneAfterReplace(users, byName, k, e);
    case None =>
      if "_id" !in n {
        assert byName(Mongo.Stamped(users, n));
        Mongo.FindOneAfterInsert(users, byName, n);
      }
  }
}

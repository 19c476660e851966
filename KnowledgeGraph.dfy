/** `KnowledgeGraph`: turning a stored Twitter user into the record handed to
    the graph database (`_normalize_user_for_graph`), inserting one user into
    the training layer, inserting every user not yet in the graph into the
    static layer and marking it in MongoDB, and reading a localization node
    back as a place id or a Swiss/not-Swiss answer. The graph database
    binding does nothing with what it is given, so the graph is the list of
    user records handed to it. */
module KnowledgeGraph {
  import opened Common
  import Mongo

  // ------------------------------------------------------- escaping names

  /** `s.replace("\\", "\\\\")`: every backslash doubled. */
  function Escaped(s: string): string
  {
    if |s| == 0 then ""
    else (if s[0] == '\\' then "\\\\" else [s[0]]) + Escaped(s[1..])
  }

  /** The inverse reading: a doubled backslash stands for one backslash. */
  function Unescaped(s: string): string
  {
    if |s| >= 2 && s[0] == '\\' && s[1] == '\\' then "\\" + Unescaped(s[2..])
    else if |s| > 0 then [s[0]] + Unescaped(s[1..])
    else ""
  }

  function Backslashes(s: string): nat
  {
    if |s| == 0 then 0 else (if s[0] == '\\' then 1 else 0) + Backslashes(s[1..])
  }

  /** The characters of `s` other than backslashes, in order. */
  function WithoutBackslashes(s: string): string
  {
    if |s| == 0 then "" else (if s[0] == '\\' then "" else [s[0]]) + WithoutBackslashes(s[1..])
  }

  /** Undoubling recovers the original name. */
  lemma {:induction false} EscapedRoundTrip(s: string)
    ensures Unescaped(Escaped(s)) == s
  {
    if |s| > 0 {
      var rest := Escaped(s[1..]);
      EscapedRoundTrip(s[1..]);
      if s[0] == '\\' {
        var e := "\\\\" + rest;
        assert Escaped(s) == e;
        assert e[2..] == rest;
        assert Unescaped(e) == "\\" + Unescaped(rest);
      } else {
        var e := [s[0]] + rest;
        assert Escaped(s) == e;
        assert e[1..] == rest;
        assert Unescaped(e) == [s[0]] + Unescaped(rest);
      }
      assert s == [s[0]] + s[1..];
    }
  }

  /** Doubling adds one character per backslash. */
  lemma {:induction false} EscapedLength(s: string)
    ensures |Escaped(s)| == |s| + Backslashes(s)
  {
    if |s| > 0 {
      EscapedLength(s[1..]);
    }
  }

  /** Every other character keeps its order. */
  lemma {:induction false} EscapedKeepsOthers(s: string)
    ensures WithoutBackslashes(Escaped(s)) == WithoutBackslashes(s)
  {
    if |s| > 0 {
      var rest := Escaped(s[1..]);
      EscapedKeepsOthers(s[1..]);
      if s[0] == '\\' {
        var e := "\\\\" + rest;
        assert e[1..][1..] == rest;
        assert WithoutBackslashes(e) == WithoutBackslashes(e[1..]) == WithoutBackslashes(rest);
      } else {
        var e := [s[0]] + rest;
        assert e[1..] == rest;
      }
    }
  }

  // ---------------------------------------------- _normalize_user_for_graph

  /** The layers of `Layers`: static data, and users added for training. */
  datatype Layer = Static | Training

  /** `layer.value` (Layers is not part of this model: each member is stored
      under its own name). */
  function LayerValue(l: Layer): Json
  {
    match l
    case Static => JStr("static")
    case Training => JStr("training")
  }

  /** `s.replace(...)` on a stored value: only a string has the method. */
  function EscapedField(j: Json): Result<string>
  {
    if j.JStr? then Ok(Escaped(j.s)) else Raised("AttributeError", "replace")
  }

  /** The dict literal, built key by key: `_id`, `id`, `name`,
      `screen_name` and `type` are looked up in that order, and the first
      failure is the exception raised. */
  function NormalizedForGraph(user: Doc, layer: Layer): Result<Doc>
  {
    match Lookup(user, "_id")
    case Raised(e, m) => Raised(e, m)
    case Ok(id) =>
      match Lookup(user, "id")
      case Raised(e, m) => Raised(e, m)
      case Ok(twitterId) =>
        match Lookup(user, "name")
        case Raised(e, m) => Raised(e, m)
        case Ok(name) =>
          match EscapedField(name)
          case Raised(e, m) => Raised(e, m)
          case Ok(escapedName) =>
            match Lookup(user, "screen_name")
            case Raised(e, m) => Raised(e, m)
            case Ok(screenName) =>
              match EscapedField(screenName)
              case Raised(e, m) => Raised(e, m)
              case Ok(escapedScreenName) =>
                match Lookup(user, "type")
                case Raised(e, m) => Raised(e, m)
                case Ok(userType) =>
                  Ok(map["mongo_id" := JStr(PyStr(id)), "twitter_id" := twitterId,
                         "name" := JStr(escapedName), "screen_name" := JStr(escapedScreenName),
                         "layer" := LayerValue(layer), "type" := userType])
  }

  predicate Normalizable(user: Doc)
  {
    && "_id" in user && "id" in user && "type" in user
    && "name" in user && user["name"].JStr?
    && "screen_name" in user && user["screen_name"].JStr?
  }

  /** The record has exactly the six keys: the printed `_id`, the Twitter id,
      both names with their backslashes doubled (so undoubling gives back
      the stored names), the layer and the user type. */
  lemma NormalizedShape(user: Doc, layer: Layer)
    requires Normalizable(user)
    ensures var r := NormalizedForGraph(user, layer);
            && r.Ok?
            && r.value.Keys == {"mongo_id", "twitter_id", "name", "screen_name", "layer", "type"}
            && r.value["mongo_id"] == JStr(PyStr(user["_id"]))
            && r.value["twitter_id"] == user["id"]
            && r.value["name"].JStr? && Unescaped(r.value["name"].s) == user["name"].s
            && r.value["screen_name"].JStr? && Unescaped(r.value["screen_name"].s) == user["screen_name"].s
            && r.value["layer"] == LayerValue(layer)
            && r.value["type"] == user["type"]
  {
    EscapedRoundTrip(user["name"].s);
    EscapedRoundTrip(user["screen_name"].s);
  }

  /** The record is built exactly when every field is there and both names
      are strings; a missing field raises KeyError naming it, a name that is
      not a string raises AttributeError. */
  lemma NormalizedFails(user: Doc, layer: Layer)
    ensures NormalizedForGraph(user, layer).Ok? <==> Normalizable(user)
    ensures "_id" !in user ==> NormalizedForGraph(user, layer) == Raised("KeyError", "_id")
    ensures "_id" in user && "id" !in user ==> NormalizedForGraph(user, layer) == Raised("KeyError", "id")
    ensures "_id" in user && "id" in user && "name" in user && !user["name"].JStr? ==>
              NormalizedForGraph(user, layer).Raised? && NormalizedForGraph(user, layer).exception == "AttributeError"
  {
  }

  /** The two layers are told apart in the graph. */
  lemma LayersDistinct()
    ensures LayerValue(Static) != LayerValue(Training)
  {
  }

  // ------------------------------------------------ reading localizations

  /** `fetch_localizations_for_user`: the final localization node read back
      as its place id, or, for a binary result, whether its country is
      Switzerland (`swissId` is `GEOID_SWITZERLAND`). */
  function LocalizationForUser(locNode: Doc, binaryResult: bool, swissId: Json): (r: Json)
    ensures binaryResult ==> (r == JBool(true) <==> Get(locNode, "country_id") == swissId)
    ensures binaryResult ==> r.JBool?
    ensures !binaryResult ==> r == Get(locNode, "geonames_id")
  {
    if binaryResult then JBool(Get(locNode, "country_id") == swissId) else Get(locNode, "geonames_id")
  }

  /** `fetch_final_decision_for_user`: whether the user was localized in
      Switzerland, and the confidence on the edge. */
  function FinalDecision(edge: Doc, locNode: Doc, swissId: Json): (r: (bool, Json))
    ensures r.0 <==> Get(locNode, "country_id") == swissId
    ensures r.1 == Get(edge, "confidence")
  {
    (Get(locNode, "country_id") == swissId, Get(edge, "confidence"))
  }

  /** `fetch_localization_results_for_model`: the user's Twitter id, the
      confidence and whether the localization is Swiss. */
  function ModelResult(userNode: Doc, edge: Doc, locNode: Doc, swissId: Json): (r: (Json, Json, bool))
    ensures r.0 == Get(userNode, "twitter_id") && r.1 == Get(edge, "confidence")
    ensures r.2 <==> Get(locNode, "country_id") == swissId
  {
    (Get(userNode, "twitter_id"), Get(edge, "confidence"), Get(locNode, "country_id") == swissId)
  }

  /** All three readings call the same node Swiss. */
  lemma SwissReadingsAgree(userNode: Doc, edge: Doc, locNode: Doc, swissId: Json)
    ensures FinalDecision(edge, locNode, swissId).0 == ModelResult(userNode, edge, locNode, swissId).2
    ensures LocalizationForUser(locNode, true, swissId) == JBool(FinalDecision(edge, locNode, swissId).0)
  {
  }

  // --------------------------------------------------- insert_static_users

  /** The query `{"$or": [{"in_graph": False}, {"in_graph": {"$exists": False}}]}`. */
  predicate NotInGraph(d: Doc)
  {
    "in_graph" !in d || d["in_graph"] == JBool(false)
  }

  /** The user as saved back: `user["in_graph"] = True`. */
  function Marked(d: Doc): Doc
  {
    d["in_graph" := JBool(true)]
  }

  /** What the loop leaves in place of a stored user. */
  function AfterInsert(d: Doc): Doc
  {
    if NotInGraph(d) then Marked(d) else d
  }

  /** The records the loop hands to the graph for `docs`, in order. */
  function StaticRecords(docs: seq<Doc>): seq<Doc>
  {
    if |docs| == 0 then []
    else
      var last := docs[|docs| - 1];
      StaticRecords(docs[..|docs| - 1])
        + (if NotInGraph(last) && NormalizedForGraph(last, Static).Ok? then [NormalizedForGraph(last, Static).value] else [])
  }

  /** The loop's progress: the first `i` users are marked and could be
      normalized, the rest are untouched. */
  ghost predicate MarkedUpTo(before: Mongo.Store, after: Mongo.Store, i: nat)
  {
    && i <= |before.docs| && |after.docs| == |before.docs| && after.nextOid == before.nextOid
    && (forall k :: 0 <= k < i ==> after.docs[k] == AfterInsert(before.docs[k]))
    && (forall k :: i <= k < |before.docs| ==> after.docs[k] == before.docs[k])
    && (forall k :: 0 <= k < i && NotInGraph(before.docs[k]) ==> NormalizedForGraph(before.docs[k], Static).Ok?)
  }

  lemma MarkedSkip(before: Mongo.Store, after: Mongo.Store, i: nat)
    requires MarkedUpTo(before, after, i) && i < |before.docs| && !NotInGraph(before.docs[i])
    ensures MarkedUpTo(before, after, i + 1)
  {
    assert after.docs[i] == AfterInsert(before.docs[i]);
  }

  lemma MarkedSave(before: Mongo.Store, after: Mongo.Store, i: nat)
    requires Mongo.Valid(after) && MarkedUpTo(before, after, i) && i < |before.docs|
    requires NotInGraph(before.docs[i]) && NormalizedForGraph(before.docs[i], Static).Ok?
    ensures var next := Mongo.Save(after, Marked(before.docs[i]));
            Mongo.Valid(next) && MarkedUpTo(before, next, i + 1)
  {
    var e := Marked(after.docs[i]);
    assert "_id" in after.docs[i];
    assert Mongo.IdOf(e) == Mongo.IdOf(after.docs[i]);
    Mongo.SaveUpserts(after, e);
    Mongo.SaveReplacesInPlace(after, e, i);
  }

  /** Every record handed to the graph is the static-layer record of a
      stored user the query selects. */
  lemma {:induction false} StaticRecordsSelected(docs: seq<Doc>)
    ensures forall r :: r in StaticRecords(docs) ==>
              "layer" in r && r["layer"] == LayerValue(Static)
              && exists d :: d in docs && NotInGraph(d) && NormalizedForGraph(d, Static) == Ok(r)
  {
    if |docs| > 0 {
      var init := docs[..|docs| - 1];
      var last := docs[|docs| - 1];
      StaticRecordsSelected(init);
      forall r | r in StaticRecords(docs)
        ensures "layer" in r && r["layer"] == LayerValue(Static)
        ensures exists d :: d in docs && NotInGraph(d) && NormalizedForGraph(d, Static) == Ok(r)
      {
        if r in StaticRecords(init) {
          var d :| d in init && NotInGraph(d) && NormalizedForGraph(d, Static) == Ok(r);
          assert d in docs;
        } else {
          assert NormalizedForGraph(last, Static) == Ok(r);
          NormalizedShape(last, Static);
        }
      }
    }
  }

  /** At the end of the loop every user is marked and could be normalized. */
  lemma MarkedAll(before: Mongo.Store, after: Mongo.Store)
    requires MarkedUpTo(before, after, |before.docs|)
    ensures forall d :: d in before.docs && NotInGraph(d) ==> NormalizedForGraph(d, Static).Ok?
    ensures forall k :: 0 <= k < |after.docs| ==> after.docs[k] == AfterInsert(before.docs[k])
  {
    forall d | d in before.docs && NotInGraph(d) ensures NormalizedForGraph(d, Static).Ok? {
      var k :| 0 <= k < |before.docs| && before.docs[k] == d;
    }
  }

  lemma {:induction false} StaticRecordsStep(docs: seq<Doc>, i: nat)
    requires i < |docs|
    ensures StaticRecords(docs[..i + 1]) == StaticRecords(docs[..i])
              + (if NotInGraph(docs[i]) && NormalizedForGraph(docs[i], Static).Ok? then [NormalizedForGraph(docs[i], Static).value] else [])
  {
    assert docs[..i + 1][..i] == docs[..i];
  }

  /** A user saved back is no longer selected, so a second pass over the
      collection inserts nothing. */
  lemma {:induction false} NothingLeftToInsert(docs: seq<Doc>)
    ensures forall d :: d in docs ==> !NotInGraph(AfterInsert(d))
    ensures StaticRecords(seq(|docs|, k requires 0 <= k < |docs| => AfterInsert(docs[k]))) == []
  {
    var after := seq(|docs|, k requires 0 <= k < |docs| => AfterInsert(docs[k]));
    if |docs| > 0 {
      NothingLeftToInsert(docs[..|docs| - 1]);
      assert after[..|docs| - 1] == seq(|docs| - 1, k requires 0 <= k < |docs| - 1 => AfterInsert(docs[..|docs| - 1][k]));
    }
  }

  /** The users collection once the loop has handled its first `i` users. */
  function MarkedPrefix(before: Mongo.Store, i: nat): (s: Mongo.Store)
    requires i <= |before.docs|
    ensures |s.docs| == |before.docs| && s.nextOid == before.nextOid
    ensures s.docs[..i] == seq(i, k requires 0 <= k < i => AfterInsert(before.docs[k]))
    ensures s.docs[i..] == before.docs[i..]
  {
    Mongo.Store(seq(|before.docs|, k requires 0 <= k < |before.docs| => if k < i then AfterInsert(before.docs[k]) else before.docs[k]),
                before.nextOid)
  }

  /** The loop stopped at user `i` with exception `e`: the users before it
      are marked and their records are in the graph, user `i` and the ones
      after it are untouched. */
  ghost predicate InsertStoppedAt(before: Mongo.Store, after: Mongo.Store, graph0: seq<Doc>, graph: seq<Doc>, e: string, m: string)
  {
    exists i :: 0 <= i < |before.docs| && after == MarkedPrefix(before, i)
                && graph == graph0 + StaticRecords(before.docs[..i])
                && NotInGraph(before.docs[i]) && NormalizedForGraph(before.docs[i], Static) == Raised(e, m)
  }

  /** The loop's progress predicate pins the collection down. */
  lemma UpToIsMarkedPrefix(before: Mongo.Store, after: Mongo.Store, i: nat)
    requires MarkedUpTo(before, after, i)
    ensures after == MarkedPrefix(before, i)
  {
    var p := MarkedPrefix(before, i);
    assert after.docs == p.docs by {
      forall k | 0 <= k < |after.docs| ensures after.docs[k] == p.docs[k] {
        if k < i { assert p.docs[..i][k] == p.docs[k]; } else { assert p.docs[i..][k - i] == p.docs[k]; }
      }
    }
  }

  /** `KnowledgeGraph`: the users collection and the user records handed to
      the graph database so far. */
  class KnowledgeGraph {
    var users: Mongo.Store
    var graph: seq<Doc>

    constructor(users: Mongo.Store)
      ensures this.users == users && graph == []
    {
      this.users := users;
      graph := [];
    }

    /** `insert_user`: the user goes into the training layer. */
    method InsertUser(twitterUser: Doc) returns (r: Result<()>)
      modifies this
      ensures users == old(users)
      ensures r.Ok? <==> NormalizedForGraph(twitterUser, Training).Ok?
      ensures r.Ok? ==> graph == old(graph) + [NormalizedForGraph(twitterUser, Training).value]
      ensures r.Raised? ==> graph == old(graph) && r == Raised(NormalizedForGraph(twitterUser, Training).exception, NormalizedForGraph(twitterUser, Training).message)
    {
      var record := NormalizedForGraph(twitterUser, Training);
      if record.Raised? {
        return Raised(record.exception, record.message);
      }
      graph := graph + [record.value];
      r := Ok(());
    }

    /** `insert_static_users`: every stored user not yet in the graph, in
      natural order, goes into the static layer and is saved back with
      `in_graph` set; the first user that cannot be normalized stops the
      loop with its exception. The cursor is walked as the collection itself,
      skipping the users the query excludes. */
    method InsertStaticUsers() returns (r: Result<()>)
      requires Mongo.Valid(users)
      modifies this
      ensures Mongo.Valid(users)
      ensures r.Ok? <==> forall d :: d in old(users).docs && NotInGraph(d) ==> NormalizedForGraph(d, Static).Ok?
      ensures r.Ok? ==> && |users.docs| == |old(users).docs| && users.nextOid == old(users).nextOid
                        && (forall k :: 0 <= k < |users.docs| ==> users.docs[k] == AfterInsert(old(users).docs[k]))
                        && graph == old(graph) + StaticRecords(old(users).docs)
      ensures r.Raised? ==> InsertStoppedAt(old(users), users, old(graph), graph, r.exception, r.message)
    {
      var before := users;
      var store := users;
      var records := [];
      var i := 0;
      while i < |before.docs|
        invariant i <= |before.docs|
        invariant Mongo.Valid(store)
        invariant MarkedUpTo(before, store, i)
        invariant records == StaticRecords(before.docs[..i])
        invariant graph == old(graph)
      {
        var user := before.docs[i];
        StaticRecordsStep(before.docs, i);
        if NotInGraph(user) {
          var record := NormalizedForGraph(user, Static);
          if record.Raised? {
            UpToIsMarkedPrefix(before, store, i);
            users, graph := store, graph + records;
            return Raised(record.exception, record.message);
          }
          records := records + [record.value];
          MarkedSave(before, store, i);
          store := Mongo.Save(store, Marked(user));
        } else {
          MarkedSkip(before, store, i);
        }
        i := i + 1;
      }
      assert before.docs[..i] == before.docs;
      users, graph := store, graph + records;
      MarkedAll(before, store);
      r := Ok(());
    }
  }
}

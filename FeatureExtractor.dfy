/** The feature cache every feature extractor shares: one document per
    Twitter user in the `feature_cache` collection, holding one field per
    extractor name. The subclass's `_extract_for` is passed in as the value
    it computes. */
module FeatureExtractor {
  import opened Common
  import Mongo

  /** The `find_one({"id": user_id})` query. */
  function ById(userId: Json): Doc -> bool
  {
    d => Get(d, "id") == userId
  }

  /** The document `_update_cache` saves: the user's cached document (or a
      new `{"id": user_id}`) with this extractor's field set. */
  function CacheEntry(cache: Mongo.Store, userId: Json, name: string, value: Json): (e: Doc)
    ensures e.Keys == (match Mongo.FindOne(cache, ById(userId))
                       case Some(d) => d.Keys
                       case None => {"id"}) + {name}
    ensures e[name] == value
    ensures forall k :: k in e && k != name ==>
              match Mongo.FindOne(cache, ById(userId))
              case Some(d) => k in d && e[k] == d[k]
              case None => k == "id" && e[k] == userId
  {
    match Mongo.FindOne(cache, ById(userId))
    case Some(d) => d[name := value]
    case None => map["id" := userId][name := value]
  }

  class FeatureExtractor {
    const name: string
    const allowCacheUpdates: bool
    /** The `feature_cache` collection. */
    var cache: Mongo.Store

    ghost predicate Valid()
      reads this
    {
      Mongo.Valid(cache)
    }

    constructor (extractorName: string, allowUpdates: bool, featureCache: Mongo.Store)
      requires Mongo.Valid(featureCache)
      ensures name == extractorName && allowCacheUpdates == allowUpdates && cache == featureCache
      ensures Valid()
    {
      name := extractorName;
      allowCacheUpdates := allowUpdates;
      cache := featureCache;
    }

    /** `_fetch_cached_feature_value`: None (JNull) unless the cache is in use
        and the user's cached document has a field for this extractor. */
    function FetchCachedFeatureValue(userId: Json, useCache: bool): (v: Json)
      reads this
      ensures !useCache ==> v == JNull
      ensures useCache ==>
                match Mongo.FindOne(cache, ById(userId))
                case None => v == JNull
                case Some(d) => v == (if name in d then d[name] else JNull)
    {
      if !useCache then JNull
      else match Mongo.FindOne(cache, ById(userId))
        case None => JNull
        case Some(d) => if name in d then d[name] else JNull
    }

    /** `_update_cache`: writes this extractor's field into the user's cached
        document, creating the document when there is none. */
    method UpdateCache(userId: Json, value: Json)
      requires Valid()
      modifies this
      ensures Valid()
      ensures cache == Mongo.Save(old(cache), CacheEntry(old(cache), userId, name, value))
      ensures name != "id" && name != "_id" ==> FetchCachedFeatureValue(userId, true) == value
    {
      var entry := CacheEntry(cache, userId, name, value);
      if name != "id" && name != "_id" {
        CacheRoundTrip(cache, userId, name, value);
      }
      Mongo.SaveUpserts(cache, entry);
      cache := Mongo.Save(cache, entry);
    }

    /** `extract_for(twitter_user, use_cache)`: the cached value when there is
        one, otherwise the freshly computed one, cached iff updates are allowed. */
    method ExtractFor(userId: Json, useCache: bool, computed: Json) returns (value: Json)
      requires Valid()
      modifies this
      ensures Valid()
      ensures old(FetchCachedFeatureValue(userId, useCache)) != JNull ==>
                value == old(FetchCachedFeatureValue(userId, useCache)) && cache == old(cache)
      ensures old(FetchCachedFeatureValue(userId, useCache)) == JNull ==> value == computed
      ensures old(FetchCachedFeatureValue(userId, useCache)) == JNull && allowCacheUpdates ==>
                cache == Mongo.Save(old(cache), CacheEntry(old(cache), userId, name, computed))
      ensures !allowCacheUpdates ==> cache == old(cache)
    {
      value := FetchCachedFeatureValue(userId, useCache);
      if value == JNull {
        value := computed;
        if allowCacheUpdates {
          UpdateCache(userId, value);
        }
      }
    }
  }

  /** After the update, a cached lookup finds the stored value (JNull, the
      stored None, reads as a miss, which is the same answer). An extractor
      named "id" or "_id" would overwrite the key the lookup depends on. */
  lemma CacheRoundTrip(cache: Mongo.Store, userId: Json, name: string, value: Json)
    requires Mongo.Valid(cache) && name != "id" && name != "_id"
    ensures var e := CacheEntry(cache, userId, name, value);
            var after := Mongo.Save(cache, e);
            && Mongo.FindOne(after, ById(userId)).Some?
            && name in Mongo.FindOne(after, ById(userId)).value
            && Mongo.FindOne(after, ById(userId)).value[name] == value
  {
    var e := CacheEntry(cache, userId, name, value);
    assert ById(userId)(e);
    match Mongo.IndexWhere(cache.docs, ById(userId))
    case Some(k) =>
      assert "_id" in cache.docs[k];
      Mongo.FindOneAfterReplace(cache, ById(userId), k, e);
    case None =>
      assert Mongo.Stamped(cache, e)["id"] == userId;
      Mongo.FindOneAfterInsert(cache, ById(userId), e);
  }
}

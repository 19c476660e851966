/** The hashtag-similarity feature: the share of a reference vector (the
    top hashtags of the training users' tweets) found among a user's own top
    hashtags. The reference is read from, or written to, the feature cache
    under the intermediate-result key (`LocalizationConstants` is not part of
    this model, so the key's name is a parameter). */
module HashtagSimilarity {
  import opened Common
  import Mongo
  import TopHashtags
  import FeatureExtractor

  /** The `find_one` query for a cached reference of the given length. */
  function CachedReferenceQuery(key: string, vectorLength: int): Doc -> bool
  {
    d => Get(d, key) == JStr("top_swiss_hashtags") && Get(d, "vector_length") == JInt(vectorLength)
  }

  /** `_fetch_cached_average_swiss_vector`: None (JNull) without a matching
      document, else its "vector" field (a KeyError if it has none). */
  function FetchCachedVector(cache: Mongo.Store, key: string, vectorLength: int): (r: Result<Json>)
    ensures Mongo.FindOne(cache, CachedReferenceQuery(key, vectorLength)).None? ==> r == Ok(JNull)
    ensures Mongo.FindOne(cache, CachedReferenceQuery(key, vectorLength)).Some? ==>
              r == Lookup(Mongo.FindOne(cache, CachedReferenceQuery(key, vectorLength)).value, "vector")
  {
    match Mongo.FindOne(cache, CachedReferenceQuery(key, vectorLength))
    case None => Ok(JNull)
    case Some(obj) => Lookup(obj, "vector")
  }

  /** `tweets.find({"author_id": {"$in": ids}})`. */
  function TweetsBy(tweets: Mongo.Store, ids: seq<Json>): seq<Doc>
  {
    Mongo.Find(tweets.docs, t => Get(t, "author_id") in ids)
  }

  /** `_calculate_average_swiss_hashtag_vector`: the top hashtag names over
      the tweets of every training user, whatever the user's label. */
  function AverageSwissHashtagVector(trainSet: seq<Doc>, tweets: Mongo.Store, vectorLength: int,
                                     normalize: string -> string): Result<seq<string>>
  {
    match IdsOf(trainSet)
    case Raised(e, m) => Raised(e, m)
    case Ok(ids) =>
      match TopHashtags.AllTags(TweetsBy(tweets, ids), normalize)
      case Raised(e, m) => Raised(e, m)
      case Ok(tags) => Ok(TopHashtags.Names(TopHashtags.TopN(TopHashtags.SortByCountDesc(TopHashtags.Tally(tags)), vectorLength)))
  }

  /** The reference vector is built from every training user's tweets: a
      tweet takes part iff its author is one of the training users. */
  lemma ReferenceUsesEveryTrainUser(trainSet: seq<Doc>, tweets: Mongo.Store, t: Doc)
    requires IdsOf(trainSet).Ok?
    ensures t in TweetsBy(tweets, IdsOf(trainSet).value) <==>
              t in tweets.docs && exists k :: 0 <= k < |trainSet| && Get(t, "author_id") == trainSet[k]["id"]
  {
    var ids := IdsOf(trainSet).value;
    if Get(t, "author_id") in ids {
      var k :| 0 <= k < |ids| && ids[k] == Get(t, "author_id");
      assert Get(t, "author_id") == trainSet[k]["id"];
    }
  }

  /** A list of names as the JSON array the cache holds. */
  function NamesJson(names: seq<string>): (j: Json)
    ensures j.JList? && |j.items| == |names|
    ensures forall k :: 0 <= k < |names| ==> j.items[k] == JStr(names[k])
  {
    JList(seq(|names|, k requires 0 <= k < |names| => JStr(names[k])))
  }

  /** The object `_cache_average_swiss_vector` saves. */
  function CacheObject(key: string, names: seq<string>, vectorLength: int): (d: Doc)
    requires key != "vector" && key != "vector_length"
    ensures CachedReferenceQuery(key, vectorLength)(d)
    ensures "vector" in d && d["vector"] == NamesJson(names)
  {
    map[key := JStr("top_swiss_hashtags")]["vector" := NamesJson(names)]["vector_length" := JInt(vectorLength)]
  }

  /** `set(v)` for the stored vector: a list's elements (unhashable ones
      raise), a string's characters, a dict's keys; anything else is not
      iterable. */
  function AsSet(v: Json): (r: Result<set<Json>>)
    ensures v.JList? ==> r == SetOf(v.items)
    ensures v.JNull? || v.JBool? || v.JInt? || v.JReal? || v.JOid? ==> r.Raised? && r.exception == "TypeError"
  {
    match v
    case JList(items) => SetOf(items)
    case JStr(s) => Ok(set k | 0 <= k < |s| :: JStr([s[k]]))
    case JObj(fields) => Ok(set key | key in fields :: JStr(key))
    case _ => Raised("TypeError", "object is not iterable")
  }

  /** The set of a list of names. */
  function NameSet(names: seq<string>): (r: set<Json>)
    ensures forall j :: j in r <==> exists k :: 0 <= k < |names| && j == JStr(names[k])
  {
    set k | 0 <= k < |names| :: JStr(names[k])
  }

  /** A list of names has at most as many distinct names as elements. */
  lemma {:induction false} NameSetSize(names: seq<string>)
    ensures |NameSet(names)| <= |names|
  {
    if |names| > 0 {
      var init := names[..|names| - 1];
      NameSetSize(init);
      assert NameSet(names) == NameSet(init) + {JStr(names[|names| - 1])} by {
        forall j | j in NameSet(names) ensures j in NameSet(init) + {JStr(names[|names| - 1])} {
          var k :| 0 <= k < |names| && j == JStr(names[k]);
          if k < |names| - 1 {
            assert init[k] == names[k];
          }
        }
        forall j | j in NameSet(init) ensures j in NameSet(names) {
          var k :| 0 <= k < |init| && j == JStr(init[k]);
          assert names[k] == init[k];
        }
      }
    }
  }

  /** `_calculate_similarity`: the number of reference hashtags among the
      user's, divided by the vector length (true division). */
  function Similarity(userTop: set<Json>, reference: set<Json>, vectorLength: int): (r: Result<real>)
    ensures vectorLength == 0 ==> r == Raised("ZeroDivisionError", "division by zero")
    ensures vectorLength != 0 ==> r.Ok? && r.value * vectorLength as real == |userTop * reference| as real
    ensures vectorLength > 0 ==> 0.0 <= r.value
    ensures vectorLength > 0 && |userTop| <= vectorLength ==> r.value <= 1.0
  {
    if vectorLength == 0 then Raised("ZeroDivisionError", "division by zero")
    else
      var common := |userTop * reference|;
      IntersectionSize(userTop, reference);
      QuotientBounds(common as real, |userTop| as real, vectorLength as real);
      Ok(common as real / vectorLength as real)
  }

  lemma IntersectionSize(a: set<Json>, b: set<Json>)
    ensures |a * b| <= |a|
  {
    var c := a * b;
    assert a == c + (a - c);
  }

  lemma QuotientBounds(c: real, u: real, n: real)
    requires n != 0.0 && 0.0 <= c <= u
    ensures (c / n) * n == c
    ensures n > 0.0 ==> 0.0 <= c / n
    ensures n > 0.0 && u <= n ==> c / n <= 1.0
  {
    if n > 0.0 && u <= n {
      var q := Ratio(c, n);
    }
  }

  class HashtagSimilarity {
    /** The inherited extractor state: name "hashtag_similarity" and the feature cache. */
    const base: FeatureExtractor.FeatureExtractor
    const vectorLength: int
    const intermediateKey: string
    /** `self._average_swiss_vector`, held as a set once initialised. */
    var averageSwissVector: set<Json>

    ghost predicate Valid()
      reads this, base
    {
      base.name == "hashtag_similarity" && base.Valid() &&
      intermediateKey != "vector" && intermediateKey != "vector_length"
    }

    /** The field assignments of `__init__`; the reference is set by `InitReferenceVector`. */
    constructor (length: int, allowCacheUpdates: bool, featureCache: Mongo.Store, key: string)
      requires Mongo.Valid(featureCache) && key != "vector" && key != "vector_length"
      ensures Valid() && fresh(base)
      ensures vectorLength == length && intermediateKey == key && averageSwissVector == {}
      ensures base.allowCacheUpdates == allowCacheUpdates && base.cache == featureCache
    {
      base := new FeatureExtractor.FeatureExtractor("hashtag_similarity", allowCacheUpdates, featureCache);
      vectorLength := length;
      intermediateKey := key;
      averageSwissVector := {};
    }

    /** `_init_reference_vector` followed by `set(...)`: the cached vector
        when asked for and present (not None), otherwise the freshly computed
        one, which is cached iff cache updates are allowed. */
    method InitReferenceVector(trainSet: seq<Doc>, tweets: Mongo.Store, useCachedVector: bool,
                               normalize: string -> string) returns (r: Result<()>)
      requires Valid()
      modifies this, base
      ensures Valid()
      ensures var cached := if useCachedVector then FetchCachedVector(old(base.cache), intermediateKey, vectorLength) else Ok(JNull);
              var computed := AverageSwissHashtagVector(trainSet, tweets, vectorLength, normalize);
              && (cached.Raised? ==> r == Raised(cached.exception, cached.message) && base.cache == old(base.cache))
              && (cached.Ok? && cached.value != JNull ==>
                    base.cache == old(base.cache) &&
                    (match AsSet(cached.value)
                     case Ok(v) => r == Ok(()) && averageSwissVector == v
                     case Raised(e, m) => r == Raised(e, m)))
              && (cached == Ok(JNull) && computed.Raised? ==>
                    r == Raised(computed.exception, computed.message) && base.cache == old(base.cache))
              && (cached == Ok(JNull) && computed.Ok? ==>
                    r == Ok(()) && averageSwissVector == NameSet(computed.value) &&
                    base.cache == (if base.allowCacheUpdates
                                   then Mongo.Save(old(base.cache), CacheObject(intermediateKey, computed.value, vectorLength))
                                   else old(base.cache)))
    {
      var vector := JNull;
      if useCachedVector {
        var cached := FetchCachedVector(base.cache, intermediateKey, vectorLength);
        if cached.Raised? {
          return Raised(cached.exception, cached.message);
        }
        vector := cached.value;
      }
      if vector == JNull {
        var computed := AverageSwissHashtagVector(trainSet, tweets, vectorLength, normalize);
        if computed.Raised? {
          return Raised(computed.exception, computed.message);
        }
        if base.allowCacheUpdates {
          var obj := CacheObject(intermediateKey, computed.value, vectorLength);
          Mongo.SaveUpserts(base.cache, obj);
          base.cache := Mongo.Save(base.cache, obj);
        }
        averageSwissVector := NameSet(computed.value);
        return Ok(());
      }
      var asSet := AsSet(vector);
      if asSet.Raised? {
        return Raised(asSet.exception, asSet.message);
      }
      averageSwissVector := asSet.value;
      r := Ok(());
    }

    /** `_extract_for`: the similarity of the user's own top hashtags. */
    function ExtractFor(user: Doc, tweets: Mongo.Store, normalize: string -> string): (r: Result<real>)
      reads this
      ensures "id" !in user ==> r == Raised("KeyError", "id")
    {
      match TopHashtags.ExtractFor(user, tweets, vectorLength, normalize)
      case Raised(e, m) => Raised(e, m)
      case Ok(top) =>
        if top.NamesOnly? then Similarity(NameSet(top.names), averageSwissVector, vectorLength)
        else Raised("TypeError", "")
    }
  }

  /** The similarity of a user with tweets that can be read lies in [0, 1]
      for a positive vector length: the user's top hashtags number at most
      the vector length. A zero length divides by zero. */
  lemma SimilarityInUnitInterval(h: HashtagSimilarity, user: Doc, tweets: Mongo.Store, normalize: string -> string)
    requires "id" in user
    requires TopHashtags.AllTags(TopHashtags.TweetsOf(tweets, user["id"]), normalize).Ok?
    ensures h.vectorLength == 0 ==> h.ExtractFor(user, tweets, normalize) == Raised("ZeroDivisionError", "division by zero")
    ensures h.vectorLength > 0 ==>
              h.ExtractFor(user, tweets, normalize).Ok? && 0.0 <= h.ExtractFor(user, tweets, normalize).value <= 1.0
  {
    var tags := TopHashtags.AllTags(TopHashtags.TweetsOf(tweets, user["id"]), normalize).value;
    var top := TopHashtags.TopN(TopHashtags.SortByCountDesc(TopHashtags.Tally(tags)), h.vectorLength);
    NameSetSize(TopHashtags.Names(top));
  }
}

/** The Swiss-interaction feature: which share of the users a user
    interacts with (mentions, retweets, replies) are known Swiss users. The
    database lookup of Swiss users (`_filter_for_swiss_ids`, over the users
    and test-set collections) is the predicate `isSwiss`. */
module SwissTweetInteraction {
  import opened Common
  import Mongo
  import TweetInteractionBehavior

  type Ratios = TweetInteractionBehavior.Ratios

  /** The feature value: one share in aggregate mode, three ratios otherwise. */
  datatype Feature = Aggregate(share: real) | Individual(ratios: Ratios)

  /** The extractor's name, as passed to the parent constructor. */
  function FeatureName(aggregate: bool): (name: string)
    ensures StartsWith(name, "swiss_tweet_interaction")
    ensures aggregate <==> name == "swiss_tweet_interaction_agg"
    ensures !aggregate <==> name == "swiss_tweet_interaction"
  {
    "swiss_tweet_interaction" + (if aggregate then "_agg" else "")
  }

  /** `_filter_for_swiss_ids`: the queried ids that belong to Swiss users. */
  function FilterForSwissIds(ids: set<Json>, isSwiss: Json -> bool): (r: set<Json>)
    ensures r <= ids
    ensures forall u :: u in r <==> u in ids && isSwiss(u)
  {
    set u | u in ids && isSwiss(u)
  }

  lemma UnionSize(a: set<Json>, b: set<Json>)
    ensures |a + b| <= |a| + |b|
  {
    assert a + b == a + (b - a);
    assert |b - a| <= |b| by {
      assert b == (b - a) + (b * a);
    }
  }

  lemma SubsetSize(a: set<Json>, b: set<Json>)
    requires a <= b
    ensures |a| <= |b|
  {
    assert b == a + (b - a);
  }

  /** `_calculate_aggregate_interactions`: the Swiss users among all
      interaction partners over the summed sizes of the three sets; no
      interactions at all divide by zero. */
  function AggregateInteractions(mentions: set<Json>, retweets: set<Json>, replies: set<Json>,
                                 isSwiss: Json -> bool): (r: Result<real>)
    ensures |mentions| + |retweets| + |replies| == 0 ==> r == Raised("ZeroDivisionError", "division by zero")
    ensures |mentions| + |retweets| + |replies| > 0 ==>
              && r.Ok?
              && r.value * (|mentions| + |retweets| + |replies|) as real
                 == |FilterForSwissIds(mentions + retweets + replies, isSwiss)| as real
              && 0.0 <= r.value <= 1.0
  {
    var total := |mentions| + |retweets| + |replies|;
    var filtered := FilterForSwissIds(mentions + retweets + replies, isSwiss);
    if total == 0 then Raised("ZeroDivisionError", "division by zero")
    else
      UnionSize(mentions, retweets);
      UnionSize(mentions + retweets, replies);
      SubsetSize(filtered, mentions + retweets + replies);
      Ok(Ratio(|filtered| as real, total as real))
  }

  /** One ratio of `_calculate_individual_interactions`: the Swiss partners
      in the category over the category's size, or over 1 when it is empty. */
  function Share(filtered: set<Json>, category: set<Json>): (r: real)
    ensures 0.0 <= r <= 1.0
    ensures |category| == 0 ==> r == 0.0
    ensures |category| > 0 ==> r * |category| as real == |filtered * category| as real
  {
    var divisor := if |category| > 1 then |category| else 1;
    SubsetSize(filtered * category, category);
    if |category| == 0 then
      assert filtered * category == {};
      Ratio(0.0, 1.0)
    else Ratio(|filtered * category| as real, divisor as real)
  }

  /** `_calculate_individual_interactions`. */
  function IndividualInteractions(mentions: set<Json>, retweets: set<Json>, replies: set<Json>,
                                  isSwiss: Json -> bool): Ratios
  {
    var filtered := FilterForSwissIds(mentions + retweets + replies, isSwiss);
    TweetInteractionBehavior.Ratios(Share(filtered, mentions), Share(filtered, retweets), Share(filtered, replies))
  }

  /** Each individual ratio lies in [0, 1], is 0 for an empty category, and
      otherwise counts exactly the category's Swiss partners. */
  lemma IndividualCounts(mentions: set<Json>, retweets: set<Json>, replies: set<Json>, isSwiss: Json -> bool)
    ensures var r := IndividualInteractions(mentions, retweets, replies, isSwiss);
            && 0.0 <= r.mentions <= 1.0 && 0.0 <= r.retweets <= 1.0 && 0.0 <= r.replies <= 1.0
            && (|mentions| == 0 ==> r.mentions == 0.0)
            && (|mentions| > 0 ==> r.mentions * |mentions| as real == |set u | u in mentions && isSwiss(u)| as real)
            && (|retweets| > 0 ==> r.retweets * |retweets| as real == |set u | u in retweets && isSwiss(u)| as real)
            && (|replies| > 0 ==> r.replies * |replies| as real == |set u | u in replies && isSwiss(u)| as real)
  {
    var all := mentions + retweets + replies;
    var filtered := FilterForSwissIds(all, isSwiss);
    var r := IndividualInteractions(mentions, retweets, replies, isSwiss);
    assert r.mentions == Share(filtered, mentions) && r.retweets == Share(filtered, retweets) && r.replies == Share(filtered, replies);
    SwissOfCategory(all, mentions, isSwiss);
    SwissOfCategory(all, retweets, isSwiss);
    SwissOfCategory(all, replies, isSwiss);
  }

  lemma SwissOfCategory(all: set<Json>, category: set<Json>, isSwiss: Json -> bool)
    requires category <= all
    ensures FilterForSwissIds(all, isSwiss) * category == set u | u in category && isSwiss(u)
  {
  }

  /** `_extract_for`: a user without tweets scores 0 (aggregate) or three
      zeros; otherwise the interactions are found as for the parent feature
      and combined by the chosen mode. */
  function ExtractFor(aggregate: bool, user: Doc, tweets: Mongo.Store, isSwiss: Json -> bool): (r: Result<Feature>)
    ensures "id" !in user ==> r == Raised("KeyError", "id")
    ensures "id" in user && |TweetInteractionBehavior.TweetsOf(tweets, user["id"])| == 0 ==>
              r == Ok(if aggregate then Aggregate(0.0) else Individual(TweetInteractionBehavior.Ratios(0.0, 0.0, 0.0)))
    ensures "id" in user && |TweetInteractionBehavior.TweetsOf(tweets, user["id"])| > 0 ==>
              match TweetInteractionBehavior.InteractionsOf(TweetInteractionBehavior.TweetsOf(tweets, user["id"]))
              case Raised(e, m) => r == Raised(e, m)
              case Ok(s) =>
                && (aggregate ==> (r.Ok? <==> |s.mentions| + |s.retweets| + |s.replies| > 0))
                && (aggregate && r.Ok? ==> r.value.Aggregate? && 0.0 <= r.value.share <= 1.0)
                && (!aggregate ==> r.Ok? && r.value.Individual? &&
                                   0.0 <= r.value.ratios.mentions <= 1.0 && 0.0 <= r.value.ratios.retweets <= 1.0 &&
                                   0.0 <= r.value.ratios.replies <= 1.0)
  {
    match Lookup(user, "id")
    case Raised(e, m) => Raised(e, m)
    case Ok(id) =>
      var own := TweetInteractionBehavior.TweetsOf(tweets, id);
      if |own| == 0 then
        Ok(if aggregate then Aggregate(0.0) else Individual(TweetInteractionBehavior.Ratios(0.0, 0.0, 0.0)))
      else match TweetInteractionBehavior.InteractionsOf(own)
        case Raised(e, m) => Raised(e, m)
        case Ok(s) =>
          if aggregate then
            match AggregateInteractions(s.mentions, s.retweets, s.replies, isSwiss)
            case Raised(e, m) => Raised(e, m)
            case Ok(share) => Ok(Aggregate(share))
          else Ok(Individual(IndividualInteractions(s.mentions, s.retweets, s.replies, isSwiss)))
  }

  /** In aggregate mode, a user whose tweets mention, retweet and reply to
      nobody makes the extraction divide by zero; in individual mode the
      same user scores three zeros. */
  lemma AggregateDividesByZero(user: Doc, tweets: Mongo.Store, isSwiss: Json -> bool)
    requires "id" in user && |TweetInteractionBehavior.TweetsOf(tweets, user["id"])| > 0
    requires TweetInteractionBehavior.InteractionsOf(TweetInteractionBehavior.TweetsOf(tweets, user["id"]))
               == Ok(TweetInteractionBehavior.Interactions({}, {}, {}))
    ensures ExtractFor(true, user, tweets, isSwiss) == Raised("ZeroDivisionError", "division by zero")
    ensures ExtractFor(false, user, tweets, isSwiss) == Ok(Individual(TweetInteractionBehavior.Ratios(0.0, 0.0, 0.0)))
  {
    assert Lookup(user, "id") == Ok(user["id"]);
    var empty: set<Json> := {};
    assert |empty| == 0;
  }

  /** The intended aggregate share: as above, but 0 when there are no
      interactions, as the individual mode does for each empty category. */
  function AggregateInteractionsGuarded(mentions: set<Json>, retweets: set<Json>, replies: set<Json>,
                                        isSwiss: Json -> bool): (r: real)
    ensures 0.0 <= r <= 1.0
    ensures |mentions| + |retweets| + |replies| == 0 ==> r == 0.0
    ensures |mentions| + |retweets| + |replies| > 0 ==> Ok(r) == AggregateInteractions(mentions, retweets, replies, isSwiss)
  {
    if |mentions| + |retweets| + |replies| == 0 then 0.0
    else AggregateInteractions(mentions, retweets, replies, isSwiss).value
  }
}

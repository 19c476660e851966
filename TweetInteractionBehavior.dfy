/** The tweet-interaction feature: how many distinct users a user mentions,
    retweets and replies to, each relative to the number of the user's
    tweets. */
module TweetInteractionBehavior {
  import opened Common
  import Mongo

  /** The user ids found in a user's tweets, in the order they were appended. */
  datatype IdLists = IdLists(mentions: seq<Json>, retweets: seq<Json>, replies: seq<Json>)

  /** The de-duplicated ids `_find_interactions` returns. */
  datatype Interactions = Interactions(mentions: set<Json>, retweets: set<Json>, replies: set<Json>)

  /** The three ratios `_extract_for` returns. */
  datatype Ratios = Ratios(mentions: real, retweets: real, replies: real)

  /** The ids `_extract_mention_ids` appends for one tweet: none without
      entities or user mentions (absent or None), else every mention's "id".
      Entities that are not a dict have no `get`. */
  function MentionIds(tweet: Doc): (r: Result<seq<Json>>)
    ensures Get(tweet, "entities") == JNull ==> r == Ok([])
    ensures Get(tweet, "entities").JObj? && Get(Get(tweet, "entities").fields, "user_mentions") == JNull ==> r == Ok([])
    ensures Get(tweet, "entities").JObj? && Get(Get(tweet, "entities").fields, "user_mentions").JList? ==>
              r == SubscriptItems(Get(Get(tweet, "entities").fields, "user_mentions").items, "id")
  {
    var entities := Get(tweet, "entities");
    if entities == JNull then Ok([])
    else if !entities.JObj? then Raised("AttributeError", "")
    else
      var mentions := Get(entities.fields, "user_mentions");
      if mentions == JNull then Ok([]) else SubscriptEach(mentions, "id")
  }

  /** The id a `get(field)` check appends: the field's value unless it is absent or None. */
  function PresentId(tweet: Doc, field: string): (r: seq<Json>)
    ensures |r| <= 1
    ensures |r| == 1 <==> Get(tweet, field) != JNull
    ensures |r| == 1 ==> r[0] == tweet[field]
  {
    if Get(tweet, field) != JNull then [tweet[field]] else []
  }

  /** The lists after the loop of `_find_interactions` over `tweets`; the
      first tweet whose mentions cannot be read ends it. */
  function CollectIds(tweets: seq<Doc>): (r: Result<IdLists>)
    ensures r.Ok? ==> |r.value.retweets| <= |tweets| && |r.value.replies| <= |tweets|
  {
    if |tweets| == 0 then Ok(IdLists([], [], []))
    else
      var t := tweets[|tweets| - 1];
      match CollectIds(tweets[..|tweets| - 1])
      case Raised(e, m) => Raised(e, m)
      case Ok(ids) =>
        match MentionIds(t)
        case Raised(e, m) => Raised(e, m)
        case Ok(mentions) =>
          Ok(IdLists(ids.mentions + mentions,
                     ids.retweets + PresentId(t, "retweeted_status_author_id"),
                     ids.replies + PresentId(t, "in_reply_to_user_id")))
  }

  /** `set(...)` of each list. */
  function AsSets(ids: IdLists): (r: Result<Interactions>)
    ensures r.Ok? ==> SetOf(ids.mentions) == Ok(r.value.mentions) && SetOf(ids.retweets) == Ok(r.value.retweets)
                      && SetOf(ids.replies) == Ok(r.value.replies)
  {
    match SetOf(ids.mentions)
    case Raised(e, m) => Raised(e, m)
    case Ok(mentions) =>
      match SetOf(ids.retweets)
      case Raised(e, m) => Raised(e, m)
      case Ok(retweets) =>
        match SetOf(ids.replies)
        case Raised(e, m) => Raised(e, m)
        case Ok(replies) => Ok(Interactions(mentions, retweets, replies))
  }

  function InteractionsOf(tweets: seq<Doc>): Result<Interactions>
  {
    match CollectIds(tweets)
    case Raised(e, m) => Raised(e, m)
    case Ok(ids) => AsSets(ids)
  }

  /** `_extract_mention_ids(tweet, mention_ids)`: appends the tweet's mention ids. */
  method ExtractMentionIds(tweet: Doc, mentionIds: seq<Json>) returns (r: Result<seq<Json>>)
    ensures MentionIds(tweet).Ok? ==> r == Ok(mentionIds + MentionIds(tweet).value)
    ensures MentionIds(tweet).Raised? ==> r == Raised(MentionIds(tweet).exception, MentionIds(tweet).message)
  {
    var entities := Get(tweet, "entities");
    if entities == JNull {
      assert mentionIds + [] == mentionIds;
      return Ok(mentionIds);
    }
    if !entities.JObj? {
      return Raised("AttributeError", "");
    }
    var mentions := Get(entities.fields, "user_mentions");
    if mentions == JNull {
      assert mentionIds + [] == mentionIds;
      return Ok(mentionIds);
    }
    if !mentions.JList? {
      var each := SubscriptEach(mentions, "id");
      if each.Raised? {
        return Raised(each.exception, each.message);
      }
      assert mentionIds + each.value == mentionIds;
      assert mentionIds + [] == mentionIds;
      return Ok(mentionIds);
    }
    var ids := mentionIds;
    var i := 0;
    while i < |mentions.items|
      invariant 0 <= i <= |mentions.items|
      invariant SubscriptItems(mentions.items[..i], "id").Ok?
      invariant ids == mentionIds + SubscriptItems(mentions.items[..i], "id").value
    {
      var id := Subscript(mentions.items[i], "id");
      if id.Raised? {
        SubscriptItemsPrefix(mentions.items, "id", i);
        return Raised(id.exception, id.message);
      }
      SubscriptItemsSnoc(mentions.items[..i], mentions.items[i], "id");
      assert mentions.items[..i + 1] == mentions.items[..i] + [mentions.items[i]];
      ids := ids + [id.value];
      i := i + 1;
    }
    assert mentions.items[..i] == mentions.items;
    r := Ok(ids);
  }

  lemma {:induction false} SubscriptItemsSnoc(items: seq<Json>, x: Json, key: string)
    requires SubscriptItems(items, key).Ok? && Subscript(x, key).Ok?
    ensures SubscriptItems(items + [x], key) == Ok(SubscriptItems(items, key).value + [Subscript(x, key).value])
  {
    if |items| > 0 {
      assert (items + [x])[1..] == items[1..] + [x] && (items + [x])[0] == items[0];
      SubscriptItemsSnoc(items[1..], x, key);
      var v0, rest, vx := Subscript(items[0], key).value, SubscriptItems(items[1..], key).value, Subscript(x, key).value;
      assert [v0] + (rest + [vx]) == ([v0] + rest) + [vx];
    } else {
      assert items + [x] == [x] && [x][1..] == [];
      assert [Subscript(x, key).value] + [] == [] + [Subscript(x, key).value];
    }
  }

  /** A list whose first `i` elements can be subscripted but whose element
      `i` cannot fails with that element's exception. */
  lemma {:induction false} SubscriptItemsPrefix(items: seq<Json>, key: string, i: nat)
    requires i < |items| && SubscriptItems(items[..i], key).Ok? && Subscript(items[i], key).Raised?
    ensures SubscriptItems(items, key) == Raised(Subscript(items[i], key).exception, Subscript(items[i], key).message)
  {
    if i > 0 {
      assert items[..i][1..] == items[1..][..i - 1];
      SubscriptItemsPrefix(items[1..], key, i - 1);
    }
  }

  /** `_find_interactions`: the loop over the tweets, then the three sets. */
  method FindInteractions(tweets: seq<Doc>) returns (r: Result<Interactions>)
    ensures r == InteractionsOf(tweets)
  {
    var mentionIds, retweetIds, replyIds := [], [], [];
    var i := 0;
    while i < |tweets|
      invariant 0 <= i <= |tweets|
      invariant CollectIds(tweets[..i]) == Ok(IdLists(mentionIds, retweetIds, replyIds))
    {
      assert tweets[..i + 1][..i] == tweets[..i];
      var tweet := tweets[i];
      var m := ExtractMentionIds(tweet, mentionIds);
      if m.Raised? {
        CollectIdsRaisedPrefix(tweets, i + 1);
        return Raised(m.exception, m.message);
      }
      ghost var t := tweets[..i + 1];
      assert t[..|t| - 1] == tweets[..i] && t[|t| - 1] == tweet;
      assert CollectIds(t) == Ok(IdLists(m.value, retweetIds + PresentId(tweet, "retweeted_status_author_id"),
                                         replyIds + PresentId(tweet, "in_reply_to_user_id")));
      mentionIds := m.value;
      if Get(tweet, "retweeted_status_author_id") != JNull {
        assert PresentId(tweet, "retweeted_status_author_id") == [tweet["retweeted_status_author_id"]];
        retweetIds := retweetIds + [tweet["retweeted_status_author_id"]];
      } else {
        assert retweetIds + PresentId(tweet, "retweeted_status_author_id") == retweetIds;
      }
      if Get(tweet, "in_reply_to_user_id") != JNull {
        assert PresentId(tweet, "in_reply_to_user_id") == [tweet["in_reply_to_user_id"]];
        replyIds := replyIds + [tweet["in_reply_to_user_id"]];
      } else {
        assert replyIds + PresentId(tweet, "in_reply_to_user_id") == replyIds;
      }
      i := i + 1;
    }
    assert tweets[..i] == tweets;
    r := AsSets(IdLists(mentionIds, retweetIds, replyIds));
  }

  lemma {:induction false} CollectIdsRaisedPrefix(tweets: seq<Doc>, n: nat)
    requires n <= |tweets| && CollectIds(tweets[..n]).Raised?
    ensures CollectIds(tweets) == CollectIds(tweets[..n])
    decreases |tweets| - n
  {
    if n < |tweets| {
      assert tweets[..n + 1][..n] == tweets[..n];
      CollectIdsRaisedPrefix(tweets, n + 1);
    } else {
      assert tweets[..n] == tweets;
    }
  }

  /** The user's tweets, `find({"author_id": id})`. */
  function TweetsOf(tweets: Mongo.Store, userId: Json): seq<Doc>
  {
    Mongo.Find(tweets.docs, t => Get(t, "author_id") == userId)
  }

  /** `_extract_for`: zeros for a user without tweets, else each number of
      distinct ids over the number of tweets. */
  function ExtractFor(user: Doc, tweets: Mongo.Store): (r: Result<Ratios>)
    ensures "id" !in user ==> r == Raised("KeyError", "id")
    ensures "id" in user && |TweetsOf(tweets, user["id"])| == 0 ==> r == Ok(Ratios(0.0, 0.0, 0.0))
  {
    match Lookup(user, "id")
    case Raised(e, m) => Raised(e, m)
    case Ok(id) =>
      var own := TweetsOf(tweets, id);
      var n := |own| as real;
      if |own| == 0 then Ok(Ratios(0.0, 0.0, 0.0))
      else match InteractionsOf(own)
        case Raised(e, m) => Raised(e, m)
        case Ok(s) => Ok(Ratios(|s.mentions| as real / n, |s.retweets| as real / n, |s.replies| as real / n))
  }

  /** With tweets, the mention ratio is not negative, and the retweet and
      reply ratios lie in [0, 1], because each tweet contributes at most one
      id to each. */
  lemma RatioBounds(user: Doc, tweets: Mongo.Store)
    requires "id" in user && |TweetsOf(tweets, user["id"])| > 0
    requires InteractionsOf(TweetsOf(tweets, user["id"])).Ok?
    ensures ExtractFor(user, tweets).Ok?
    ensures 0.0 <= ExtractFor(user, tweets).value.mentions
    ensures 0.0 <= ExtractFor(user, tweets).value.retweets <= 1.0
    ensures 0.0 <= ExtractFor(user, tweets).value.replies <= 1.0
  {
    var own := TweetsOf(tweets, user["id"]);
    var ids := CollectIds(own).value;
    var s := InteractionsOf(own).value;
    SetOfSize(ids.retweets);
    SetOfSize(ids.replies);
    var n := |own| as real;
    var m, rt, rp := |s.mentions| as real, |s.retweets| as real, |s.replies| as real;
    ExtractForWithTweets(user, tweets);
    assert ExtractFor(user, tweets) == Ok(Ratios(m / n, rt / n, rp / n));
    DivisionBounds(m, n);
    DivisionBounds(rt, n);
    DivisionBounds(rp, n);
  }

  lemma ExtractForWithTweets(user: Doc, tweets: Mongo.Store)
    requires "id" in user && |TweetsOf(tweets, user["id"])| > 0
    requires InteractionsOf(TweetsOf(tweets, user["id"])).Ok?
    ensures var own := TweetsOf(tweets, user["id"]);
            var s := InteractionsOf(own).value;
            var n := |own| as real;
            ExtractFor(user, tweets) == Ok(Ratios(|s.mentions| as real / n, |s.retweets| as real / n, |s.replies| as real / n))
  {
    assert Lookup(user, "id") == Ok(user["id"]);
  }

  lemma DivisionBounds(c: real, n: real)
    requires 0.0 <= c && n > 0.0
    ensures (c / n) * n == c && 0.0 <= c / n
    ensures c <= n ==> c / n <= 1.0
  {
    if c <= n {
      var q := Ratio(c, n);
    }
  }

  /** The mention ratio is not bounded by 1: one tweet mentioning two users gives 2. */
  lemma MentionRatioCanExceedOne()
    ensures ExtractFor(map["id" := JInt(1)], Mongo.Store([TwoMentions()], 0)) == Ok(Ratios(2.0, 0.0, 0.0))
  {
    var tweet := TwoMentions();
    var store := Mongo.Store([tweet], 0);
    var user := map["id" := JInt(1)];
    TwoMentionsCollected();
    TwoMentionsOwn();
    InteractionsOfPair(tweet, JInt(2), JInt(3));
    assert user["id"] == JInt(1);
    OneTweetTwoMentions(user, store, tweet, JInt(2), JInt(3));
  }

  lemma OneTweetTwoMentions(user: Doc, store: Mongo.Store, tweet: Doc, a: Json, b: Json)
    requires "id" in user && TweetsOf(store, user["id"]) == [tweet] && a != b
    requires InteractionsOf([tweet]) == Ok(Interactions({a, b}, {}, {}))
    ensures ExtractFor(user, store) == Ok(Ratios(2.0, 0.0, 0.0))
  {
    ExtractForWithTweets(user, store);
    var none: set<Json> := {};
    assert |{a, b}| == 2 && |none| == 0;
  }

  lemma TwoMentionsOwn()
    ensures TweetsOf(Mongo.Store([TwoMentions()], 0), JInt(1)) == [TwoMentions()]
  {
    var tweet := TwoMentions();
    assert Get(tweet, "author_id") == JInt(1);
    assert [tweet][1..] == [];
  }

  /** A tweet by user 1 mentioning users 2 and 3. */
  function TwoMentions(): Doc
  {
    map["author_id" := JInt(1), "entities" := JObj(map["user_mentions" :=
      JList([JObj(map["id" := JInt(2)]), JObj(map["id" := JInt(3)])])])]
  }

  lemma TwoMentionsCollected()
    ensures CollectIds([TwoMentions()]) == Ok(IdLists([JInt(2), JInt(3)], [], []))
  {
    var tweet := TwoMentions();
    var mentions := [JObj(map["id" := JInt(2)]), JObj(map["id" := JInt(3)])];
    assert mentions[1..] == [mentions[1]] && mentions[1..][1..] == [];
    assert [JInt(3)] + [] == [JInt(3)] && [JInt(2)] + [JInt(3)] == [JInt(2), JInt(3)];
    assert SubscriptItems(mentions, "id") == Ok([JInt(2), JInt(3)]);
    assert MentionIds(tweet) == Ok([JInt(2), JInt(3)]);
    var none: seq<Json> := [];
    assert [tweet][..0] == [];
    assert none + [JInt(2), JInt(3)] == [JInt(2), JInt(3)] && none + none == none;
    assert PresentId(tweet, "retweeted_status_author_id") == [] && PresentId(tweet, "in_reply_to_user_id") == [];
  }

  lemma InteractionsOfPair(tweet: Doc, a: Json, b: Json)
    requires CollectIds([tweet]) == Ok(IdLists([a, b], [], [])) && a != b && Hashable(a) && Hashable(b)
    ensures InteractionsOf([tweet]) == Ok(Interactions({a, b}, {}, {}))
  {
    assert SetOf([a, b]).value == {a, b};
    assert SetOf([]).value == {};
  }

  /** A retweet (reply) id is collected iff some tweet has the field present and not None. */
  lemma {:induction false} CollectedIffPresent(tweets: seq<Doc>, x: Json)
    requires CollectIds(tweets).Ok?
    ensures x in CollectIds(tweets).value.retweets <==>
              exists k :: 0 <= k < |tweets| && Get(tweets[k], "retweeted_status_author_id") == x != JNull
    ensures x in CollectIds(tweets).value.replies <==>
              exists k :: 0 <= k < |tweets| && Get(tweets[k], "in_reply_to_user_id") == x != JNull
  {
    if |tweets| > 0 {
      var init, t := tweets[..|tweets| - 1], tweets[|tweets| - 1];
      assert CollectIds(init).Ok?;
      CollectedIffPresent(init, x);
      var ids0, ids := CollectIds(init).value, CollectIds(tweets).value;
      assert ids.retweets == ids0.retweets + PresentId(t, "retweeted_status_author_id");
      assert ids.replies == ids0.replies + PresentId(t, "in_reply_to_user_id");
      assert forall k :: 0 <= k < |init| ==> init[k] == tweets[k];
    }
  }
}

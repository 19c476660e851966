/** A user's most frequent hashtags: every hashtag of every tweet is
    normalised and counted into an insertion-ordered dict, the entries are
    sorted by count (highest first, stably) and the first `vector_length`
    are kept. The normaliser (`unidecode(h).lower()`) is a parameter. */
module TopHashtags {
  import opened Common
  import Collections
  import Mongo

  /** One `(hashtag, count)` item of the dict. */
  datatype Entry = Entry(name: string, count: nat)

  /** What `_calculate_top_hashtags` returns: the items, or only their names. */
  datatype TopResult = WithCounts(entries: seq<Entry>) | NamesOnly(names: seq<string>)

  // ------------------------------------------------------- reading a tweet

  /** `_normalize_hashtag` on each text; a text that is not a string has no
      `encode` method. */
  function NormalizeAll(texts: seq<Json>, normalize: string -> string): (r: Result<seq<string>>)
    ensures r.Ok? ==> |r.value| == |texts|
    ensures r.Ok? ==> forall k :: 0 <= k < |texts| ==> texts[k].JStr? && r.value[k] == normalize(texts[k].s)
  {
    if |texts| == 0 then Ok([])
    else if !texts[0].JStr? then Raised("AttributeError", "")
    else match NormalizeAll(texts[1..], normalize)
      case Raised(e, m) => Raised(e, m)
      case Ok(rest) => Ok([normalize(texts[0].s)] + rest)
  }

  /** The normalised hashtags of one tweet, in entity order. */
  function TweetTags(tweet: Doc, normalize: string -> string): Result<seq<string>>
  {
    match Lookup(tweet, "entities")
    case Raised(e, m) => Raised(e, m)
    case Ok(entities) =>
      match Subscript(entities, "hashtags")
      case Raised(e, m) => Raised(e, m)
      case Ok(hashtags) =>
        match SubscriptEach(hashtags, "text")
        case Raised(e, m) => Raised(e, m)
        case Ok(texts) => NormalizeAll(texts, normalize)
  }

  /** Every normalised hashtag of the tweets, tweet by tweet; the first
      malformed tweet's exception ends the computation. */
  function AllTags(tweets: seq<Doc>, normalize: string -> string): Result<seq<string>>
  {
    if |tweets| == 0 then Ok([])
    else match AllTags(tweets[..|tweets| - 1], normalize)
      case Raised(e, m) => Raised(e, m)
      case Ok(before) =>
        match TweetTags(tweets[|tweets| - 1], normalize)
        case Raised(e, m) => Raised(e, m)
        case Ok(tags) => Ok(before + tags)
  }

  // ------------------------------------------------------------- counting

  function Names(s: seq<Entry>): (r: seq<string>)
    ensures |r| == |s| && forall k :: 0 <= k < |s| ==> r[k] == s[k].name
  {
    seq(|s|, k requires 0 <= k < |s| => s[k].name)
  }

  predicate DistinctNames(s: seq<Entry>)
  {
    forall i, j :: 0 <= i < j < |s| ==> s[i].name != s[j].name
  }

  /** Where `h` sits among the dict's keys. */
  function FindName(s: seq<Entry>, h: string): (r: Option<nat>)
    ensures r.Some? ==> r.value < |s| && s[r.value].name == h
    ensures r.None? ==> h !in Names(s)
  {
    if |s| == 0 then None
    else if s[|s| - 1].name == h then Some(|s| - 1)
    else match FindName(s[..|s| - 1], h)
      case None => None
      case Some(k) => Some(k)
  }

  /** `hashtags[h] = hashtags.get(h, 0) + 1` on the insertion-ordered dict. */
  function Bump(s: seq<Entry>, h: string): seq<Entry>
  {
    match FindName(s, h)
    case Some(k) => s[k := Entry(h, s[k].count + 1)]
    case None => s + [Entry(h, 1)]
  }

  /** The dict after counting `tags` from an empty one. */
  function Tally(tags: seq<string>): seq<Entry>
  {
    if |tags| == 0 then [] else Bump(Tally(tags[..|tags| - 1]), tags[|tags| - 1])
  }

  /** How often `h` occurs in `tags`. */
  function Occurrences(tags: seq<string>, h: string): nat
  {
    if |tags| == 0 then 0
    else Occurrences(tags[..|tags| - 1], h) + (if tags[|tags| - 1] == h then 1 else 0)
  }

  /** The distinct tags in order of first occurrence. */
  function FirstOccurrences(tags: seq<string>): seq<string>
  {
    if |tags| == 0 then []
    else
      var before := FirstOccurrences(tags[..|tags| - 1]);
      if tags[|tags| - 1] in tags[..|tags| - 1] then before else before + [tags[|tags| - 1]]
  }

  /** The dict holds one item per distinct hashtag, in order of first
      occurrence, and each count is the hashtag's number of occurrences. */
  lemma {:induction false} TallyCounts(tags: seq<string>)
    ensures DistinctNames(Tally(tags))
    ensures Names(Tally(tags)) == FirstOccurrences(tags)
    ensures forall h :: h in tags <==> h in Names(Tally(tags))
    ensures forall k :: 0 <= k < |Tally(tags)| ==> Tally(tags)[k].count == Occurrences(tags, Tally(tags)[k].name) >= 1
  {
    var t := Tally(tags);
    TallyNames(tags);
    FirstOccurrencesMembers(tags);
    FirstOccurrencesDistinct(tags);
    TallyCountsOnly(tags);
    forall i, j | 0 <= i < j < |t| ensures t[i].name != t[j].name {
      assert t[i].name == Names(t)[i] && t[j].name == Names(t)[j];
    }
  }

  lemma {:induction false} FirstOccurrencesMembers(tags: seq<string>)
    ensures forall x :: x in FirstOccurrences(tags) <==> x in tags
  {
    if |tags| > 0 {
      var before := tags[..|tags| - 1];
      FirstOccurrencesMembers(before);
      assert tags == before + [tags[|tags| - 1]];
    }
  }

  predicate Distinct(s: seq<string>)
  {
    forall i, j :: 0 <= i < j < |s| ==> s[i] != s[j]
  }

  lemma {:induction false} FirstOccurrencesDistinct(tags: seq<string>)
    ensures Distinct(FirstOccurrences(tags))
  {
    if |tags| > 0 {
      var before := tags[..|tags| - 1];
      var h, f0 := tags[|tags| - 1], FirstOccurrences(before);
      FirstOccurrencesDistinct(before);
      FirstOccurrencesMembers(before);
      if h !in before {
        var f := f0 + [h];
        assert FirstOccurrences(tags) == f;
        assert h !in f0;
        assert Distinct(f0);
        forall i, j | 0 <= i < j < |f| ensures f[i] != f[j] {
          assert f[i] == f0[i] && f0[i] in f0;
          if j < |f0| {
            assert f[j] == f0[j];
          } else {
            assert f[j] == h;
          }
        }
      }
    }
  }

  /** Bumping adds the hashtag to the keys only when it is new. */
  lemma NamesBump(t: seq<Entry>, h: string)
    ensures FindName(t, h).Some? <==> h in Names(t)
    ensures Names(Bump(t, h)) == if h in Names(t) then Names(t) else Names(t) + [h]
  {
    match FindName(t, h)
    case Some(k) =>
      assert Names(t)[k] == h;
      var u := t[k := Entry(h, t[k].count + 1)];
      assert forall j :: 0 <= j < |u| ==> u[j].name == t[j].name;
    case None =>
      var u := t + [Entry(h, 1)];
      assert forall j :: 0 <= j < |t| ==> u[j] == t[j];
  }

  lemma {:induction false} TallyNames(tags: seq<string>)
    ensures Names(Tally(tags)) == FirstOccurrences(tags)
  {
    if |tags| > 0 {
      var before, h := tags[..|tags| - 1], tags[|tags| - 1];
      TallyNames(before);
      FirstOccurrencesMembers(before);
      NamesBump(Tally(before), h);
    }
  }

  /** Every item's count is its hashtag's number of occurrences in `tags`. */
  predicate CountsMatch(tags: seq<string>, t: seq<Entry>)
  {
    forall k :: 0 <= k < |t| ==> t[k].count == Occurrences(tags, t[k].name) >= 1
  }

  lemma {:induction false} TallyCountsOnly(tags: seq<string>)
    ensures CountsMatch(tags, Tally(tags))
  {
    if |tags| > 0 {
      var before, h := tags[..|tags| - 1], tags[|tags| - 1];
      TallyCountsOnly(before);
      TallyNames(before);
      assert tags == before + [h];
      if FindName(Tally(before), h).Some? {
        FirstOccurrencesDistinct(before);
        CountsRepeat(before, h);
      } else {
        FirstOccurrencesMembers(before);
        CountsNew(before, h);
      }
    }
  }

  lemma CountsRepeat(before: seq<string>, h: string)
    requires CountsMatch(before, Tally(before)) && Distinct(Names(Tally(before)))
    requires FindName(Tally(before), h).Some?
    ensures CountsMatch(before + [h], Tally(before + [h]))
  {
    var tags := before + [h];
    var t0 := Tally(before);
    var k := FindName(t0, h).value;
    var t := t0[k := Entry(h, t0[k].count + 1)];
    TallySnoc(before, h);
    assert Tally(tags) == t;
    assert tags[..|tags| - 1] == before;
    forall j | 0 <= j < |t| ensures t[j].count == Occurrences(tags, t[j].name) >= 1 {
      if j != k {
        assert Names(t0)[j] != Names(t0)[k];
        assert t[j] == t0[j] && t0[j].name != h;
      }
    }
  }

  lemma CountsNew(before: seq<string>, h: string)
    requires CountsMatch(before, Tally(before)) && forall x :: x in before ==> x in Names(Tally(before))
    requires FindName(Tally(before), h).None?
    ensures CountsMatch(before + [h], Tally(before + [h]))
  {
    var tags := before + [h];
    var t0 := Tally(before);
    var t := t0 + [Entry(h, 1)];
    TallySnoc(before, h);
    assert Tally(tags) == t;
    assert tags[..|tags| - 1] == before;
    assert h !in before;
    OccurrencesAbsent(before, h);
    forall j | 0 <= j < |t| ensures t[j].count == Occurrences(tags, t[j].name) >= 1 {
      if j < |t0| {
        assert t[j] == t0[j];
        assert Names(t0)[j] == t0[j].name;
      }
    }
  }

  lemma {:induction false} OccurrencesAbsent(tags: seq<string>, h: string)
    requires h !in tags
    ensures Occurrences(tags, h) == 0
  {
    if |tags| > 0 {
      OccurrencesAbsent(tags[..|tags| - 1], h);
    }
  }

  lemma TallySnoc(tags: seq<string>, h: string)
    ensures Tally(tags + [h]) == Bump(Tally(tags), h)
  {
    assert (tags + [h])[..|tags|] == tags;
  }

  /** The inner loop: one tweet's hashtags into the dict. */
  method BumpAll(counts: seq<Entry>, tags: seq<string>, ghost seen: seq<string>) returns (r: seq<Entry>)
    requires counts == Tally(seen)
    ensures r == Tally(seen + tags)
  {
    r := counts;
    var j := 0;
    assert seen + tags[..0] == seen;
    while j < |tags|
      invariant 0 <= j <= |tags|
      invariant r == Tally(seen + tags[..j])
    {
      assert seen + tags[..j + 1] == (seen + tags[..j]) + [tags[j]];
      TallySnoc(seen + tags[..j], tags[j]);
      r := Bump(r, tags[j]);
      j := j + 1;
    }
    assert tags[..j] == tags;
  }

  /** The counting loop of `_calculate_top_hashtags`: one tweet after the
      other, one hashtag after the other, into the dict. */
  method CountHashtags(tweets: seq<Doc>, normalize: string -> string) returns (r: Result<seq<Entry>>)
    ensures AllTags(tweets, normalize).Ok? ==> r == Ok(Tally(AllTags(tweets, normalize).value))
    ensures AllTags(tweets, normalize).Raised? ==>
              r == Raised(AllTags(tweets, normalize).exception, AllTags(tweets, normalize).message)
  {
    var hashtags: seq<Entry> := [];
    ghost var seen: seq<string> := [];
    var i := 0;
    while i < |tweets|
      invariant 0 <= i <= |tweets|
      invariant AllTags(tweets[..i], normalize) == Ok(seen)
      invariant hashtags == Tally(seen)
    {
      assert tweets[..i + 1][..i] == tweets[..i];
      var tweetTags := TweetTags(tweets[i], normalize);
      if tweetTags.Raised? {
        AllTagsRaisedPrefix(tweets, normalize, i + 1);
        return Raised(tweetTags.exception, tweetTags.message);
      }
      hashtags := BumpAll(hashtags, tweetTags.value, seen);
      seen := seen + tweetTags.value;
      i := i + 1;
    }
    assert tweets[..i] == tweets;
    r := Ok(hashtags);
  }

  /** Once a prefix of the tweets raises, the whole list raises the same exception. */
  lemma {:induction false} AllTagsRaisedPrefix(tweets: seq<Doc>, normalize: string -> string, n: nat)
    requires n <= |tweets| && AllTags(tweets[..n], normalize).Raised?
    ensures AllTags(tweets, normalize) == AllTags(tweets[..n], normalize)
    decreases |tweets| - n
  {
    if n < |tweets| {
      assert tweets[..n + 1][..n] == tweets[..n];
      AllTagsRaisedPrefix(tweets, normalize, n + 1);
    } else {
      assert tweets[..n] == tweets;
    }
  }

  // -------------------------------------------------------------- ranking

  predicate SortedByCount(s: seq<Entry>)
  {
    forall i, j :: 0 <= i < j < |s| ==> s[i].count >= s[j].count
  }

  /** Insertion of `e` behind every item whose count is at least its own. */
  function Insert(e: Entry, s: seq<Entry>): (r: seq<Entry>)
    ensures |r| == |s| + 1
  {
    if |s| == 0 then [e]
    else if s[0].count >= e.count then [s[0]] + Insert(e, s[1..])
    else [e] + s
  }

  /** Insertion adds `e` and keeps every other item. */
  lemma {:induction false} InsertPermutes(e: Entry, s: seq<Entry>)
    ensures multiset(Insert(e, s)) == multiset(s) + multiset{e}
  {
    if |s| > 0 && s[0].count >= e.count {
      InsertPermutes(e, s[1..]);
      assert s == [s[0]] + s[1..];
    }
  }

  /** Insertion into a list sorted by decreasing count keeps it sorted. */
  lemma {:induction false} InsertSorted(e: Entry, s: seq<Entry>)
    requires SortedByCount(s)
    ensures SortedByCount(Insert(e, s))
  {
    if |s| > 0 && s[0].count >= e.count {
      InsertSorted(e, s[1..]);
      InsertPermutes(e, s[1..]);
      var rest := Insert(e, s[1..]);
      forall k | 0 <= k < |rest| ensures s[0].count >= rest[k].count {
        assert rest[k] in multiset(s[1..]) + multiset{e};
        if rest[k] != e {
          assert rest[k] in s[1..];
        }
      }
    }
  }

  /** `sorted(items, key=count, reverse=True)`: a stable insertion sort. */
  function SortByCountDesc(s: seq<Entry>): (r: seq<Entry>)
    ensures |r| == |s|
  {
    if |s| == 0 then [] else Insert(s[|s| - 1], SortByCountDesc(s[..|s| - 1]))
  }

  /** The ranking is a permutation of the counted items, highest count first. */
  lemma SortPermutesAndOrders(s: seq<Entry>)
    ensures multiset(SortByCountDesc(s)) == multiset(s)
    ensures SortedByCount(SortByCountDesc(s))
  {
    SortPermutes(s);
    SortOrders(s);
  }

  lemma {:induction false} SortPermutes(s: seq<Entry>)
    ensures multiset(SortByCountDesc(s)) == multiset(s)
  {
    if |s| > 0 {
      var init, e := s[..|s| - 1], s[|s| - 1];
      SortPermutes(init);
      InsertPermutes(e, SortByCountDesc(init));
      assert s == init + [e];
    }
  }

  lemma {:induction false} SortOrders(s: seq<Entry>)
    ensures SortedByCount(SortByCountDesc(s))
  {
    if |s| > 0 {
      SortOrders(s[..|s| - 1]);
      InsertSorted(s[|s| - 1], SortByCountDesc(s[..|s| - 1]));
    }
  }

  /** The items with count `c`, in order. */
  function WithCount(s: seq<Entry>, c: nat): seq<Entry>
  {
    if |s| == 0 then [] else (if s[0].count == c then [s[0]] else []) + WithCount(s[1..], c)
  }

  lemma {:induction false} WithCountConcat(a: seq<Entry>, b: seq<Entry>, c: nat)
    ensures WithCount(a + b, c) == WithCount(a, c) + WithCount(b, c)
  {
    if |a| > 0 {
      assert (a + b)[1..] == a[1..] + b;
      WithCountConcat(a[1..], b, c);
    } else {
      assert a + b == b;
    }
  }

  lemma {:induction false} WithCountNone(s: seq<Entry>, c: nat)
    requires forall x :: x in s ==> x.count != c
    ensures WithCount(s, c) == []
  {
    if |s| > 0 {
      WithCountNone(s[1..], c);
    }
  }

  /** Inserting puts `e` behind every item with its count. */
  lemma {:induction false} WithCountInsert(e: Entry, s: seq<Entry>, c: nat)
    requires SortedByCount(s)
    ensures WithCount(Insert(e, s), c) == WithCount(s, c) + (if e.count == c then [e] else [])
  {
    if |s| == 0 {
    } else if s[0].count >= e.count {
      WithCountInsert(e, s[1..], c);
      WithCountConcat([s[0]], Insert(e, s[1..]), c);
      WithCountConcat([s[0]], s[1..], c);
      assert s == [s[0]] + s[1..];
    } else {
      WithCountConcat([e], s, c);
      if e.count == c {
        WithCountNone(s, c);
      }
    }
  }

  /** The sort is stable: items with equal counts keep their relative order. */
  lemma {:induction false} SortIsStable(s: seq<Entry>, c: nat)
    ensures WithCount(SortByCountDesc(s), c) == WithCount(s, c)
  {
    if |s| > 0 {
      var init, e := s[..|s| - 1], s[|s| - 1];
      SortIsStable(init, c);
      SortPermutesAndOrders(init);
      WithCountInsert(e, SortByCountDesc(init), c);
      WithCountConcat(init, [e], c);
      assert s == init + [e];
    }
  }

  /** Sorting keeps the names pairwise distinct. */
  lemma {:induction false} SortKeepsDistinctNames(s: seq<Entry>)
    requires DistinctNames(s)
    ensures DistinctNames(SortByCountDesc(s))
  {
    if |s| > 0 {
      var init, e := s[..|s| - 1], s[|s| - 1];
      SortKeepsDistinctNames(init);
      SortPermutesAndOrders(init);
      var sorted := SortByCountDesc(init);
      forall x | x in sorted ensures x.name != e.name {
        assert x in multiset(sorted);
        assert x in init;
      }
      InsertKeepsDistinctNames(e, sorted);
    }
  }

  lemma {:induction false} InsertKeepsDistinctNames(e: Entry, s: seq<Entry>)
    requires DistinctNames(s) && forall x :: x in s ==> x.name != e.name
    ensures DistinctNames(Insert(e, s))
  {
    if |s| > 0 && s[0].count >= e.count {
      InsertKeepsDistinctNames(e, s[1..]);
      InsertPermutes(e, s[1..]);
      var rest := Insert(e, s[1..]);
      forall k | 0 <= k < |rest| ensures rest[k].name != s[0].name {
        assert rest[k] in multiset(s[1..]) + multiset{e};
        if rest[k] != e {
          assert rest[k] in s[1..];
        }
      }
    }
  }

  // ---------------------------------------------------------------- result

  /** `hashtag_ranking[0:vector_length]`: the first `vector_length` items,
      or all but the last `-vector_length` when that is negative. */
  function TopN(ranking: seq<Entry>, vectorLength: int): (top: seq<Entry>)
    ensures |top| <= |ranking| && top == ranking[..|top|]
    ensures vectorLength >= 0 ==> |top| == if vectorLength <= |ranking| then vectorLength else |ranking|
    ensures vectorLength < 0 ==> |top| == if |ranking| + vectorLength >= 0 then |ranking| + vectorLength else 0
  {
    Collections.PySlice(ranking, 0, vectorLength)
  }

  /** `_calculate_top_hashtags(tweets, include_counts)` for `self._vector_length`. */
  function TopHashtagsOf(tweets: seq<Doc>, vectorLength: int, includeCounts: bool, normalize: string -> string): Result<TopResult>
  {
    match AllTags(tweets, normalize)
    case Raised(e, m) => Raised(e, m)
    case Ok(tags) =>
      var top := TopN(SortByCountDesc(Tally(tags)), vectorLength);
      if includeCounts then Ok(WithCounts(top)) else Ok(NamesOnly(Names(top)))
  }

  /** `_calculate_top_hashtags`: the counting loop, then the sort, the slice and the projection. */
  method CalculateTopHashtags(tweets: seq<Doc>, vectorLength: int, includeCounts: bool, normalize: string -> string)
    returns (r: Result<TopResult>)
    ensures r == TopHashtagsOf(tweets, vectorLength, includeCounts, normalize)
  {
    var counted := CountHashtags(tweets, normalize);
    if counted.Raised? {
      return Raised(counted.exception, counted.message);
    }
    var top := TopN(SortByCountDesc(counted.value), vectorLength);
    if includeCounts {
      return Ok(WithCounts(top));
    }
    r := Ok(NamesOnly(Names(top)));
  }

  /** The full ranking: ordered by decreasing count, distinct names, and
      each count the number of occurrences of its hashtag. */
  lemma {:induction false} RankingProperties(tags: seq<string>)
    ensures var ranking := SortByCountDesc(Tally(tags));
            && SortedByCount(ranking) && DistinctNames(ranking)
            && (forall h :: h in tags <==> h in Names(ranking))
            && (forall k :: 0 <= k < |ranking| ==> ranking[k].count == Occurrences(tags, ranking[k].name))
  {
    var tally := Tally(tags);
    TallyCounts(tags);
    var ranking := SortByCountDesc(tally);
    SortPermutesAndOrders(tally);
    SortKeepsDistinctNames(tally);
    forall k | 0 <= k < |ranking| ensures ranking[k].count == Occurrences(tags, ranking[k].name) {
      assert ranking[k] in multiset(tally);
      assert ranking[k] in tally;
    }
    forall h ensures h in Names(tally) <==> h in Names(ranking) {
      if h in Names(tally) {
        var k :| 0 <= k < |tally| && tally[k].name == h;
        assert tally[k] in multiset(ranking);
        var m :| 0 <= m < |ranking| && ranking[m] == tally[k];
        assert Names(ranking)[m] == h;
      }
      if h in Names(ranking) {
        var k :| 0 <= k < |ranking| && ranking[k].name == h;
        assert ranking[k] in multiset(tally);
        var m :| 0 <= m < |tally| && tally[m] == ranking[k];
        assert Names(tally)[m] == h;
      }
    }
  }

  /** The kept items are ordered by decreasing count, have distinct names
      and carry true counts; nothing left out has a higher count than
      anything kept. */
  lemma TopProperties(tags: seq<string>, vectorLength: int)
    ensures var ranking := SortByCountDesc(Tally(tags));
            var top := TopN(ranking, vectorLength);
            && SortedByCount(top) && DistinctNames(top)
            && (forall k :: 0 <= k < |top| ==> top[k].count == Occurrences(tags, top[k].name))
            && (forall i, j :: 0 <= i < |top| <= j < |ranking| ==> ranking[j].count <= ranking[i].count)
  {
    RankingProperties(tags);
    var ranking := SortByCountDesc(Tally(tags));
    var top := TopN(ranking, vectorLength);
    assert SortedByCount(top) by {
      forall i, j | 0 <= i < j < |top| ensures top[i].count >= top[j].count {
        assert top[i] == ranking[i] && top[j] == ranking[j];
      }
    }
    assert DistinctNames(top) by {
      forall i, j | 0 <= i < j < |top| ensures top[i].name != top[j].name {
        assert top[i] == ranking[i] && top[j] == ranking[j];
      }
    }
    forall k | 0 <= k < |top| ensures top[k].count == Occurrences(tags, top[k].name) {
      assert top[k] == ranking[k];
    }
    forall i, j | 0 <= i < |top| <= j < |ranking| ensures ranking[j].count <= ranking[i].count {
    }
  }

  /** Counted over the whole tweet list, the names-only result is the
      projection of the counted result, in the same order. */
  lemma NamesAreProjection(tweets: seq<Doc>, vectorLength: int, normalize: string -> string)
    requires AllTags(tweets, normalize).Ok?
    ensures TopHashtagsOf(tweets, vectorLength, false, normalize).Ok?
    ensures var names := TopHashtagsOf(tweets, vectorLength, false, normalize).value.names;
            var entries := TopHashtagsOf(tweets, vectorLength, true, normalize).value.entries;
            |names| == |entries| && forall k :: 0 <= k < |names| ==> names[k] == entries[k].name
  {
  }

  /** `_collect_tweets_for_user`: the user's tweets, in natural order. */
  function TweetsOf(tweets: Mongo.Store, userId: Json): seq<Doc>
  {
    Mongo.Find(tweets.docs, t => Get(t, "author_id") == userId)
  }

  /** `TopHashtags._extract_for(twitter_user)`: the top names of the user's tweets. */
  function ExtractFor(user: Doc, tweets: Mongo.Store, vectorLength: int, normalize: string -> string): (r: Result<TopResult>)
    ensures "id" !in user ==> r == Raised("KeyError", "id")
    ensures "id" in user ==> r == TopHashtagsOf(TweetsOf(tweets, user["id"]), vectorLength, false, normalize)
  {
    match Lookup(user, "id")
    case Raised(e, m) => Raised(e, m)
    case Ok(id) => TopHashtagsOf(TweetsOf(tweets, id), vectorLength, false, normalize)
  }
}

/** The local copy of the GeoNames place collection and its staged search:
    the whole query by exact name, then by name or alternate name, then each
    comma-separated part of the query in turn, stopping at the first stage
    that matches anything. */
module GeonamesLocalDatabase {
  import opened Common
  import Mongo

  /** What `search` returns when something matched: the first place
      (`first_match`) or the whole result. */
  datatype Hit = First(place: Doc) | All(places: seq<Doc>)

  /** MongoDB's `{"name": q}`: the field equals q, or is an array holding q. */
  predicate NameIs(d: Doc, q: string)
  {
    var v := Get(d, "name");
    v == JStr(q) || (v.JList? && JStr(q) in v.items)
  }

  /** `{"alternate_names": {"$elemMatch": {"$eq": q}}}`: only an array matches. */
  predicate AlternateNameIs(d: Doc, q: string)
  {
    var v := Get(d, "alternate_names");
    v.JList? && JStr(q) in v.items
  }

  predicate NameOrAlternateIs(d: Doc, q: string)
  {
    NameIs(d, q) || AlternateNameIs(d, q)
  }

  /** `_match_name`. */
  function MatchName(places: seq<Doc>, q: string): (r: seq<Doc>)
    ensures forall p :: p in r <==> p in places && NameIs(p, q)
  {
    Mongo.Find(places, d => NameIs(d, q))
  }

  /** `_match_name_or_alternate_name`. */
  function MatchNameOrAlternateName(places: seq<Doc>, q: string): (r: seq<Doc>)
    ensures forall p :: p in r <==> p in places && NameOrAlternateIs(p, q)
  {
    Mongo.Find(places, d => NameOrAlternateIs(d, q))
  }

  /** `_limit_result`. */
  function LimitResult(results: seq<Doc>, firstMatch: bool): (h: Hit)
    requires |results| > 0
    ensures firstMatch <==> h.First?
    ensures h.First? ==> h.place == results[0]
    ensures h.All? ==> h.places == results
  {
    if firstMatch then First(results[0]) else All(results)
  }

  /** `[qp.strip() for qp in query.split(",")]`. */
  function QueryParts(query: string): (parts: seq<string>)
    ensures |parts| == |Split(query, ',')|
    ensures forall i :: 0 <= i < |parts| ==> parts[i] == Strip(Split(query, ',')[i])
  {
    seq(|Split(query, ',')|, i requires 0 <= i < |Split(query, ',')| => Strip(Split(query, ',')[i]))
  }

  /** The loop over the parts: both stages for one part before the next part. */
  function SearchParts(places: seq<Doc>, parts: seq<string>, firstMatch: bool): (r: Option<Hit>)
    ensures r.Some? ==> (r.value.First? <==> firstMatch) && (r.value.All? ==> |r.value.places| > 0)
  {
    if |parts| == 0 then None
    else if |MatchName(places, parts[0])| > 0 then Some(LimitResult(MatchName(places, parts[0]), firstMatch))
    else if |MatchNameOrAlternateName(places, parts[0])| > 0 then
      Some(LimitResult(MatchNameOrAlternateName(places, parts[0]), firstMatch))
    else SearchParts(places, parts[1..], firstMatch)
  }

  /** `search(query, first_match)`; `query` is None or a string. */
  function Search(places: seq<Doc>, query: Option<string>, firstMatch: bool): (r: Option<Hit>)
    ensures query.None? || query == Some("") ==> r.None?
    ensures r.Some? ==> (r.value.First? <==> firstMatch) && (r.value.All? ==> |r.value.places| > 0)
  {
    if query.None? || query.value == "" then None
    else
      var q := query.value;
      if |MatchName(places, q)| > 0 then Some(LimitResult(MatchName(places, q), firstMatch))
      else if |MatchNameOrAlternateName(places, q)| > 0 then
        Some(LimitResult(MatchNameOrAlternateName(places, q), firstMatch))
      else SearchParts(places, QueryParts(q), firstMatch)
  }

  // An independent description of the search: a flat list of stages,
  // tried in order.

  /** One stage: a text, matched by name only or by name or alternate name. */
  datatype Stage = ByName(text: string) | ByNameOrAlternate(text: string)

  function StageResults(places: seq<Doc>, s: Stage): seq<Doc>
  {
    match s
    case ByName(t) => MatchName(places, t)
    case ByNameOrAlternate(t) => MatchNameOrAlternateName(places, t)
  }

  /** Both stages for each text, texts in order. */
  function StagesFor(texts: seq<string>): (stages: seq<Stage>)
    ensures |stages| == 2 * |texts|
    ensures forall i :: 0 <= i < |texts| ==>
              stages[2 * i] == ByName(texts[i]) && stages[2 * i + 1] == ByNameOrAlternate(texts[i])
  {
    if |texts| == 0 then [] else [ByName(texts[0]), ByNameOrAlternate(texts[0])] + StagesFor(texts[1..])
  }

  /** The whole query first, then every stripped part. */
  function StageOrder(query: string): seq<Stage>
  {
    StagesFor([query] + QueryParts(query))
  }

  /** The result of the first stage that matches anything. */
  function FirstNonEmpty(places: seq<Doc>, stages: seq<Stage>, firstMatch: bool): (r: Option<Hit>)
    ensures r.Some? ==> (r.value.First? <==> firstMatch) && (r.value.All? ==> |r.value.places| > 0)
  {
    if |stages| == 0 then None
    else if |StageResults(places, stages[0])| > 0 then Some(LimitResult(StageResults(places, stages[0]), firstMatch))
    else FirstNonEmpty(places, stages[1..], firstMatch)
  }

  lemma {:induction false} SearchPartsIsFirstNonEmpty(places: seq<Doc>, parts: seq<string>, firstMatch: bool)
    ensures SearchParts(places, parts, firstMatch) == FirstNonEmpty(places, StagesFor(parts), firstMatch)
  {
    if |parts| > 0 {
      var stages := StagesFor(parts);
      assert stages[1..][1..] == StagesFor(parts[1..]);
      SearchPartsIsFirstNonEmpty(places, parts[1..], firstMatch);
    }
  }

  /** The search tries exactly the stages of `StageOrder`, in order, and
      returns the first non-empty one. */
  lemma SearchIsStaged(places: seq<Doc>, query: string, firstMatch: bool)
    requires query != ""
    ensures Search(places, Some(query), firstMatch) == FirstNonEmpty(places, StageOrder(query), firstMatch)
  {
    var parts := QueryParts(query);
    assert ([query] + parts)[1..] == parts;
    var stages := StageOrder(query);
    assert stages[1..][1..] == StagesFor(parts);
    SearchPartsIsFirstNonEmpty(places, parts, firstMatch);
  }

  /** The text a stage matches against. */
  function StageText(s: Stage): string
  {
    match s
    case ByName(t) => t
    case ByNameOrAlternate(t) => t
  }

  /** Every place a hit holds comes from the collection and carries one of
      the stage texts as its name or an alternate name; a hit is never empty. */
  predicate HitMatches(places: seq<Doc>, h: Hit, texts: seq<string>)
  {
    && (h.All? ==> |h.places| > 0)
    && (forall p :: p in HitPlaces(h) ==> p in places && exists t :: t in texts && NameOrAlternateIs(p, t))
  }

  function HitPlaces(h: Hit): seq<Doc>
  {
    match h
    case First(p) => [p]
    case All(ps) => ps
  }

  lemma {:induction false} FirstNonEmptySound(places: seq<Doc>, stages: seq<Stage>, firstMatch: bool, texts: seq<string>)
    requires forall s :: s in stages ==> StageText(s) in texts
    requires FirstNonEmpty(places, stages, firstMatch).Some?
    ensures HitMatches(places, FirstNonEmpty(places, stages, firstMatch).value, texts)
  {
    if |StageResults(places, stages[0])| > 0 {
      var rs := StageResults(places, stages[0]);
      var t := StageText(stages[0]);
      assert forall p :: p in rs ==> p in places && NameOrAlternateIs(p, t);
      var h := LimitResult(rs, firstMatch);
      forall p | p in HitPlaces(h) ensures p in places && exists t :: t in texts && NameOrAlternateIs(p, t) {
        assert p in rs;
      }
    } else {
      FirstNonEmptySound(places, stages[1..], firstMatch, texts);
    }
  }

  lemma {:induction false} FirstNonEmptyNone(places: seq<Doc>, stages: seq<Stage>, firstMatch: bool)
    ensures FirstNonEmpty(places, stages, firstMatch).None? <==>
            forall s :: s in stages ==> |StageResults(places, s)| == 0
  {
    if |stages| > 0 {
      FirstNonEmptyNone(places, stages[1..], firstMatch);
      assert forall s :: s in stages <==> s == stages[0] || s in stages[1..];
    }
  }

  lemma StagesForTexts(texts: seq<string>)
    ensures forall s :: s in StagesFor(texts) ==> StageText(s) in texts
    ensures forall t :: t in texts ==> ByName(t) in StagesFor(texts) && ByNameOrAlternate(t) in StagesFor(texts)
  {
    var stages := StagesFor(texts);
    forall s | s in stages ensures StageText(s) in texts {
      var k :| 0 <= k < |stages| && stages[k] == s;
      assert texts[k / 2] in texts;
    }
    forall t | t in texts ensures ByName(t) in stages && ByNameOrAlternate(t) in stages {
      var i :| 0 <= i < |texts| && texts[i] == t;
      assert stages[2 * i] == ByName(t);
      assert stages[2 * i + 1] == ByNameOrAlternate(t);
    }
  }

  /** Any returned place has the whole query or one stripped part as its
      name or an alternate name. */
  lemma SearchSound(places: seq<Doc>, query: string, firstMatch: bool)
    requires Search(places, Some(query), firstMatch).Some?
    ensures HitMatches(places, Search(places, Some(query), firstMatch).value, [query] + QueryParts(query))
  {
    SearchIsStaged(places, query, firstMatch);
    StagesForTexts([query] + QueryParts(query));
    FirstNonEmptySound(places, StageOrder(query), firstMatch, [query] + QueryParts(query));
  }

  /** A non-empty query finds nothing exactly when no place carries the query
      or any stripped part as its name or an alternate name. */
  lemma SearchNoneIff(places: seq<Doc>, query: string, firstMatch: bool)
    requires query != ""
    ensures Search(places, Some(query), firstMatch).None? <==>
            forall p, t :: p in places && t in [query] + QueryParts(query) ==> !NameOrAlternateIs(p, t)
  {
    var texts := [query] + QueryParts(query);
    var stages := StageOrder(query);
    SearchIsStaged(places, query, firstMatch);
    StagesForTexts(texts);
    FirstNonEmptyNone(places, stages, firstMatch);
    if Search(places, Some(query), firstMatch).None? {
      forall p, t | p in places && t in texts ensures !NameOrAlternateIs(p, t) {
        assert ByNameOrAlternate(t) in stages;
        assert |MatchNameOrAlternateName(places, t)| == 0;
      }
    } else {
      var s :| s in stages && |StageResults(places, s)| > 0;
      var p := StageResults(places, s)[0];
      assert p in places && NameOrAlternateIs(p, StageText(s));
    }
  }

  lemma {:induction false} FirstNonEmptyFirstMatch(places: seq<Doc>, stages: seq<Stage>)
    requires FirstNonEmpty(places, stages, false).Some?
    ensures FirstNonEmpty(places, stages, true) == Some(First(FirstNonEmpty(places, stages, false).value.places[0]))
  {
    if |StageResults(places, stages[0])| == 0 {
      FirstNonEmptyFirstMatch(places, stages[1..]);
    }
  }

  /** With `first_match` the search returns the first place of the result it
      returns without it, and finds something exactly when that does. */
  lemma SearchFirstMatch(places: seq<Doc>, query: Option<string>)
    ensures Search(places, query, true).None? <==> Search(places, query, false).None?
    ensures Search(places, query, false).Some? ==>
              Search(places, query, true) == Some(First(Search(places, query, false).value.places[0]))
  {
    if query.Some? && query.value != "" {
      SearchIsStaged(places, query.value, true);
      SearchIsStaged(places, query.value, false);
      FirstNonEmptyNone(places, StageOrder(query.value), true);
      FirstNonEmptyNone(places, StageOrder(query.value), false);
      if Search(places, query, false).Some? {
        FirstNonEmptyFirstMatch(places, StageOrder(query.value));
      }
    }
  }
}

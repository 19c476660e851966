/** Loading the GeoNames country export (one tab-separated line per place)
    into the local place collection, and the one-off repairs of that
    collection: feature codes added afterwards, non-populated places removed,
    numeric fields stored as integers. The file read is replaced by its lines. */
module OfflineDataInserter {
  import opened Common
  import Mongo

  // ------------------------------------------------------------ parsing

  /** Python `int(x)` on a decoded value. */
  function IntOf(j: Json): (r: Result<int>)
    ensures j.JInt? ==> r == Ok(j.i)
    ensures j.JBool? ==> r == Ok(if j.b then 1 else 0)
    ensures j.JStr? ==> (r.Ok? <==> ParseInt(j.s).Some?) && (r.Ok? ==> r.value == ParseInt(j.s).value)
    ensures j.JReal? ==> r.Ok? && (r.value as real) <= j.r + 1.0 && j.r - 1.0 <= r.value as real
    ensures j.JNull? || j.JList? || j.JObj? || j.JOid? ==> r.Raised? && r.exception == "TypeError"
  {
    match j
    case JInt(i) => Ok(i)
    case JBool(b) => Ok(if b then 1 else 0)
    case JReal(x) => Ok(if x >= 0.0 then x.Floor else -((-x).Floor))
    case JStr(s) => ParseField(s)
    case _ => Raised("TypeError", "int() argument must be a string or a number")
  }

  /** Python `int(s)` on a string. */
  function ParseField(s: string): (r: Result<int>)
    ensures r.Ok? <==> ParseInt(s).Some?
    ensures r.Ok? ==> r.value == ParseInt(s).value
    ensures r.Raised? ==> r.exception == "ValueError"
  {
    match ParseInt(s)
    case Some(n) => Ok(n)
    case None => Raised("ValueError", "invalid literal for int() with base 10")
  }

  /** The country arguments of `insert_from_file`, copied into every place. */
  datatype Country = Country(name: Json, code: Json, id: Json)

  predicate IsPopulatedPlaceCode(code: string)
  {
    StartsWith(code, "PPL")
  }

  function Strs(ss: seq<string>): (r: seq<Json>)
    ensures |r| == |ss| && forall i :: 0 <= i < |ss| ==> r[i] == JStr(ss[i])
  {
    seq(|ss|, i requires 0 <= i < |ss| => JStr(ss[i]))
  }

  /** The place document built from the fields of a kept line. */
  function PlaceDoc(fields: seq<string>, id: int, population: int, country: Country): (d: Doc)
    requires |fields| >= 15
    ensures "_id" !in d
  {
    map["geonames_id" := JInt(id), "country_id" := country.id, "name" := JStr(fields[1]),
        "population" := JInt(population), "state" := JNull, "state_code" := JStr(fields[10]),
        "country_name" := country.name, "country_code" := country.code, "lng" := JStr(fields[5]),
        "lat" := JStr(fields[4]), "alternate_names" := JList(Strs(Split(fields[3], ','))),
        "feature_code" := JStr(fields[7])]
  }

  /** One line of the export: None when its feature code (field 7) is not a
      populated-place code, otherwise the place; a line too short for the
      fields it needs raises IndexError, a non-integer id or population
      ValueError. */
  function ParseLine(line: string, country: Country): Result<Option<Doc>>
  {
    var f := Split(line, '\t');
    if |f| <= 7 then Raised("IndexError", "list index out of range")
    else if !IsPopulatedPlaceCode(f[7]) then Ok(None)
    else match ParseField(f[0])
      case Raised(e, m) => Raised(e, m)
      case Ok(id) =>
        if |f| <= 14 then Raised("IndexError", "list index out of range")
        else match ParseField(f[14])
          case Raised(e, m) => Raised(e, m)
          case Ok(population) => Ok(Some(PlaceDoc(f, id, population, country)))
  }

  /** A line is dropped exactly when it has a field 7 that is not a
      populated-place code; a kept line gives the place its fields describe. */
  lemma ParseLineKeeps(line: string, country: Country)
    ensures var r := ParseLine(line, country);
            r.Ok? && r.value.Some? ==> var f := Split(line, '\t');
              |f| >= 15 && IsPopulatedPlaceCode(f[7]) && ParseInt(f[0]).Some? && ParseInt(f[14]).Some?
              && r.value.value == PlaceDoc(f, ParseInt(f[0]).value, ParseInt(f[14]).value, country)
    ensures ParseLine(line, country) == Ok(None) <==> |Split(line, '\t')| > 7 && !IsPopulatedPlaceCode(Split(line, '\t')[7])
  {
  }

  /** A line written from separator-free fields reads back to the place they
      describe, and its alternate names join back to field 3. */
  lemma LineRoundTrip(fields: seq<string>, id: int, population: int, country: Country)
    requires |fields| >= 15 && forall i :: 0 <= i < |fields| ==> '\t' !in fields[i]
    requires fields[0] == IntString(id) && fields[14] == IntString(population)
    ensures IsPopulatedPlaceCode(fields[7]) ==>
              ParseLine(Join(fields, "\t"), country)
                == Ok(Some(PlaceDoc(fields, id, population, country)))
    ensures !IsPopulatedPlaceCode(fields[7]) ==> ParseLine(Join(fields, "\t"), country) == Ok(None)
    ensures Join(Split(fields[3], ','), ",") == fields[3]
  {
    var line := Join(fields, "\t");
    SplitJoin(fields, '\t');
    assert Split(line, '\t') == fields;
    ParseIntString(id);
    ParseIntString(population);
    ParseLineOfFields(line, fields, country);
    JoinSplit(fields[3], ',');
  }

  lemma ParseLineOfFields(line: string, fields: seq<string>, country: Country)
    requires Split(line, '\t') == fields && |fields| >= 15
    requires ParseInt(fields[0]).Some? && ParseInt(fields[14]).Some?
    ensures IsPopulatedPlaceCode(fields[7]) ==>
              ParseLine(line, country)
                == Ok(Some(PlaceDoc(fields, ParseInt(fields[0]).value, ParseInt(fields[14]).value, country)))
    ensures !IsPopulatedPlaceCode(fields[7]) ==> ParseLine(line, country) == Ok(None)
  {
  }

  /** The places of `_parse_populated_places`, in line order; the first bad
      line's error otherwise. */
  function PopulatedPlaces(lines: seq<string>, country: Country): Result<seq<Doc>>
  {
    if |lines| == 0 then Ok([])
    else match PopulatedPlaces(lines[..|lines| - 1], country)
      case Raised(e, m) => Raised(e, m)
      case Ok(places) =>
        match Kept(lines[|lines| - 1], country)
        case Raised(e, m) => Raised(e, m)
        case Ok(k) => Ok(places + k)
  }

  /** What one line adds to the places. */
  function Kept(line: string, country: Country): Result<seq<Doc>>
  {
    match ParseLine(line, country)
    case Raised(e, m) => Raised(e, m)
    case Ok(None) => Ok([])
    case Ok(Some(p)) => Ok([p])
  }

  lemma PopulatedPlacesStep(lines: seq<string>, i: nat, country: Country)
    requires i < |lines|
    ensures PopulatedPlaces(lines[..i + 1], country)
              == match PopulatedPlaces(lines[..i], country)
                 case Raised(e, m) => Raised(e, m)
                 case Ok(places) =>
                   match Kept(lines[i], country)
                   case Raised(e, m) => Raised(e, m)
                   case Ok(k) => Ok(places + k)
  {
    assert lines[..i + 1][..i] == lines[..i];
  }

  lemma {:induction false} PopulatedPlacesRaisedPrefix(lines: seq<string>, i: nat, country: Country)
    requires i <= |lines| && PopulatedPlaces(lines[..i], country).Raised?
    ensures PopulatedPlaces(lines, country) == PopulatedPlaces(lines[..i], country)
    decreases |lines| - i
  {
    if i < |lines| {
      assert lines[..i + 1][..i] == lines[..i];
      PopulatedPlacesRaisedPrefix(lines, i + 1, country);
    } else {
      assert lines[..i] == lines;
    }
  }

  /** Places keep the order of their lines: parsing a concatenation of two
      files' lines concatenates their places. */
  lemma {:induction false} PopulatedPlacesConcat(a: seq<string>, b: seq<string>, country: Country)
    requires PopulatedPlaces(a, country).Ok? && PopulatedPlaces(b, country).Ok?
    ensures PopulatedPlaces(a + b, country)
              == Ok(PopulatedPlaces(a, country).value + PopulatedPlaces(b, country).value)
  {
    if |b| == 0 {
      assert a + b == a;
      assert PopulatedPlaces(a, country).value + [] == PopulatedPlaces(a, country).value;
    } else {
      var b', line := b[..|b| - 1], b[|b| - 1];
      var ab := a + b;
      assert ab[..|ab| - 1] == a + b';
      assert ab[|ab| - 1] == line;
      assert PopulatedPlaces(b', country).Ok? && Kept(line, country).Ok?;
      PopulatedPlacesConcat(a, b', country);
      var pa, pb', k := PopulatedPlaces(a, country).value, PopulatedPlaces(b', country).value, Kept(line, country).value;
      assert PopulatedPlaces(b, country).value == pb' + k;
      assert PopulatedPlaces(ab, country) == Ok((pa + pb') + k);
      assert (pa + pb') + k == pa + (pb' + k);
    }
  }

  // ------------------------------------------------------------ the collection

  /** The query `{"geonames_id": id}`. */
  function ByGeonamesId(id: Json): Doc -> bool
  {
    d => Get(d, "geonames_id") == id
  }

  /** One iteration of `insert_from_file`: a new id is inserted, an existing
      place that has alternate names is left alone, and one without them gets
      the new place's alternate names and nothing else. */
  function MergePlace(s: Mongo.Store, place: Doc): Mongo.Store
  {
    match Mongo.FindOne(s, ByGeonamesId(Get(place, "geonames_id")))
    case None => Mongo.Save(s, place)
    case Some(existing) =>
      if "alternate_names" in existing then s
      else Mongo.Save(s, existing["alternate_names" := Get(place, "alternate_names")])
  }

  function MergePlaces(s: Mongo.Store, places: seq<Doc>): Mongo.Store
  {
    if |places| == 0 then s else MergePlace(MergePlaces(s, places[..|places| - 1]), places[|places| - 1])
  }

  lemma MergePlaceValid(s: Mongo.Store, place: Doc)
    requires Mongo.Valid(s)
    ensures Mongo.Valid(MergePlace(s, place))
  {
    match Mongo.FindOne(s, ByGeonamesId(Get(place, "geonames_id")))
    case None => Mongo.SaveUpserts(s, place);
    case Some(existing) =>
      if "alternate_names" !in existing {
        Mongo.SaveUpserts(s, existing["alternate_names" := Get(place, "alternate_names")]);
      }
  }

  /** The three cases of a merge, in terms of the stored documents. */
  lemma MergePlaceCases(s: Mongo.Store, place: Doc)
    requires Mongo.Valid(s) && "_id" !in place
    ensures Mongo.Valid(MergePlace(s, place))
    ensures var k := Mongo.IndexWhere(s.docs, ByGeonamesId(Get(place, "geonames_id")));
            && (k.None? ==> MergePlace(s, place) == Mongo.Store(s.docs + [place["_id" := JOid(s.nextOid)]], s.nextOid + 1))
            && (k.Some? && "alternate_names" in s.docs[k.value] ==> MergePlace(s, place) == s)
            && (k.Some? && "alternate_names" !in s.docs[k.value] ==>
                  MergePlace(s, place) == Mongo.Store(s.docs[k.value := s.docs[k.value]["alternate_names" := Get(place, "alternate_names")]], s.nextOid))
  {
    var k := Mongo.IndexWhere(s.docs, ByGeonamesId(Get(place, "geonames_id")));
    match k
    case None =>
      Mongo.SaveUpserts(s, place);
      assert Mongo.IndexWhere(s.docs, Mongo.HasId(JOid(s.nextOid))).None?;
    case Some(j) =>
      var e := s.docs[j];
      if "alternate_names" !in e {
        var e' := e["alternate_names" := Get(place, "alternate_names")];
        Mongo.SaveUpserts(s, e');
        Mongo.SaveReplacesInPlace(s, e', j);
      }
  }

  /** The geonames ids present in the collection. */
  predicate HasPlace(s: Mongo.Store, id: Json)
  {
    exists x :: x in s.docs && Get(x, "geonames_id") == id
  }

  lemma MergePlaceKeepsPlaces(s: Mongo.Store, place: Doc)
    requires Mongo.Valid(s) && "_id" !in place
    ensures HasPlace(MergePlace(s, place), Get(place, "geonames_id"))
    ensures forall id :: HasPlace(s, id) ==> HasPlace(MergePlace(s, place), id)
  {
    MergePlaceCases(s, place);
    var r := MergePlace(s, place);
    var k := Mongo.IndexWhere(s.docs, ByGeonamesId(Get(place, "geonames_id")));
    if k.None? {
      assert r.docs[|s.docs|] == place["_id" := JOid(s.nextOid)];
      forall id | HasPlace(s, id) ensures HasPlace(r, id) {
        var x :| x in s.docs && Get(x, "geonames_id") == id;
        assert x in r.docs;
      }
    } else if "alternate_names" !in s.docs[k.value] {
      assert r.docs[k.value] in r.docs;
      forall id | HasPlace(s, id) ensures HasPlace(r, id) {
        var x :| x in s.docs && Get(x, "geonames_id") == id;
        var m :| 0 <= m < |s.docs| && s.docs[m] == x;
        assert r.docs[m] in r.docs;
      }
    }
  }

  /** After `insert_from_file` every parsed place's id is in the collection,
      and no id that was there has gone. */
  lemma {:induction false} MergePlacesKeepsPlaces(s: Mongo.Store, places: seq<Doc>)
    requires Mongo.Valid(s) && forall p :: p in places ==> "_id" !in p
    ensures Mongo.Valid(MergePlaces(s, places))
    ensures forall p :: p in places ==> HasPlace(MergePlaces(s, places), Get(p, "geonames_id"))
    ensures forall id :: HasPlace(s, id) ==> HasPlace(MergePlaces(s, places), id)
  {
    if |places| > 0 {
      var init := places[..|places| - 1];
      var last := places[|places| - 1];
      assert forall p :: p in init ==> p in places;
      MergePlacesKeepsPlaces(s, init);
      MergePlaceCases(MergePlaces(s, init), last);
      MergePlaceKeepsPlaces(MergePlaces(s, init), last);
      assert forall p :: p in places ==> p in init || p == last;
    }
  }

  /** `place_id == int(tup[0])` for one tuple. */
  function SameId(tup: seq<string>, placeId: int): Result<bool>
  {
    if |tup| == 0 then Raised("IndexError", "list index out of range")
    else match ParseField(tup[0])
      case Raised(e, m) => Raised(e, m)
      case Ok(tupId) => Ok(placeId == tupId)
  }

  /** A tuple is the place's when its first field is the place's id as an
      integer, another place's when it is another integer, and an error
      otherwise. */
  lemma SameIdMeaning(tup: seq<string>, placeId: int)
    ensures SameId(tup, placeId) == Ok(true) <==> |tup| > 0 && ParseInt(tup[0]) == Some(placeId)
    ensures SameId(tup, placeId) == Ok(false) <==> |tup| > 0 && ParseInt(tup[0]).Some? && ParseInt(tup[0]).value != placeId
  {
  }

  /** `"adding feature for place " + place["name"]`: a KeyError without a
      name, a TypeError when the name is not a string. */
  function PrintName(place: Doc): (r: Result<()>)
    ensures r.Ok? <==> "name" in place && place["name"].JStr?
  {
    if "name" !in place then Raised("KeyError", "name")
    else if !place["name"].JStr? then Raised("TypeError", "can only concatenate str to str")
    else Ok(())
  }

  /** The loop of `_insert_feature_code`, first match wins: the feature code
      (field 7) of the first tuple with the place's id. At the match the
      message naming the place (`named`) is built before field 7 is read. */
  function FeatureCodeFor(placeId: int, named: Result<()>, tuples: seq<seq<string>>): Result<Option<string>>
  {
    if |tuples| == 0 then Ok(None)
    else match SameId(tuples[0], placeId)
      case Raised(e, m) => Raised(e, m)
      case Ok(same) =>
        if same then
          (if named.Raised? then Raised(named.exception, named.message)
           else if |tuples[0]| <= 7 then Raised("IndexError", "list index out of range")
           else Ok(Some(tuples[0][7])))
        else FeatureCodeFor(placeId, named, tuples[1..])
  }

  /** The message is built only at a match: a place that cannot be named
      fails exactly when some tuple carries its id, and then with the
      message's exception unless an earlier tuple's id is malformed. */
  lemma {:induction false} FeatureCodeNamedAtMatch(placeId: int, named: Result<()>, tuples: seq<seq<string>>, i: nat)
    requires named.Raised? && i < |tuples| && SameId(tuples[i], placeId) == Ok(true)
    requires forall j :: 0 <= j < i ==> SameId(tuples[j], placeId) == Ok(false)
    ensures FeatureCodeFor(placeId, named, tuples) == Raised(named.exception, named.message)
  {
    if i > 0 {
      assert forall j :: 0 <= j < i - 1 ==> tuples[1..][j] == tuples[j + 1];
      FeatureCodeNamedAtMatch(placeId, named, tuples[1..], i - 1);
    }
  }

  /** There is no feature code exactly when every tuple has an integer id
      and none is the place's. */
  lemma {:induction false} FeatureCodeNone(placeId: int, named: Result<()>, tuples: seq<seq<string>>)
    ensures FeatureCodeFor(placeId, named, tuples) == Ok(None) <==> forall i :: 0 <= i < |tuples| ==> SameId(tuples[i], placeId) == Ok(false)
  {
    if |tuples| > 0 {
      var rest := tuples[1..];
      FeatureCodeNone(placeId, named, rest);
      if SameId(tuples[0], placeId) == Ok(false) {
        assert FeatureCodeFor(placeId, named, tuples) == FeatureCodeFor(placeId, named, rest);
        assert forall i :: 1 <= i < |tuples| ==> tuples[i] == rest[i - 1];
      } else {
        assert FeatureCodeFor(placeId, named, tuples) != Ok(None);
      }
    }
  }

  /** The feature code comes from the first tuple whose id is the place's. */
  lemma {:induction false} FeatureCodeFromFirstMatch(placeId: int, named: Result<()>, tuples: seq<seq<string>>) returns (i: nat)
    requires FeatureCodeFor(placeId, named, tuples).Ok? && FeatureCodeFor(placeId, named, tuples).value.Some?
    ensures named.Ok?
    ensures i < |tuples| && |tuples[i]| > 7 && SameId(tuples[i], placeId) == Ok(true)
    ensures FeatureCodeFor(placeId, named, tuples).value.value == tuples[i][7]
    ensures forall j :: 0 <= j < i ==> SameId(tuples[j], placeId) == Ok(false)
  {
    if SameId(tuples[0], placeId) == Ok(false) {
      assert FeatureCodeFor(placeId, named, tuples) == FeatureCodeFor(placeId, named, tuples[1..]);
      var k := FeatureCodeFromFirstMatch(placeId, named, tuples[1..]);
      i := k + 1;
      EarlierTuples(placeId, tuples, k);
    } else {
      i := 0;
    }
  }

  lemma EarlierTuples(placeId: int, tuples: seq<seq<string>>, k: nat)
    requires 0 < |tuples| && k < |tuples| - 1 && SameId(tuples[0], placeId) == Ok(false)
    requires forall j :: 0 <= j < k ==> SameId(tuples[1..][j], placeId) == Ok(false)
    ensures tuples[k + 1] == tuples[1..][k]
    ensures forall j :: 0 <= j < k + 1 ==> SameId(tuples[j], placeId) == Ok(false)
  {
    forall j | 0 < j < k + 1 ensures SameId(tuples[j], placeId) == Ok(false) {
      assert tuples[j] == tuples[1..][j - 1];
    }
  }

  /** `_insert_feature_code`'s outcome for a place: its id, then the code. */
  function FeatureCode(place: Doc, tuples: seq<seq<string>>): Result<Option<string>>
  {
    match Lookup(place, "geonames_id")
    case Raised(e, m) => Raised(e, m)
    case Ok(v) =>
      match IntOf(v)
      case Raised(e, m) => Raised(e, m)
      case Ok(placeId) => FeatureCodeFor(placeId, PrintName(place), tuples)
  }

  /** A place of the Swiss export (`{"country_code": "CH"}`). */
  predicate IsSwissPlace(d: Doc)
  {
    Get(d, "country_code") == JStr("CH")
  }

  /** What `remove_non_ppl` deletes: a Swiss place with a feature code that
      is not a populated-place code. */
  predicate IsNonPopulated(d: Doc)
  {
    IsSwissPlace(d) && "feature_code" in d && d["feature_code"].JStr? && !IsPopulatedPlaceCode(d["feature_code"].s)
  }

  /** The places `remove_non_ppl` keeps once it has handled the first `i`
      places of its cursor. */
  function KeptAfter(cursor: seq<Doc>, i: nat): Doc -> bool
    requires i <= |cursor|
  {
    x => !(x in cursor[..i] && IsNonPopulated(x))
  }

  /** The collection `remove_non_ppl` leaves once it has handled the first
      `i` Swiss places: the other places, in their stored order. */
  function RemovedBefore(places: Mongo.Store, i: nat): (r: seq<Doc>)
    requires i <= |Mongo.Find(places.docs, IsSwissPlace)|
    ensures forall x :: x in r <==> x in places.docs && !(x in Mongo.Find(places.docs, IsSwissPlace)[..i] && IsNonPopulated(x))
  {
    Mongo.Find(places.docs, KeptAfter(Mongo.Find(places.docs, IsSwissPlace), i))
  }

  /** One place of `remove_non_ppl`'s cursor, deleted or kept, advances the
      collection from one prefix state to the next. */
  lemma RemovedBeforeStep(olds: Mongo.Store, i: nat, now: Mongo.Store)
    requires Mongo.Valid(olds) && i < |Mongo.Find(olds.docs, IsSwissPlace)|
    requires Mongo.Valid(now) && now.docs == RemovedBefore(olds, i)
    ensures var d := Mongo.Find(olds.docs, IsSwissPlace)[i];
            && IsSwissPlace(d)
            && (IsNonPopulated(d) ==> d in now.docs && Mongo.Valid(Mongo.DeleteOne(now, Mongo.HasId(Mongo.IdOf(d))))
                                      && Mongo.DeleteOne(now, Mongo.HasId(Mongo.IdOf(d))).docs == RemovedBefore(olds, i + 1))
            && (!IsNonPopulated(d) ==> now.docs == RemovedBefore(olds, i + 1))
  {
    var cursor := Mongo.Find(olds.docs, IsSwissPlace);
    var d := cursor[i];
    assert d in cursor;
    if IsNonPopulated(d) {
      RemovedBeforeDelete(olds, cursor, i, now);
    } else {
      assert forall x :: x in cursor[..i + 1] <==> x in cursor[..i] || x == d;
      Mongo.FindSame(olds.docs, KeptAfter(cursor, i), KeptAfter(cursor, i + 1));
    }
  }

  /** The deleting case of `RemovedBeforeStep`. */
  lemma RemovedBeforeDelete(olds: Mongo.Store, cursor: seq<Doc>, i: nat, now: Mongo.Store)
    requires Mongo.Valid(olds) && cursor == Mongo.Find(olds.docs, IsSwissPlace) && i < |cursor|
    requires Mongo.Valid(now) && now.docs == RemovedBefore(olds, i) && IsNonPopulated(cursor[i])
    ensures cursor[i] in now.docs && Mongo.Valid(Mongo.DeleteOne(now, Mongo.HasId(Mongo.IdOf(cursor[i]))))
    ensures Mongo.DeleteOne(now, Mongo.HasId(Mongo.IdOf(cursor[i]))).docs == RemovedBefore(olds, i + 1)
  {
    var d := cursor[i];
    assert d in olds.docs;
    assert d !in cursor[..i] by {
      Mongo.FindKeepsDistinctIds(olds.docs, IsSwissPlace);
      Mongo.StoredOnce(cursor, i);
    }
    assert forall x :: x in cursor[..i + 1] <==> x in cursor[..i] || x == d;
    Mongo.DeleteOneKeepsValid(now, Mongo.HasId(Mongo.IdOf(d)));
    var k := Mongo.DeletedAt(now, d);
    Mongo.FindWithout(olds.docs, KeptAfter(cursor, i), k);
    Mongo.FindSame(olds.docs, Mongo.Except(KeptAfter(cursor, i), d), KeptAfter(cursor, i + 1));
  }

  /** After the whole cursor, exactly the non-populated Swiss places are gone. */
  lemma RemovedAll(olds: Mongo.Store, now: Mongo.Store)
    requires now.docs == RemovedBefore(olds, |Mongo.Find(olds.docs, IsSwissPlace)|)
    ensures now.docs == Mongo.Find(olds.docs, x => !IsNonPopulated(x))
    ensures forall x :: x in now.docs <==> x in olds.docs && !IsNonPopulated(x)
  {
    var cursor := Mongo.Find(olds.docs, IsSwissPlace);
    assert cursor[..|cursor|] == cursor;
    Mongo.FindSame(olds.docs, KeptAfter(cursor, |cursor|), x => !IsNonPopulated(x));
  }

  /** When every feature code on `remove_non_ppl`'s cursor is a string, so
      is every Swiss place's. */
  lemma FeatureCodesAllStrings(olds: Mongo.Store, cursor: seq<Doc>)
    requires cursor == Mongo.Find(olds.docs, IsSwissPlace)
    requires StringCodes(cursor)
    ensures forall d: Doc :: d in olds.docs && IsSwissPlace(d) && "feature_code" in d ==> d["feature_code"].JStr?
  {
    forall d: Doc | d in olds.docs && IsSwissPlace(d) && "feature_code" in d ensures d["feature_code"].JStr? {
      assert d in cursor;
      var j :| 0 <= j < |cursor| && cursor[j] == d;
      assert "feature_code" in cursor[j];
    }
  }

  /** Every feature code among `places` that is present is a string. */
  predicate StringCodes(places: seq<Doc>)
  {
    forall j :: 0 <= j < |places| && "feature_code" in places[j] ==> places[j]["feature_code"].JStr?
  }

  /** `StringCodes` of one more place. */
  lemma StringCodesNext(cursor: seq<Doc>, i: nat)
    requires i < |cursor| && StringCodes(cursor[..i])
    requires "feature_code" in cursor[i] ==> cursor[i]["feature_code"].JStr?
    ensures StringCodes(cursor[..i + 1])
  {
    assert forall j :: 0 <= j < i ==> cursor[..i + 1][j] == cursor[..i][j];
  }

  /** A Swiss place whose feature code is not a string stops
      `remove_non_ppl` with the places before it handled. */
  lemma StopsAtNonString(olds: Mongo.Store, i: nat, now: Mongo.Store)
    requires i < |Mongo.Find(olds.docs, IsSwissPlace)| && now.docs == RemovedBefore(olds, i)
    requires var d := Mongo.Find(olds.docs, IsSwissPlace)[i]; "feature_code" in d && !d["feature_code"].JStr?
    ensures NonPplStoppedAt(olds, now)
    ensures !forall d: Doc :: d in olds.docs && IsSwissPlace(d) && "feature_code" in d ==> d["feature_code"].JStr?
  {
    var d := Mongo.Find(olds.docs, IsSwissPlace)[i];
    assert d in Mongo.Find(olds.docs, IsSwissPlace);
  }

  /** `remove_non_ppl` stopped at the `i`-th Swiss place, whose feature code
      is not a string, with the places before it handled. */
  ghost predicate NonPplStoppedAt(olds: Mongo.Store, now: Mongo.Store)
  {
    exists i :: 0 <= i < |Mongo.Find(olds.docs, IsSwissPlace)| && now.docs == RemovedBefore(olds, i)
                && "feature_code" in Mongo.Find(olds.docs, IsSwissPlace)[i]
                && !Mongo.Find(olds.docs, IsSwissPlace)[i]["feature_code"].JStr?
  }

  /** `convert_strings_to_int` stopped at place `i`, which `int()` rejects:
      the places before it are saved back converted, it and the ones after
      it are untouched. */
  ghost predicate ConvertStoppedAt(olds: Mongo.Store, now: Mongo.Store, e: string, m: string)
  {
    && |now.docs| == |olds.docs| && now.nextOid == olds.nextOid
    && exists i :: 0 <= i < |olds.docs| && Converted(olds.docs[i]) == Raised(e, m)
                   && (forall k :: 0 <= k < i ==> Converted(olds.docs[k]) == Ok(now.docs[k]))
                   && (forall k :: i <= k < |olds.docs| ==> now.docs[k] == olds.docs[k])
  }

  /** `place` with `geonames_id` and `population` converted by `int()`. */
  function Converted(d: Doc): (r: Result<Doc>)
    ensures r.Ok? ==> && r.value.Keys == d.Keys && "geonames_id" in d && "population" in d
                      && r.value["geonames_id"].JInt? && r.value["population"].JInt?
                      && Ok(r.value["geonames_id"].i) == IntOf(d["geonames_id"])
                      && Ok(r.value["population"].i) == IntOf(d["population"])
                      && forall k :: k in d && k != "geonames_id" && k != "population" ==> r.value[k] == d[k]
    ensures r.Raised? ==> "geonames_id" !in d || "population" !in d || IntOf(d["geonames_id"]).Raised? || IntOf(d["population"]).Raised?
  {
    match Lookup(d, "geonames_id")
    case Raised(e, m) => Raised(e, m)
    case Ok(g) =>
      match IntOf(g)
      case Raised(e, m) => Raised(e, m)
      case Ok(id) =>
        match Lookup(d, "population")
        case Raised(e, m) => Raised(e, m)
        case Ok(p) =>
          match IntOf(p)
          case Raised(e, m) => Raised(e, m)
          case Ok(population) => Ok(d["geonames_id" := JInt(id)]["population" := JInt(population)])
  }

  class OfflineDataInserter {
    /** The GeoNames place collection. */
    var places: Mongo.Store

    ghost predicate Valid()
      reads this
    {
      Mongo.Valid(places)
    }

    constructor (placeCollection: Mongo.Store)
      requires Mongo.Valid(placeCollection)
      ensures Valid() && places == placeCollection
    {
      places := placeCollection;
    }

    /** `_parse_populated_places` over the lines of the export. */
    static method ParsePopulatedPlaces(lines: seq<string>, country: Country)
      returns (r: Result<seq<Doc>>)
      ensures r == PopulatedPlaces(lines, country)
    {
      var kept: seq<Doc> := [];
      var i := 0;
      while i < |lines|
        invariant i <= |lines|
        invariant PopulatedPlaces(lines[..i], country) == Ok(kept)
      {
        PopulatedPlacesStep(lines, i, country);
        var parsed := ParseLine(lines[i], country);
        if parsed.Raised? {
          PopulatedPlacesRaisedPrefix(lines, i + 1, country);
          return Raised(parsed.exception, parsed.message);
        }
        if parsed.value.Some? {
          assert Kept(lines[i], country) == Ok([parsed.value.value]);
          kept := kept + [parsed.value.value];
        } else {
          assert Kept(lines[i], country) == Ok([]);
          assert kept + [] == kept;
        }
        i := i + 1;
      }
      assert lines[..i] == lines;
      r := Ok(kept);
    }

    /** `insert_from_file`: parse, then merge every place in order. */
    method InsertFromFile(lines: seq<string>, country: Country) returns (r: Result<()>)
      requires Valid()
      modifies this
      ensures Valid()
      ensures r.Ok? <==> PopulatedPlaces(lines, country).Ok?
      ensures r.Raised? ==> places == old(places)
      ensures r.Ok? ==> places == MergePlaces(old(places), PopulatedPlaces(lines, country).value)
    {
      var parsed := ParsePopulatedPlaces(lines, country);
      if parsed.Raised? {
        return Raised(parsed.exception, parsed.message);
      }
      var ps := parsed.value;
      PlacesHaveNoId(lines, country);
      var i := 0;
      while i < |ps|
        invariant i <= |ps|
        invariant Valid()
        invariant places == MergePlaces(old(places), ps[..i])
      {
        assert ps[..i + 1][..i] == ps[..i];
        MergePlaceValid(places, ps[i]);
        var existing := Mongo.FindOne(places, ByGeonamesId(Get(ps[i], "geonames_id")));
        if existing.Some? {
          if "alternate_names" !in existing.value {
            places := Mongo.Save(places, existing.value["alternate_names" := Get(ps[i], "alternate_names")]);
          }
        } else {
          places := Mongo.Save(places, ps[i]);
        }
        i := i + 1;
      }
      assert ps[..i] == ps;
      r := Ok(());
    }

    /** `_insert_feature_code(place, tuples)`: the place is saved with the
      feature code of the first tuple carrying its id; without one nothing
      is saved. */
    method InsertFeatureCode(place: Doc, tuples: seq<seq<string>>) returns (r: Result<()>)
      requires Valid()
      modifies this
      ensures Valid()
      ensures r.Ok? <==> FeatureCode(place, tuples).Ok?
      ensures r.Raised? ==> r == Raised(FeatureCode(place, tuples).exception, FeatureCode(place, tuples).message)
      ensures FeatureCode(place, tuples).Ok? && FeatureCode(place, tuples).value.Some? ==>
                places == Mongo.Save(old(places), place["feature_code" := JStr(FeatureCode(place, tuples).value.value)])
      ensures !(FeatureCode(place, tuples).Ok? && FeatureCode(place, tuples).value.Some?) ==> places == old(places)
    {
      var v := Lookup(place, "geonames_id");
      if v.Raised? {
        return Raised(v.exception, v.message);
      }
      var id := IntOf(v.value);
      if id.Raised? {
        return Raised(id.exception, id.message);
      }
      var placeId := id.value;
      var i := 0;
      while i < |tuples|
        invariant i <= |tuples|
        invariant FeatureCodeFor(placeId, PrintName(place), tuples) == FeatureCodeFor(placeId, PrintName(place), tuples[i..])
        invariant places == old(places)
      {
        assert tuples[i..][1..] == tuples[i + 1..];
        var same := SameId(tuples[i], placeId);
        if same.Raised? {
          return Raised(same.exception, same.message);
        }
        if same.value {
          if "name" !in place {
            return Raised("KeyError", "name");
          }
          if !place["name"].JStr? {
            return Raised("TypeError", "can only concatenate str to str");
          }
          if |tuples[i]| <= 7 {
            return Raised("IndexError", "list index out of range");
          }
          Mongo.SaveUpserts(places, place["feature_code" := JStr(tuples[i][7])]);
          places := Mongo.Save(places, place["feature_code" := JStr(tuples[i][7])]);
          return Ok(());
        }
        i := i + 1;
      }
      r := Ok(());
    }

    /** `remove_non_ppl`: over the Swiss places, delete each one whose feature
      code is not a populated-place code; a feature code that is not a string
      stops the loop with AttributeError. */
    method RemoveNonPpl() returns (r: Result<()>)
      requires Valid()
      modifies this
      ensures Valid()
      ensures r.Ok? <==> forall d: Doc :: d in old(places.docs) && IsSwissPlace(d) && "feature_code" in d ==> d["feature_code"].JStr?
      ensures r.Raised? ==> r.exception == "AttributeError" && NonPplStoppedAt(old(places), places)
      ensures r.Ok? ==> forall x :: x in places.docs <==> x in old(places.docs) && !IsNonPopulated(x)
      ensures r.Ok? ==> places.docs == Mongo.Find(old(places.docs), x => !IsNonPopulated(x))
    {
      var olds := places;
      var cursor: seq<Doc> := Mongo.Find(olds.docs, IsSwissPlace);
      assert cursor[..0] == [];
      Mongo.FindAll(olds.docs, KeptAfter(cursor, 0));
      var now := olds;
      r := Ok(());
      var i := 0;
      while i < |cursor|
        invariant i <= |cursor|
        invariant Mongo.Valid(now)
        invariant now.docs == RemovedBefore(olds, i)
        invariant StringCodes(cursor[..i])
      {
        var place := cursor[i];
        RemovedBeforeStep(olds, i, now);
        if "feature_code" in place {
          if !place["feature_code"].JStr? {
            StopsAtNonString(olds, i, now);
            r := Raised("AttributeError", "object has no attribute 'startswith'");
            break;
          }
          if !IsPopulatedPlaceCode(place["feature_code"].s) {
            now := Mongo.DeleteOne(now, Mongo.HasId(Mongo.IdOf(place)));
          }
        }
        StringCodesNext(cursor, i);
        i := i + 1;
      }
      places := now;
      if r.Ok? {
        assert cursor[..i] == cursor;
        RemovedAll(olds, now);
        FeatureCodesAllStrings(olds, cursor);
      }
    }

    /** `convert_strings_to_int`: every place is saved back, in place, with
      integer `geonames_id` and `population`; the first place that cannot be
      converted stops the loop. */
    method ConvertStringsToInt() returns (r: Result<()>)
      requires Valid()
      modifies this
      ensures Valid()
      ensures r.Ok? <==> forall d :: d in old(places.docs) ==> Converted(d).Ok?
      ensures r.Ok? ==> && |places.docs| == |old(places.docs)| && places.nextOid == old(places.nextOid)
                        && forall k :: 0 <= k < |places.docs| ==> Converted(old(places.docs)[k]) == Ok(places.docs[k])
      ensures r.Raised? ==> ConvertStoppedAt(old(places), places, r.exception, r.message)
    {
      var cursor := places.docs;
      var i := 0;
      while i < |cursor|
        invariant i <= |cursor|
        invariant Valid()
        invariant |places.docs| == |cursor| && places.nextOid == old(places.nextOid)
        invariant forall k :: 0 <= k < i ==> Converted(cursor[k]) == Ok(places.docs[k])
        invariant forall k :: i <= k < |cursor| ==> places.docs[k] == cursor[k]
      {
        var e := Converted(cursor[i]);
        if e.Raised? {
          assert ConvertStoppedAt(old(places), places, e.exception, e.message);
          return Raised(e.exception, e.message);
        }
        assert Mongo.IdOf(e.value) == Mongo.IdOf(places.docs[i]);
        Mongo.SaveUpserts(places, e.value);
        Mongo.SaveReplacesInPlace(places, e.value, i);
        places := Mongo.Save(places, e.value);
        i := i + 1;
      }
      forall d | d in old(places.docs) ensures Converted(d).Ok? {
        var k :| 0 <= k < |cursor| && cursor[k] == d;
      }
      r := Ok(());
    }
  }

  /** One iteration of `remove_non_ppl`, on the membership of the collection. */
  lemma RemovalStep(olds: seq<Doc>, cursor: seq<Doc>, i: nat, before: seq<Doc>, after: seq<Doc>, deleted: bool)
    requires i < |cursor|
    requires forall x :: x in before <==> x in olds && !(x in cursor[..i] && IsNonPopulated(x))
    requires deleted ==> IsNonPopulated(cursor[i]) && forall x :: x in after <==> x in before && x != cursor[i]
    requires !deleted ==> !IsNonPopulated(cursor[i]) && after == before
    ensures forall x :: x in after <==> x in olds && !(x in cursor[..i + 1] && IsNonPopulated(x))
  {
    assert forall x :: x in cursor[..i + 1] <==> x in cursor[..i] || x == cursor[i];
  }

  lemma {:induction false} PlacesHaveNoId(lines: seq<string>, country: Country)
    requires PopulatedPlaces(lines, country).Ok?
    ensures forall p :: p in PopulatedPlaces(lines, country).value ==> "_id" !in p
  {
    if |lines| > 0 {
      var i := |lines| - 1;
      PlacesHaveNoId(lines[..i], country);
      PopulatedPlacesStep(lines, i, country);
      assert lines[..i + 1] == lines;
      assert forall p :: p in Kept(lines[i], country).value ==> "_id" !in p;
    }
  }
}

/** The provider of the train, validation and test sets: drawn at random
    (half Swiss, half foreign users of the test-set collection) or loaded by
    id from a stored split, once, and kept for later calls. The `tvt` config
    section, the stored file's decoded contents and `random.shuffle` are
    parameters. */
module TrainValidateTestProvider {
  import opened Common
  import Mongo

  /** The `tvt` config section. */
  datatype TvtConfig = TvtConfig(useFile: Option<string>, sizeTrain: int, sizeValidate: int, sizeTest: int,
                                 shuffleLoadedSet: bool)

  /** `int(total / 2)`: true division, truncated toward zero. */
  function PerClass(total: int): (n: int)
    ensures total >= 0 ==> 0 <= n && 2 * n <= total < 2 * n + 2
    ensures total < 0 ==> n <= 0 && 2 * n - 2 < total <= 2 * n
  {
    if total >= 0 then total / 2 else -((-total) / 2)
  }

  /** `cursor.limit(n)`: 0 sets no limit, a negative n limits to |n|. */
  function Limit(docs: seq<Doc>, n: int): (r: seq<Doc>)
    ensures n == 0 ==> r == docs
    ensures n != 0 ==> r == docs[..if |docs| <= Abs(n) then |docs| else Abs(n)]
  {
    if n == 0 then docs else docs[..if |docs| <= Abs(n) then |docs| else Abs(n)]
  }

  function Abs(n: int): nat { if n < 0 then -n else n }

  /** The users `_load_random_data` draws before shuffling: up to the
      per-class number of Swiss users, then of foreign users. */
  function Drawn(testUsers: Mongo.Store, total: int): seq<Doc>
  {
    Limit(Mongo.Find(testUsers.docs, u => Get(u, "is_swiss") == JBool(true)), PerClass(total)) +
    Limit(Mongo.Find(testUsers.docs, u => Get(u, "is_swiss") == JBool(false)), PerClass(total))
  }

  /** At most `total / 2` Swiss and as many foreign users are drawn when that
      number is positive; with 0 (a total of 0 or 1) the limit is lifted and
      every Swiss and foreign user is drawn. */
  lemma DrawnPerClass(testUsers: Mongo.Store, total: int)
    ensures var swiss := Mongo.Find(testUsers.docs, u => Get(u, "is_swiss") == JBool(true));
            var foreign := Mongo.Find(testUsers.docs, u => Get(u, "is_swiss") == JBool(false));
            && (PerClass(total) > 0 ==> |Drawn(testUsers, total)| <= 2 * PerClass(total))
            && (PerClass(total) != 0 ==> forall u :: u in Drawn(testUsers, total) ==> u in testUsers.docs && Get(u, "is_swiss").JBool?)
            && (PerClass(total) == 0 ==> Drawn(testUsers, total) == swiss + foreign)
  {
    var n := PerClass(total);
    var swiss := Mongo.Find(testUsers.docs, u => Get(u, "is_swiss") == JBool(true));
    var foreign := Mongo.Find(testUsers.docs, u => Get(u, "is_swiss") == JBool(false));
    var a, b := Limit(swiss, n), Limit(foreign, n);
    assert n > 0 ==> |a| <= n && |b| <= n;
    if n != 0 {
      forall u | u in a + b ensures u in testUsers.docs && Get(u, "is_swiss").JBool? {
        if u in a {
          assert u in swiss;
        } else {
          assert u in foreign;
        }
      }
    }
  }

  /** `[users.pop(0) for i in range(n)]`: the first n users and the rest, or
      an IndexError when the list runs out. */
  function PopFront(users: seq<Doc>, n: int): (r: Result<(seq<Doc>, seq<Doc>)>)
    ensures n <= |users| ==> r.Ok? && r.value.0 + r.value.1 == users
    ensures n <= |users| ==> |r.value.0| == (if n < 0 then 0 else n)
    ensures n > |users| ==> r == Raised("IndexError", "pop from empty list")
  {
    if n > |users| then Raised("IndexError", "pop from empty list")
    else if n <= 0 then Ok(([], users))
    else
      assert users[..n] + users[n..] == users;
      Ok((users[..n], users[n..]))
  }

  /** The three sets after `_load_random_data`, given the shuffled draw, with
      the exception that ended it. Each global is assigned when its own
      comprehension completes, so a failure leaves the earlier sets
      replaced and the later ones as they were. */
  datatype Loaded = Loaded(result: Result<()>, train: seq<Doc>, validate: seq<Doc>, test: seq<Doc>)

  function RandomSplit(shuffled: seq<Doc>, tvt: TvtConfig, old_: Loaded): (r: Loaded)
  {
    match PopFront(shuffled, tvt.sizeTrain)
    case Raised(e, m) => old_.(result := Raised(e, m))
    case Ok((train, rest1)) =>
      match PopFront(rest1, tvt.sizeValidate)
      case Raised(e, m) => old_.(result := Raised(e, m), train := train)
      case Ok((validate, rest2)) =>
        match PopFront(rest2, tvt.sizeTest)
        case Raised(e, m) => Loaded(Raised(e, m), train, validate, old_.test)
        case Ok((test, rest3)) =>
          Loaded(if |rest3| == 0 then Ok(()) else Raised("AssertionError", ""), train, validate, test)
  }

  /** The split succeeds iff exactly size_train + size_validate + size_test
      users were drawn (sizes not negative); then train, validate and test
      are consecutive segments of the shuffled list, of the configured sizes. */
  lemma RandomSplitSegments(shuffled: seq<Doc>, tvt: TvtConfig, old_: Loaded)
    requires tvt.sizeTrain >= 0 && tvt.sizeValidate >= 0 && tvt.sizeTest >= 0
    ensures var r := RandomSplit(shuffled, tvt, old_);
            var a, b := tvt.sizeTrain, tvt.sizeTrain + tvt.sizeValidate;
            && (r.result.Ok? <==> |shuffled| == tvt.sizeTrain + tvt.sizeValidate + tvt.sizeTest)
            && (|shuffled| < tvt.sizeTrain + tvt.sizeValidate + tvt.sizeTest ==>
                  r.result == Raised("IndexError", "pop from empty list"))
            && (|shuffled| > tvt.sizeTrain + tvt.sizeValidate + tvt.sizeTest ==>
                  r.result == Raised("AssertionError", ""))
            && (r.result.Ok? ==>
                  r.train == shuffled[..a] && r.validate == shuffled[a..b] && r.test == shuffled[b..] &&
                  r.train + r.validate + r.test == shuffled)
  {
    var a, b := tvt.sizeTrain, tvt.sizeTrain + tvt.sizeValidate;
    if |shuffled| >= a {
      var rest1 := shuffled[a..];
      assert PopFront(shuffled, a) == Ok((shuffled[..a], rest1)) by {
        var p := PopFront(shuffled, a).value;
        assert p.0 == shuffled[..|p.0|];
      }
      if |rest1| >= tvt.sizeValidate {
        var rest2 := shuffled[b..];
        assert PopFront(rest1, tvt.sizeValidate) == Ok((shuffled[a..b], rest2)) by {
          var p := PopFront(rest1, tvt.sizeValidate).value;
          assert p.0 == rest1[..|p.0|];
          assert rest1[..tvt.sizeValidate] == shuffled[a..b];
        }
        if |rest2| >= tvt.sizeTest {
          assert PopFront(rest2, tvt.sizeTest) == Ok((rest2[..tvt.sizeTest], rest2[tvt.sizeTest..])) by {
            var p := PopFront(rest2, tvt.sizeTest).value;
            assert p.0 == rest2[..|p.0|];
          }
          if |shuffled| == b + tvt.sizeTest {
            assert rest2[..tvt.sizeTest] == shuffled[b..];
            assert shuffled[..a] + shuffled[a..b] + shuffled[b..] == shuffled;
          }
        }
      }
    }
  }

  /** Loading from the stored split: the users of the test-set collection
      whose id is listed under "train", "validate" and "test". */
  function UsersWithIds(testUsers: Mongo.Store, ids: Json): Result<seq<Doc>>
  {
    if ids.JList? then Ok(Mongo.Find(testUsers.docs, u => Get(u, "id") in ids.items))
    else Raised("OperationFailure", "$in needs an array")
  }

  function FileSplit(testUsers: Mongo.Store, data: Doc, shuffleLoaded: bool, shuffle: seq<Doc> -> seq<Doc>,
                     old_: Loaded): (r: Loaded)
    ensures "train" !in data ==> r == old_.(result := Raised("KeyError", "train"))
  {
    match Lookup(data, "train")
    case Raised(e, m) => old_.(result := Raised(e, m))
    case Ok(trainIds) =>
      match Lookup(data, "validate")
      case Raised(e, m) => old_.(result := Raised(e, m))
      case Ok(validateIds) =>
        match Lookup(data, "test")
        case Raised(e, m) => old_.(result := Raised(e, m))
        case Ok(testIds) =>
          match UsersWithIds(testUsers, trainIds)
          case Raised(e, m) => old_.(result := Raised(e, m))
          case Ok(train) =>
            match UsersWithIds(testUsers, validateIds)
            case Raised(e, m) => old_.(result := Raised(e, m), train := train)
            case Ok(validate) =>
              match UsersWithIds(testUsers, testIds)
              case Raised(e, m) => Loaded(Raised(e, m), train, validate, old_.test)
              case Ok(test) =>
                if shuffleLoaded then Loaded(Ok(()), shuffle(train), shuffle(validate), shuffle(test))
                else Loaded(Ok(()), train, validate, test)
  }

  /** The stored split lists the ids of `key` as an array. */
  predicate ListsIds(data: Doc, key: string)
  {
    key in data && data[key].JList?
  }

  /** The test-set users whose id the stored split lists under `key`. */
  function UsersListed(testUsers: Mongo.Store, data: Doc, key: string): seq<Doc>
    requires ListsIds(data, key)
  {
    Mongo.Find(testUsers.docs, u => Get(u, "id") in data[key].items)
  }

  /** Loading from a stored split succeeds iff it lists all three sets as
      arrays; each set is then the users with the listed ids (shuffled when
      `shuffle_loaded_set` is on), and a failure leaves the test set as it
      was. */
  lemma FileSplitLoads(testUsers: Mongo.Store, data: Doc, shuffleLoaded: bool, shuffle: seq<Doc> -> seq<Doc>,
                       old_: Loaded)
    ensures var r := FileSplit(testUsers, data, shuffleLoaded, shuffle, old_);
            && (r.result.Ok? <==> ListsIds(data, "train") && ListsIds(data, "validate") && ListsIds(data, "test"))
            && (r.result.Ok? && !shuffleLoaded ==>
                  (forall u :: u in r.train <==> u in testUsers.docs && Get(u, "id") in data["train"].items) &&
                  (forall u :: u in r.validate <==> u in testUsers.docs && Get(u, "id") in data["validate"].items) &&
                  (forall u :: u in r.test <==> u in testUsers.docs && Get(u, "id") in data["test"].items))
            && (r.result.Ok? && shuffleLoaded ==>
                  r.train == shuffle(UsersListed(testUsers, data, "train")) &&
                  r.validate == shuffle(UsersListed(testUsers, data, "validate")) &&
                  r.test == shuffle(UsersListed(testUsers, data, "test")))
            && (r.result.Raised? ==> r.test == old_.test)
  {
  }

  /** File loading is chosen iff `use_file` is set and not empty. */
  predicate UsesFile(tvt: TvtConfig)
  {
    tvt.useFile.Some? && tvt.useFile.value != ""
  }

  /** `export_sets_to_file`'s dictionary: each set's user ids, in set order. */
  function ExportedIds(train: seq<Doc>, validate: seq<Doc>, test: seq<Doc>): (r: Result<Doc>)
    ensures r.Ok? ==> r.value.Keys == {"train", "validate", "test"}
    ensures r.Ok? <==> IdsOf(train).Ok? && IdsOf(validate).Ok? && IdsOf(test).Ok?
    ensures r.Ok? ==> IdsOf(train).Ok? && IdsOf(validate).Ok? && IdsOf(test).Ok? &&
                      r.value["train"] == JList(IdsOf(train).value) && r.value["validate"] == JList(IdsOf(validate).value) &&
                      r.value["test"] == JList(IdsOf(test).value)
  {
    match IdsOf(train)
    case Raised(e, m) => Raised(e, m)
    case Ok(a) =>
      match IdsOf(validate)
      case Raised(e, m) => Raised(e, m)
      case Ok(b) =>
        match IdsOf(test)
        case Raised(e, m) => Raised(e, m)
        case Ok(c) => Ok(map["train" := JList(a), "validate" := JList(b), "test" := JList(c)])
  }

  /** The module's three globals. */
  class Provider {
    var train: seq<Doc>
    var validate: seq<Doc>
    var test: seq<Doc>

    constructor ()
      ensures train == [] && validate == [] && test == []
    {
      train, validate, test := [], [], [];
    }

    function State(): Loaded
      reads this
    {
      Loaded(Ok(()), train, validate, test)
    }

    /** `_load_random_data`: draw, shuffle, then pop the three sets off the front. */
    method LoadRandomData(tvt: TvtConfig, testUsers: Mongo.Store, shuffle: seq<Doc> -> seq<Doc>) returns (r: Result<()>)
      modifies this
      ensures var total := tvt.sizeTrain + tvt.sizeValidate + tvt.sizeTest;
              var s := RandomSplit(shuffle(Drawn(testUsers, total)), tvt, old(State()));
              r == s.result && train == s.train && validate == s.validate && test == s.test
    {
      var total := tvt.sizeTrain + tvt.sizeValidate + tvt.sizeTest;
      var users := shuffle(Drawn(testUsers, total));
      ghost var before := State();
      ghost var p1 := PopFront(users, tvt.sizeTrain);
      var taken;
      taken, users, r := Pop(users, tvt.sizeTrain);
      if r.Raised? {
        return;
      }
      train := taken;
      ghost var p2 := PopFront(users, tvt.sizeValidate);
      assert p1 == Ok((train, users));
      taken, users, r := Pop(users, tvt.sizeValidate);
      if r.Raised? {
        assert p2.Raised?;
        return;
      }
      validate := taken;
      ghost var p3 := PopFront(users, tvt.sizeTest);
      assert p2 == Ok((validate, users));
      taken, users, r := Pop(users, tvt.sizeTest);
      if r.Raised? {
        assert test == before.test && p3.Raised?;
        return;
      }
      test := taken;
      assert p3 == Ok((test, users));
      if |users| != 0 {
        r := Raised("AssertionError", "");
      }
    }

    /** `users.pop(0)`, n times (none for n <= 0). */
    static method Pop(users: seq<Doc>, n: int) returns (taken: seq<Doc>, rest: seq<Doc>, r: Result<()>)
      ensures PopFront(users, n).Ok? ==> r == Ok(()) && (taken, rest) == PopFront(users, n).value
      ensures PopFront(users, n).Raised? ==> r == Raised(PopFront(users, n).exception, PopFront(users, n).message)
    {
      taken, rest := [], users;
      var i := 0;
      while i < n
        invariant 0 <= i && (n >= 0 ==> i <= n) && (n <= 0 ==> i == 0)
        invariant i <= |users| && taken == users[..i] && rest == users[i..]
      {
        if |rest| == 0 {
          return taken, rest, Raised("IndexError", "pop from empty list");
        }
        taken, rest := taken + [rest[0]], rest[1..];
        assert users[..i + 1] == users[..i] + [users[i]];
        i := i + 1;
      }
      if n <= 0 {
        assert i == 0 && users[..0] == [] && users[0..] == users;
      }
      r := Ok(());
    }

    /** `_load_data`: the stored split when a file is configured, else a random one. */
    method LoadData(tvt: TvtConfig, testUsers: Mongo.Store, fileData: Doc, shuffle: seq<Doc> -> seq<Doc>)
      returns (r: Result<()>)
      modifies this
      ensures UsesFile(tvt) ==>
                var s := FileSplit(testUsers, fileData, tvt.shuffleLoadedSet, shuffle, old(State()));
                r == s.result && train == s.train && validate == s.validate && test == s.test
      ensures !UsesFile(tvt) ==>
                var s := RandomSplit(shuffle(Drawn(testUsers, tvt.sizeTrain + tvt.sizeValidate + tvt.sizeTest)), tvt, old(State()));
                r == s.result && train == s.train && validate == s.validate && test == s.test
    {
      if !UsesFile(tvt) {
        r := LoadRandomData(tvt, testUsers, shuffle);
      } else {
        var s := FileSplit(testUsers, fileData, tvt.shuffleLoadedSet, shuffle, State());
        r, train, validate, test := s.result, s.train, s.validate, s.test;
      }
    }

    /** `get_data`: loads only while the train set is empty, then returns the
        three sets; once loaded, a call changes nothing. */
    method GetData(tvt: TvtConfig, testUsers: Mongo.Store, fileData: Doc, shuffle: seq<Doc> -> seq<Doc>)
      returns (r: Result<(seq<Doc>, seq<Doc>, seq<Doc>)>)
      modifies this
      ensures old(|train|) > 0 ==> train == old(train) && validate == old(validate) && test == old(test)
      ensures old(|train|) > 0 ==> r == Ok((train, validate, test))
      ensures old(|train|) == 0 && UsesFile(tvt) ==>
                var s := FileSplit(testUsers, fileData, tvt.shuffleLoadedSet, shuffle, old(State()));
                train == s.train && validate == s.validate && test == s.test &&
                r == (if s.result.Ok? then Ok((train, validate, test)) else Raised(s.result.exception, s.result.message))
      ensures old(|train|) == 0 && !UsesFile(tvt) ==>
                var s := RandomSplit(shuffle(Drawn(testUsers, tvt.sizeTrain + tvt.sizeValidate + tvt.sizeTest)), tvt, old(State()));
                train == s.train && validate == s.validate && test == s.test &&
                r == (if s.result.Ok? then Ok((train, validate, test)) else Raised(s.result.exception, s.result.message))
    {
      if |train| == 0 {
        var loaded := LoadData(tvt, testUsers, fileData, shuffle);
        if loaded.Raised? {
          return Raised(loaded.exception, loaded.message);
        }
      }
      r := Ok((train, validate, test));
    }
  }

  /** With a shuffle that permutes, a successful random split partitions
      exactly the drawn users. */
  lemma RandomSplitPermutes(testUsers: Mongo.Store, tvt: TvtConfig, shuffle: seq<Doc> -> seq<Doc>, old_: Loaded)
    requires tvt.sizeTrain >= 0 && tvt.sizeValidate >= 0 && tvt.sizeTest >= 0
    requires var drawn := Drawn(testUsers, tvt.sizeTrain + tvt.sizeValidate + tvt.sizeTest);
             multiset(shuffle(drawn)) == multiset(drawn)
    ensures var drawn := Drawn(testUsers, tvt.sizeTrain + tvt.sizeValidate + tvt.sizeTest);
            var s := RandomSplit(shuffle(drawn), tvt, old_);
            s.result.Ok? ==> multiset(s.train + s.validate + s.test) == multiset(drawn)
  {
    var drawn := Drawn(testUsers, tvt.sizeTrain + tvt.sizeValidate + tvt.sizeTest);
    RandomSplitSegments(shuffle(drawn), tvt, old_);
  }

  /** A second `get_data` after a successful load with a non-empty train
      set returns the same three lists. */
  method GetDataTwice(p: Provider, tvt: TvtConfig, testUsers: Mongo.Store, fileData: Doc, shuffle: seq<Doc> -> seq<Doc>)
    returns (first: Result<(seq<Doc>, seq<Doc>, seq<Doc>)>, second: Result<(seq<Doc>, seq<Doc>, seq<Doc>)>)
    modifies p
    ensures first.Ok? && |first.value.0| > 0 ==> second == first
  {
    first := p.GetData(tvt, testUsers, fileData, shuffle);
    second := p.GetData(tvt, testUsers, fileData, shuffle);
  }
}

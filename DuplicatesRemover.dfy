/** `DuplicatesRemover.remove_duplicate_users`: for every Twitter id
    ("id") held by more than one stored user, the users with that id are
    found in natural order and all but the first are removed by `_id`. The
    aggregation's cursor of duplicated ids is the parameter `groups`, in
    whatever order it arrives; the result does not depend on it. */
module DuplicatesRemover {
  import opened Common
  import Mongo

  /** How many stored users have Twitter id `x` (the aggregation's count). */
  function Occurrences(docs: seq<Doc>, x: Json): nat
  {
    |Mongo.Find(docs, Mongo.FieldIs("id", x))|
  }

  /** The first user with Twitter id `x` in natural order. */
  function FirstWithId(docs: seq<Doc>, x: Json): (r: Option<Doc>)
    ensures r.Some? ==> r.value in docs && Get(r.value, "id") == x
    ensures r.None? ==> forall d :: d in docs ==> Get(d, "id") != x
  {
    match Mongo.IndexWhere(docs, Mongo.FieldIs("id", x))
    case None => None
    case Some(k) => Some(docs[k])
  }

  /** The users that are the first with their Twitter id. */
  function KeepFirst(docs: seq<Doc>): seq<Doc>
  {
    Mongo.Find(docs, d => FirstWithId(docs, Get(d, "id")) == Some(d))
  }

  /** After the ids in `handled` are processed, a user is still there when
      its id was not processed or it is the first with its id. */
  function KeptAfter(docs: seq<Doc>, handled: seq<Json>): Doc -> bool
  {
    d => Get(d, "id") !in handled || FirstWithId(docs, Get(d, "id")) == Some(d)
  }

  /** `[duplicate["_id"] for duplicate in duplicates]` */
  function ObjectIds(docs: seq<Doc>): (r: seq<Json>)
    ensures |r| == |docs| && forall k :: 0 <= k < |docs| ==> r[k] == Mongo.IdOf(docs[k])
  {
    seq(|docs|, k requires 0 <= k < |docs| => Mongo.IdOf(docs[k]))
  }

  /** Python's `ids[1:]`, which is empty for an empty list. */
  function AllButFirst(ids: seq<Json>): seq<Json>
  {
    if |ids| == 0 then [] else ids[1..]
  }

  /** One iteration: find the users with Twitter id `x` and remove all but
      the first by `_id`. */
  function RemovedFor(s: Mongo.Store, x: Json): Mongo.Store
  {
    var ids := ObjectIds(Mongo.Find(s.docs, Mongo.FieldIs("id", x)));
    Mongo.Remove(s, d => Mongo.IdOf(d) in AllButFirst(ids))
  }

  predicate NoRepeats(ids: seq<Json>)
  {
    forall i, j :: 0 <= i < j < |ids| ==> ids[i] != ids[j]
  }

  // ------------------------------------------------------------ properties

  /** In a valid collection a document is identified by its `_id`. */
  lemma SameIdSameDoc(docs: seq<Doc>, a: Doc, b: Doc)
    requires Mongo.DistinctIds(docs) && a in docs && b in docs && Mongo.IdOf(a) == Mongo.IdOf(b)
    ensures a == b
  {
    var i :| 0 <= i < |docs| && docs[i] == a;
    var j :| 0 <= j < |docs| && docs[j] == b;
    assert i == j;
  }

  /** Two different documents in a list make it at least two long. */
  lemma TwoMembers(docs: seq<Doc>, a: Doc, b: Doc)
    requires a in docs && b in docs && a != b
    ensures |docs| >= 2
  {
  }

  /** The `_id` of a stored user is in `ids[1:]` exactly when the user has
      Twitter id `x` and is not the first with it. */
  lemma RemovedIffLater(docs: seq<Doc>, x: Json, d: Doc)
    requires Mongo.DistinctIds(docs) && d in docs
    ensures Mongo.IdOf(d) in AllButFirst(ObjectIds(Mongo.Find(docs, Mongo.FieldIs("id", x)))) <==>
              Get(d, "id") == x && FirstWithId(docs, x) != Some(d)
  {
    var found := Mongo.Find(docs, Mongo.FieldIs("id", x));
    var ids := ObjectIds(found);
    Mongo.FindHead(docs, Mongo.FieldIs("id", x));
    Mongo.FindKeepsDistinctIds(docs, Mongo.FieldIs("id", x));
    if Mongo.IdOf(d) in AllButFirst(ids) {
      var j :| 1 <= j < |ids| && ids[j] == Mongo.IdOf(d);
      assert found[j] in docs;
      SameIdSameDoc(docs, d, found[j]);
      assert Mongo.IdOf(found[0]) != Mongo.IdOf(found[j]);
    }
    if Get(d, "id") == x && FirstWithId(docs, x) != Some(d) {
      assert d in found;
      var j :| 0 <= j < |found| && found[j] == d;
      assert j != 0;
      assert AllButFirst(ids)[j - 1] == Mongo.IdOf(d);
    }
  }

  /** Removing earlier ids never touches the users with an id not yet processed. */
  lemma FoundUnaffected(docs: seq<Doc>, handled: seq<Json>, x: Json)
    requires x !in handled
    ensures Mongo.Find(Mongo.Find(docs, KeptAfter(docs, handled)), Mongo.FieldIs("id", x))
            == Mongo.Find(docs, Mongo.FieldIs("id", x))
  {
    var kept, byId := KeptAfter(docs, handled), Mongo.FieldIs("id", x);
    Mongo.FindFind(docs, kept, byId);
    Mongo.FindSame(docs, d => kept(d) && byId(d), byId);
  }

  /** One iteration over the collection left by the earlier ones. */
  lemma RemoveStep(docs: seq<Doc>, nextOid: nat, handled: seq<Json>, x: Json)
    requires Mongo.DistinctIds(docs) && x !in handled
    ensures RemovedFor(Mongo.Store(Mongo.Find(docs, KeptAfter(docs, handled)), nextOid), x)
            == Mongo.Store(Mongo.Find(docs, KeptAfter(docs, handled + [x])), nextOid)
  {
    var kept := KeptAfter(docs, handled);
    var current := Mongo.Find(docs, kept);
    FoundUnaffected(docs, handled, x);
    var ids := AllButFirst(ObjectIds(Mongo.Find(docs, Mongo.FieldIs("id", x))));
    var stays := d => !(Mongo.IdOf(d) in ids);
    var removed := d => Mongo.IdOf(d) in AllButFirst(ObjectIds(Mongo.Find(current, Mongo.FieldIs("id", x))));
    assert RemovedFor(Mongo.Store(current, nextOid), x) == Mongo.Remove(Mongo.Store(current, nextOid), removed);
    Mongo.FindSame(current, d => !removed(d), stays);
    Mongo.FindFind(docs, kept, stays);
    StepAgrees(docs, handled, x);
    Mongo.FindSame(docs, d => kept(d) && stays(d), KeptAfter(docs, handled + [x]));
  }

  lemma StepAgrees(docs: seq<Doc>, handled: seq<Json>, x: Json)
    requires Mongo.DistinctIds(docs) && x !in handled
    ensures var ids := AllButFirst(ObjectIds(Mongo.Find(docs, Mongo.FieldIs("id", x))));
            forall d :: d in docs ==>
              (KeptAfter(docs, handled)(d) && !(Mongo.IdOf(d) in ids)) == KeptAfter(docs, handled + [x])(d)
  {
    forall d | d in docs {
      RemovedIffLater(docs, x, d);
    }
  }

  /** Once every duplicated id is processed, exactly the first user of each
      Twitter id is left: a user whose id is not duplicated is its own first. */
  lemma KeptAfterAll(docs: seq<Doc>, groups: seq<Json>)
    requires forall x :: x in groups <==> Occurrences(docs, x) > 1
    ensures Mongo.Find(docs, KeptAfter(docs, groups)) == KeepFirst(docs)
  {
    forall d | d in docs ensures KeptAfter(docs, groups)(d) == (FirstWithId(docs, Get(d, "id")) == Some(d)) {
      var x := Get(d, "id");
      if x !in groups && FirstWithId(docs, x) != Some(d) {
        TwoMembers(Mongo.Find(docs, Mongo.FieldIs("id", x)), d, FirstWithId(docs, x).value);
      }
    }
    Mongo.FindSame(docs, KeptAfter(docs, groups), d => FirstWithId(docs, Get(d, "id")) == Some(d));
  }

  /** Afterwards every Twitter id that was stored occurs exactly once and no
      other id occurs, so the set of ids is unchanged and
      `Occurrences(docs, x) - 1` users with id `x` are removed. */
  lemma KeepFirstOnce(docs: seq<Doc>, x: Json)
    requires Mongo.DistinctIds(docs)
    ensures Occurrences(KeepFirst(docs), x) == if Occurrences(docs, x) > 0 then 1 else 0
  {
    var isFirst := d => FirstWithId(docs, Get(d, "id")) == Some(d);
    var found := Mongo.Find(KeepFirst(docs), Mongo.FieldIs("id", x));
    Mongo.FindKeepsDistinctIds(docs, isFirst);
    Mongo.FindKeepsDistinctIds(KeepFirst(docs), Mongo.FieldIs("id", x));
    Mongo.FindHead(docs, Mongo.FieldIs("id", x));
    if Occurrences(docs, x) > 0 {
      var first := FirstWithId(docs, x).value;
      assert first in found;
      AtMostOne(found, first);
    } else {
      NoneFound(found, docs, x);
    }
  }

  /** A list of documents with distinct `_id`s that are all `e` has at most one element. */
  lemma AtMostOne(s: seq<Doc>, e: Doc)
    requires Mongo.DistinctIds(s) && forall y :: y in s ==> y == e
    ensures |s| <= 1
  {
    if |s| >= 2 {
      FirstTwoDiffer(s);
      assert false;
    }
  }

  lemma FirstTwoDiffer(s: seq<Doc>)
    requires Mongo.DistinctIds(s) && |s| >= 2
    ensures s[0] in s && s[1] in s && s[0] != s[1]
  {
    assert Mongo.IdOf(s[0]) != Mongo.IdOf(s[1]);
  }

  lemma NoneFound(s: seq<Doc>, docs: seq<Doc>, x: Json)
    requires forall y :: y in s ==> y in docs && Get(y, "id") == x
    requires forall d :: d in docs ==> Get(d, "id") != x
    ensures |s| == 0
  {
    if |s| > 0 {
      FirstIn(s);
      assert false;
    }
  }

  lemma FirstIn(s: seq<Doc>)
    requires |s| > 0
    ensures s[0] in s
  {
  }

  /** A user whose Twitter id occurs once is kept, and a kept user is the
      first with its id in natural order. */
  lemma KeepFirstWhich(docs: seq<Doc>, d: Doc)
    requires d in docs
    ensures Occurrences(docs, Get(d, "id")) == 1 ==> d in KeepFirst(docs)
    ensures d in KeepFirst(docs) <==> FirstWithId(docs, Get(d, "id")) == Some(d)
  {
    var x := Get(d, "id");
    if Occurrences(docs, x) == 1 && FirstWithId(docs, x) != Some(d) {
      TwoMembers(Mongo.Find(docs, Mongo.FieldIs("id", x)), d, FirstWithId(docs, x).value);
    }
  }

  class DuplicatesRemover {
    /** The users collection. */
    var users: Mongo.Store

    constructor (users: Mongo.Store)
      ensures this.users == users
    {
      this.users := users;
    }

    /** `remove_duplicate_users`, over the cursor `groups` of the ids that
        occur more than once, each once, in any order. */
    method RemoveDuplicateUsers(groups: seq<Json>)
      requires Mongo.Valid(users)
      requires NoRepeats(groups) && forall x :: x in groups <==> Occurrences(users.docs, x) > 1
      modifies this
      ensures Mongo.Valid(users)
      ensures users == Mongo.Store(KeepFirst(old(users).docs), old(users).nextOid)
    {
      ghost var orig := users;
      Mongo.FindAll(orig.docs, KeptAfter(orig.docs, []));
      var i := 0;
      while i < |groups|
        invariant i <= |groups|
        invariant users == Mongo.Store(Mongo.Find(orig.docs, KeptAfter(orig.docs, groups[..i])), orig.nextOid)
      {
        var x := groups[i];
        assert x !in groups[..i];
        RemoveStep(orig.docs, orig.nextOid, groups[..i], x);
        var duplicates := Mongo.Find(users.docs, Mongo.FieldIs("id", x));
        var ids := ObjectIds(duplicates);
        users := Mongo.Remove(users, d => Mongo.IdOf(d) in AllButFirst(ids));
        assert groups[..i + 1] == groups[..i] + [x];
        i := i + 1;
      }
      assert groups[..i] == groups;
      KeptAfterAll(orig.docs, groups);
      Mongo.FindKeepsValid(orig, d => FirstWithId(orig.docs, Get(d, "id")) == Some(d));
    }
  }
}

/** An in-memory MongoDB collection: the documents in natural (insertion)
    order plus the counter that hands out fresh ObjectIds. The operations are
    the pymongo calls the system uses: `find`, `find_one`, `save` (upsert by
    `_id`), `delete_one` and `remove`. A cursor is the snapshot `Find` returns. */
module Mongo {
  import opened Common

  /** The `_id` of a document (JNull when it has none). */
  function IdOf(d: Doc): Json
  {
    Get(d, "_id")
  }

  datatype Store = Store(docs: seq<Doc>, nextOid: nat)

  predicate DistinctIds(docs: seq<Doc>)
  {
    forall i, j :: 0 <= i < j < |docs| ==> IdOf(docs[i]) != IdOf(docs[j])
  }

  /** The collection invariant MongoDB maintains: every document has an
      `_id`, no two share one, and every ObjectId was handed out already. */
  predicate Valid(s: Store)
  {
    && (forall i :: 0 <= i < |s.docs| ==> "_id" in s.docs[i])
    && DistinctIds(s.docs)
    && (forall i :: 0 <= i < |s.docs| && IdOf(s.docs[i]).JOid? ==> IdOf(s.docs[i]).oid < s.nextOid)
  }

  /** Index of the first document satisfying `p`. */
  function IndexWhere(docs: seq<Doc>, p: Doc -> bool): (r: Option<nat>)
    ensures r.Some? ==> r.value < |docs| && p(docs[r.value])
    ensures r.Some? ==> forall k :: 0 <= k < r.value ==> !p(docs[k])
    ensures r.None? ==> forall k :: 0 <= k < |docs| ==> !p(docs[k])
  {
    if |docs| == 0 then None
    else if p(docs[0]) then Some(0)
    else match IndexWhere(docs[1..], p)
      case None => None
      case Some(k) => Some(k + 1)
  }

  /** The first match depends only on which positions match. */
  lemma IndexWhereSameMatches(docs: seq<Doc>, other: seq<Doc>, p: Doc -> bool)
    requires |docs| == |other| && forall k :: 0 <= k < |docs| ==> p(docs[k]) == p(other[k])
    ensures IndexWhere(other, p) == IndexWhere(docs, p)
  {
  }

  /** Writing a non-matching document over a non-matching one leaves the
      first match where it was. */
  lemma IndexWhereUpdate(docs: seq<Doc>, k: nat, e: Doc, p: Doc -> bool)
    requires k < |docs| && !p(docs[k]) && !p(e)
    ensures IndexWhere(docs[k := e], p) == IndexWhere(docs, p)
  {
    IndexWhereSameMatches(docs, docs[k := e], p);
  }

  /** Appending a non-matching document leaves the first match where it was. */
  lemma IndexWhereAppend(docs: seq<Doc>, e: Doc, p: Doc -> bool)
    requires !p(e)
    ensures IndexWhere(docs + [e], p) == IndexWhere(docs, p)
  {
    var r := IndexWhere(docs + [e], p);
    assert forall k :: 0 <= k < |docs| ==> (docs + [e])[k] == docs[k];
    if r.Some? {
      assert r.value < |docs|;
    }
  }

  /** `collection.find(query)`: the matching documents in natural order. */
  function Find(docs: seq<Doc>, p: Doc -> bool): (r: seq<Doc>)
    ensures |r| <= |docs|
    ensures forall x :: x in r <==> x in docs && p(x)
  {
    if |docs| == 0 then []
    else if p(docs[0]) then [docs[0]] + Find(docs[1..], p)
    else Find(docs[1..], p)
  }

  /** Filtering twice is filtering by both queries. */
  lemma {:induction false} FindFind(docs: seq<Doc>, p: Doc -> bool, q: Doc -> bool)
    ensures Find(Find(docs, p), q) == Find(docs, x => p(x) && q(x))
  {
    if |docs| > 0 {
      FindFind(docs[1..], p, q);
    }
  }

  /** Queries that agree on every document find the same documents. */
  lemma {:induction false} FindSame(docs: seq<Doc>, p: Doc -> bool, q: Doc -> bool)
    requires forall x :: x in docs ==> p(x) == q(x)
    ensures Find(docs, p) == Find(docs, q)
  {
    if |docs| > 0 {
      assert forall x :: x in docs[1..] ==> x in docs;
      FindSame(docs[1..], p, q);
    }
  }

  /** The query `p` with the document `d` left out. */
  function Except(p: Doc -> bool, d: Doc): Doc -> bool
  {
    x => p(x) && x != d
  }

  /** Taking the k-th found document out of the result is finding with that
      document excluded, when the documents are stored once each. */
  lemma {:induction false} FindWithout(docs: seq<Doc>, p: Doc -> bool, k: nat)
    requires DistinctIds(docs) && k < |Find(docs, p)|
    ensures Find(docs, p)[..k] + Find(docs, p)[k + 1..] == Find(docs, Except(p, Find(docs, p)[k]))
    decreases |docs|, 1
  {
    DistinctTail(docs);
    if !p(docs[0]) {
      FindWithoutSkip(docs, p, k);
    } else if k == 0 {
      FindWithoutFirst(docs, p);
    } else {
      FindWithoutLater(docs, p, k);
    }
  }

  /** `FindWithout` when the first document is the one left out. */
  lemma FindWithoutFirst(docs: seq<Doc>, p: Doc -> bool)
    requires |docs| > 0 && p(docs[0]) && docs[0] !in docs[1..]
    ensures Find(docs, p)[..0] + Find(docs, p)[1..] == Find(docs, Except(p, Find(docs, p)[0]))
  {
    var q := Except(p, docs[0]);
    FindSame(docs[1..], p, q);
    assert Find(docs, p)[1..] == Find(docs[1..], p);
    assert Find(docs, q) == Find(docs[1..], q);
  }

  /** `FindWithout` when the first document does not match. */
  lemma {:induction false} FindWithoutSkip(docs: seq<Doc>, p: Doc -> bool, k: nat)
    requires |docs| > 0 && !p(docs[0]) && DistinctIds(docs[1..]) && k < |Find(docs, p)|
    ensures Find(docs, p)[..k] + Find(docs, p)[k + 1..] == Find(docs, Except(p, Find(docs, p)[k]))
    decreases |docs|, 0
  {
    var rest := docs[1..];
    assert Find(docs, p) == Find(rest, p);
    FindWithout(rest, p, k);
    var q := Except(p, Find(docs, p)[k]);
    assert Find(docs, q) == Find(rest, q);
  }

  /** `FindWithout` when a later match is the one left out. */
  lemma {:induction false} FindWithoutLater(docs: seq<Doc>, p: Doc -> bool, k: nat)
    requires |docs| > 0 && p(docs[0]) && 0 < k < |Find(docs, p)|
    requires DistinctIds(docs[1..]) && docs[0] !in docs[1..]
    ensures Find(docs, p)[..k] + Find(docs, p)[k + 1..] == Find(docs, Except(p, Find(docs, p)[k]))
    decreases |docs|, 0
  {
    var rest := docs[1..];
    var d := Find(docs, p)[k];
    var q := Except(p, d);
    FindWithout(rest, p, k - 1);
    assert Find(rest, p)[k - 1] == d;
    assert d in rest;
    assert Find(docs, q) == [docs[0]] + Find(rest, q);
    assert Find(docs, p)[..k] == [docs[0]] + Find(rest, p)[..k - 1];
    assert Find(docs, p)[k + 1..] == Find(rest, p)[k..];
  }

  /** Past the first of a run of documents with distinct `_id`s, the ids
      stay distinct and the first does not recur. */
  lemma DistinctTail(docs: seq<Doc>)
    requires DistinctIds(docs) && |docs| > 0
    ensures DistinctIds(docs[1..]) && docs[0] !in docs[1..]
  {
    var rest := docs[1..];
    forall i, j | 0 <= i < j < |rest| ensures IdOf(rest[i]) != IdOf(rest[j]) {
      assert rest[i] == docs[i + 1] && rest[j] == docs[j + 1];
    }
    forall j | 0 <= j < |rest| ensures rest[j] != docs[0] {
      assert IdOf(docs[0]) != IdOf(docs[j + 1]);
    }
  }

  /** A query every document matches finds them all. */
  lemma {:induction false} FindAll(docs: seq<Doc>, p: Doc -> bool)
    requires forall x :: x in docs ==> p(x)
    ensures Find(docs, p) == docs
  {
    if |docs| > 0 {
      assert forall x :: x in docs[1..] ==> x in docs;
      FindAll(docs[1..], p);
    }
  }

  /** The first document `find` yields is the first match. */
  lemma {:induction false} FindHead(docs: seq<Doc>, p: Doc -> bool)
    ensures |Find(docs, p)| > 0 <==> IndexWhere(docs, p).Some?
    ensures |Find(docs, p)| > 0 ==> Find(docs, p)[0] == docs[IndexWhere(docs, p).value]
  {
    if |docs| > 0 && !p(docs[0]) {
      FindHead(docs[1..], p);
    }
  }

  /** `collection.find_one(query)`: the first matching document, or None. */
  function FindOne(s: Store, p: Doc -> bool): (r: Option<Doc>)
    ensures r.Some? ==> r.value in s.docs && p(r.value)
    ensures r.None? <==> forall x :: x in s.docs ==> !p(x)
  {
    match IndexWhere(s.docs, p)
    case None => None
    case Some(k) => Some(s.docs[k])
  }

  /** The document `save` writes: `d`, with a fresh ObjectId when it has no `_id`. */
  function Stamped(s: Store, d: Doc): (r: Doc)
    ensures "_id" in r
  {
    if "_id" in d then d else d["_id" := JOid(s.nextOid)]
  }

  /** `collection.save(d)`: replace the document with the same `_id`, or insert. */
  function Save(s: Store, d: Doc): (r: Store)
  {
    var e := Stamped(s, d);
    match IndexWhere(s.docs, x => IdOf(x) == IdOf(e))
    case Some(k) => Store(s.docs[k := e], s.nextOid)
    case None =>
      Store(s.docs + [e], if IdOf(e).JOid? && IdOf(e).oid >= s.nextOid then IdOf(e).oid + 1 else s.nextOid)
  }

  /** `save` upserts by `_id`: the written document is stored, every document
      with another `_id` stays, and nothing else appears. */
  lemma SaveUpserts(s: Store, d: Doc)
    requires Valid(s)
    ensures Valid(Save(s, d))
    ensures Stamped(s, d) in Save(s, d).docs
    ensures forall x :: x in s.docs && IdOf(x) != IdOf(Stamped(s, d)) ==> x in Save(s, d).docs
    ensures forall x :: x in Save(s, d).docs ==> x in s.docs || x == Stamped(s, d)
    ensures |Save(s, d).docs| == |s.docs| + (if FindOne(s, x => IdOf(x) == IdOf(Stamped(s, d))).Some? then 0 else 1)
  {
    var e := Stamped(s, d);
    var r := Save(s, d);
    match IndexWhere(s.docs, x => IdOf(x) == IdOf(e))
    case Some(k) =>
      assert r.docs[k] == e;
      forall x | x in s.docs && IdOf(x) != IdOf(e) ensures x in r.docs {
        var m :| 0 <= m < |s.docs| && s.docs[m] == x;
        assert r.docs[m] == x;
      }
    case None =>
      assert r.docs == s.docs + [e];
  }

  /** Replacing a stored document by one with the same `_id` keeps the order
      and position of everything. */
  lemma SaveReplacesInPlace(s: Store, d: Doc, k: nat)
    requires Valid(s) && k < |s.docs| && "_id" in d && IdOf(s.docs[k]) == IdOf(d)
    ensures Save(s, d) == Store(s.docs[k := d], s.nextOid)
  {
    match IndexWhere(s.docs, x => IdOf(x) == IdOf(d))
    case Some(j) =>
    case None =>
  }

  /** `collection.delete_one(query)`: remove the first matching document. */
  function DeleteOne(s: Store, p: Doc -> bool): (r: Store)
    ensures |r.docs| == |s.docs| - (if FindOne(s, p).Some? then 1 else 0)
    ensures r.nextOid == s.nextOid
  {
    match IndexWhere(s.docs, p)
    case None => s
    case Some(k) => Store(s.docs[..k] + s.docs[k + 1..], s.nextOid)
  }

  /** The equality query `{key: value}`; a missing field matches None. */
  function FieldIs(key: string, value: Json): Doc -> bool
  {
    x => Get(x, key) == value
  }

  /** The query `{"_id": id}`. */
  function HasId(id: Json): Doc -> bool
  {
    x => IdOf(x) == id
  }

  /** `delete_one({"_id": d["_id"]})` for a stored document removes exactly that document. */
  lemma DeleteOneById(s: Store, d: Doc)
    requires Valid(s) && d in s.docs
    ensures Valid(DeleteOne(s, HasId(IdOf(d))))
    ensures forall x :: x in DeleteOne(s, HasId(IdOf(d))).docs <==> x in s.docs && x != d
  {
    DeleteOneKeepsValid(s, HasId(IdOf(d)));
    var k := DeletedAt(s, d);
    StoredOnce(s.docs, k);
    RemoveAtMembers(s.docs, k);
  }

  /** Documents with distinct `_id`s are distinct. */
  lemma StoredOnce(docs: seq<Doc>, k: nat)
    requires DistinctIds(docs) && k < |docs|
    ensures forall j :: 0 <= j < |docs| && j != k ==> docs[j] != docs[k]
  {
    forall j | 0 <= j < |docs| && j != k ensures docs[j] != docs[k] {
      if j < k {
        assert IdOf(docs[j]) != IdOf(docs[k]);
      } else {
        assert IdOf(docs[k]) != IdOf(docs[j]);
      }
    }
  }

  lemma RemoveAtMembers(docs: seq<Doc>, k: nat)
    requires k < |docs|
    requires forall j :: 0 <= j < |docs| && j != k ==> docs[j] != docs[k]
    ensures forall x :: x in docs[..k] + docs[k + 1..] <==> x in docs && x != docs[k]
  {
    var r := docs[..k] + docs[k + 1..];
    forall x ensures x in r <==> x in docs && x != docs[k] {
      if x in r {
        var m :| 0 <= m < |r| && r[m] == x;
        if m < k {
          assert docs[m] == x;
        } else {
          assert docs[m + 1] == x;
        }
      }
      if x in docs && x != docs[k] {
        var m :| 0 <= m < |docs| && docs[m] == x;
        if m < k {
          assert r[m] == x;
        } else {
          assert r[m - 1] == x;
        }
      }
    }
  }

  lemma DeletedAt(s: Store, d: Doc) returns (k: nat)
    requires Valid(s) && d in s.docs
    ensures k < |s.docs| && s.docs[k] == d
    ensures DeleteOne(s, HasId(IdOf(d))).docs == s.docs[..k] + s.docs[k + 1..]
  {
    var j :| 0 <= j < |s.docs| && s.docs[j] == d;
    k := IndexWhere(s.docs, HasId(IdOf(d))).value;
    assert k == j;
  }

  /** `collection.remove(query)`: remove every matching document. */
  function Remove(s: Store, p: Doc -> bool): (r: Store)
    ensures r.nextOid == s.nextOid
  {
    Store(Find(s.docs, x => !p(x)), s.nextOid)
  }

  lemma {:induction false} FindKeepsDistinctIds(docs: seq<Doc>, p: Doc -> bool)
    requires DistinctIds(docs)
    ensures DistinctIds(Find(docs, p))
  {
    if |docs| > 0 {
      FindKeepsDistinctIds(docs[1..], p);
      var rest := Find(docs[1..], p);
      if p(docs[0]) {
        var r := [docs[0]] + rest;
        forall i, j | 0 <= i < j < |r| ensures IdOf(r[i]) != IdOf(r[j]) {
          if i == 0 {
            assert r[j] in docs[1..];
            var m :| 0 <= m < |docs[1..]| && docs[1..][m] == r[j];
            assert docs[m + 1] == r[j];
          } else {
            assert r[i] == rest[i - 1] && r[j] == rest[j - 1];
          }
        }
      }
    }
  }

  /** Deleting keeps the collection invariant. */
  lemma FindKeepsValid(s: Store, p: Doc -> bool)
    requires Valid(s)
    ensures Valid(Store(Find(s.docs, p), s.nextOid))
  {
    FindKeepsDistinctIds(s.docs, p);
    var r := Find(s.docs, p);
    forall i | 0 <= i < |r| ensures "_id" in r[i] && (IdOf(r[i]).JOid? ==> IdOf(r[i]).oid < s.nextOid) {
      assert r[i] in s.docs;
    }
  }

  lemma RemoveKeepsValid(s: Store, p: Doc -> bool)
    requires Valid(s)
    ensures Valid(Remove(s, p))
  {
    FindKeepsValid(s, x => !p(x));
  }

  lemma DeleteOneKeepsValid(s: Store, p: Doc -> bool)
    requires Valid(s)
    ensures Valid(DeleteOne(s, p))
  {
    match IndexWhere(s.docs, p)
    case None =>
    case Some(k) =>
      var r := DeleteOne(s, p).docs;
      assert forall i :: 0 <= i < |r| ==> r[i] == (if i < k then s.docs[i] else s.docs[i + 1]);
  }

  /** After a matched document is saved back with its `_id` and still
      matching, `find_one` with the same query returns it. */
  lemma FindOneAfterReplace(s: Store, p: Doc -> bool, k: nat, e: Doc)
    requires Valid(s) && IndexWhere(s.docs, p) == Some(k)
    requires "_id" in e && IdOf(e) == IdOf(s.docs[k]) && p(e)
    ensures Save(s, e) == Store(s.docs[k := e], s.nextOid)
    ensures FindOne(Save(s, e), p) == Some(e)
  {
    SaveReplacesInPlace(s, e, k);
    var r := s.docs[k := e];
    assert p(r[k]);
    assert forall j :: 0 <= j < k ==> !p(r[j]) by {
      assert forall j :: 0 <= j < k ==> r[j] == s.docs[j];
    }
  }

  /** After a document without `_id` that matches is inserted into a
      collection where nothing matched, `find_one` returns it. */
  lemma FindOneAfterInsert(s: Store, p: Doc -> bool, d: Doc)
    requires Valid(s) && FindOne(s, p).None? && "_id" !in d && p(Stamped(s, d))
    ensures Save(s, d) == Store(s.docs + [Stamped(s, d)], s.nextOid + 1)
    ensures FindOne(Save(s, d), p) == Some(Stamped(s, d))
  {
    var e := Stamped(s, d);
    assert forall j :: 0 <= j < |s.docs| ==> IdOf(s.docs[j]) != IdOf(e);
    assert IndexWhere(s.docs, x => IdOf(x) == IdOf(e)).None?;
    var r := s.docs + [e];
    assert forall j :: 0 <= j < |s.docs| ==> !p(r[j]) by {
      assert forall j :: 0 <= j < |s.docs| ==> r[j] == s.docs[j];
    }
    assert p(r[|s.docs|]);
  }
}

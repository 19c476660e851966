/** `InfluencerListManager`: synchronises the influencers collection with
    the influencer lists. Every entry of every list is saved under its list's
    name as category, a new screen name with crawl status "new" and a known
    one over the stored entry, keeping its `_id` and crawl status; then one
    entry that is on no list is deleted. Fetching a list (a file or an HTTP
    request) is the parameter `fetch`. */
module InfluencerListManager {
  import opened Common
  import Constants
  import Mongo

  /** A list entry together with the name of the list it is on. */
  datatype Tagged = Tagged(entry: Doc, listName: string)

  /** The sync's running state: the collection, the screen names seen on the
      lists so far, and whether an exception has ended the sync. */
  datatype Progress = Progress(store: Mongo.Store, onLists: seq<Json>, status: Result<()>)

  function Tag(entries: seq<Doc>, listName: string): (r: seq<Tagged>)
    ensures |r| == |entries| && forall k :: 0 <= k < |entries| ==> r[k] == Tagged(entries[k], listName)
  {
    seq(|entries|, k requires 0 <= k < |entries| => Tagged(entries[k], listName))
  }

  /** The document `_sync_list` saves for one entry: the entry with its
      category, and either crawl status "new" (`_insert_new_entry`) or the
      `_id` and crawl status of the first stored entry with the same screen
      name (`_update_existing_entry`). */
  function SavedEntry(store: Mongo.Store, t: Tagged): Result<Doc>
  {
    if "screen_name" !in t.entry then Raised("KeyError", "screen_name")
    else
      var entry := t.entry["category" := JStr(t.listName)];
      match Mongo.FindOne(store, Mongo.FieldIs("screen_name", entry["screen_name"]))
      case None => Ok(entry["crawl_status" := JStr(Constants.CrawlStatusValue(Constants.New))])
      case Some(existing) =>
        if "crawl_status" !in existing then Raised("KeyError", "crawl_status")
        else Ok(entry["_id" := Mongo.IdOf(existing)]["crawl_status" := existing["crawl_status"]])
  }

  /** One iteration of `_sync_list`; nothing happens once the sync has failed. */
  function SyncEntry(p: Progress, t: Tagged): Progress
  {
    if p.status.Raised? then p
    else if "screen_name" !in t.entry then p.(status := Raised("KeyError", "screen_name"))
    else
      var onLists := p.onLists + [t.entry["screen_name"]];
      match SavedEntry(p.store, t)
      case Raised(e, m) => Progress(p.store, onLists, Raised(e, m))
      case Ok(d) => Progress(Mongo.Save(p.store, d), onLists, Ok(()))
  }

  /** The entries synchronised in order. */
  function SyncEntries(p: Progress, ts: seq<Tagged>): Progress
  {
    if |ts| == 0 then p else SyncEntry(SyncEntries(p, ts[..|ts| - 1]), ts[|ts| - 1])
  }

  /** `_add_or_update`: each configured list fetched and synchronised in
      order; a failed fetch ends the sync. */
  function SyncLists(p: Progress, listNames: seq<string>, fetch: string -> Result<seq<Doc>>): Progress
  {
    if |listNames| == 0 then p
    else
      var q := SyncLists(p, listNames[..|listNames| - 1], fetch);
      var name := listNames[|listNames| - 1];
      if q.status.Raised? then q
      else match fetch(name)
        case Raised(e, m) => q.(status := Raised(e, m))
        case Ok(entries) => SyncEntries(q, Tag(entries, name))
  }

  /** The query `{"screen_name": {"$nin": onLists}}`. */
  function NotOnLists(onLists: seq<Json>): Doc -> bool
  {
    d => Get(d, "screen_name") !in onLists
  }

  /** The screen names of the entries, in order. */
  function ScreenNames(ts: seq<Tagged>): seq<Json>
  {
    if |ts| == 0 then [] else ScreenNames(ts[..|ts| - 1]) + [Get(ts[|ts| - 1].entry, "screen_name")]
  }

  // ------------------------------------------------------------ properties

  /** Once an exception has ended the sync, further entries change nothing. */
  lemma {:induction false} SyncEntriesStopped(p: Progress, ts: seq<Tagged>)
    requires p.status.Raised?
    ensures SyncEntries(p, ts) == p
  {
    if |ts| > 0 {
      SyncEntriesStopped(p, ts[..|ts| - 1]);
    }
  }

  /** One step of the sync on a new screen name: the entry, with its
      category and crawl status "new", is saved. */
  lemma SyncEntryNew(p: Progress, t: Tagged)
    requires p.status.Ok? && "screen_name" in t.entry
    requires Mongo.FindOne(p.store, Mongo.FieldIs("screen_name", t.entry["screen_name"])).None?
    ensures SyncEntry(p, t) == Progress(
              Mongo.Save(p.store, t.entry["category" := JStr(t.listName)]["crawl_status" := JStr(Constants.CrawlStatusValue(Constants.New))]),
              p.onLists + [t.entry["screen_name"]], Ok(()))
  {
    assert t.entry["category" := JStr(t.listName)]["screen_name"] == t.entry["screen_name"];
  }

  /** One step of the sync on a stored screen name: the entry, with its
      category and the stored `_id` and crawl status, is saved, or the step
      fails when the stored entry has no crawl status. */
  lemma SyncEntryExisting(p: Progress, t: Tagged, existing: Doc)
    requires p.status.Ok? && "screen_name" in t.entry
    requires Mongo.FindOne(p.store, Mongo.FieldIs("screen_name", t.entry["screen_name"])) == Some(existing)
    ensures "crawl_status" !in existing ==>
              SyncEntry(p, t) == Progress(p.store, p.onLists + [t.entry["screen_name"]], Raised("KeyError", "crawl_status"))
    ensures "crawl_status" in existing ==>
              SyncEntry(p, t) == Progress(
                Mongo.Save(p.store, t.entry["category" := JStr(t.listName)]["_id" := Mongo.IdOf(existing)]["crawl_status" := existing["crawl_status"]]),
                p.onLists + [t.entry["screen_name"]], Ok(()))
  {
    assert t.entry["category" := JStr(t.listName)]["screen_name"] == t.entry["screen_name"];
  }

  /** Synchronising two runs of entries is synchronising their concatenation. */
  lemma {:induction false} SyncEntriesAppend(p: Progress, a: seq<Tagged>, b: seq<Tagged>)
    ensures SyncEntries(SyncEntries(p, a), b) == SyncEntries(p, a + b)
  {
    if |b| > 0 {
      SyncEntriesAppend(p, a, b[..|b| - 1]);
      assert (a + b)[..|a + b| - 1] == a + b[..|b| - 1];
      assert (a + b)[|a + b| - 1] == b[|b| - 1];
    } else {
      assert a + b == a;
    }
  }

  /** A successful step appends the entry's screen name. */
  lemma SyncEntryOk(p: Progress, t: Tagged)
    requires SyncEntry(p, t).status.Ok?
    ensures p.status.Ok? && "screen_name" in t.entry && SyncEntry(p, t).onLists == p.onLists + [t.entry["screen_name"]]
  {
  }

  /** A successful sync appends every entry's screen name, in list order. */
  lemma {:induction false} SyncEntriesNames(p: Progress, ts: seq<Tagged>)
    requires p.status.Ok? && SyncEntries(p, ts).status.Ok?
    ensures SyncEntries(p, ts).onLists == p.onLists + ScreenNames(ts)
  {
    if |ts| > 0 {
      var init, t := ts[..|ts| - 1], ts[|ts| - 1];
      var q := SyncEntries(p, init);
      SyncEntryOk(q, t);
      SyncEntriesNames(p, init);
      var x := t.entry["screen_name"];
      assert ScreenNames(ts) == ScreenNames(init) + [x];
    }
  }

  /** The saved entry carries its list's name as category and, besides the
      `_id` and crawl status, exactly the list entry's fields. A screen name
      not stored yet gets crawl status "new"; a stored one keeps the `_id`
      and crawl status of the first stored entry with that name. */
  lemma SavedEntryShape(store: Mongo.Store, t: Tagged)
    requires SavedEntry(store, t).Ok?
    ensures var d := SavedEntry(store, t).value;
            && "screen_name" in t.entry
            && d["category"] == JStr(t.listName)
            && (forall key :: key != "category" && key != "crawl_status" && key != "_id" ==>
                  (key in d <==> key in t.entry) && (key in d ==> d[key] == t.entry[key]))
            && match Mongo.FindOne(store, Mongo.FieldIs("screen_name", t.entry["screen_name"]))
               case None => d["crawl_status"] == JStr("new") && ("_id" in d <==> "_id" in t.entry)
               case Some(existing) =>
                 && "crawl_status" in existing && d["crawl_status"] == existing["crawl_status"]
                 && d["_id"] == Mongo.IdOf(existing)
  {
  }

  /** Failures: an entry without a screen name, or a stored entry with that
      screen name but no crawl status. */
  lemma SavedEntryFails(store: Mongo.Store, t: Tagged)
    ensures SavedEntry(store, t).Raised? <==>
              "screen_name" !in t.entry
              || (Mongo.FindOne(store, Mongo.FieldIs("screen_name", t.entry["screen_name"])).Some?
                  && "crawl_status" !in Mongo.FindOne(store, Mongo.FieldIs("screen_name", t.entry["screen_name"])).value)
  {
  }

  /** Every step keeps the collection valid. */
  lemma {:induction false} SyncEntriesValid(p: Progress, ts: seq<Tagged>)
    requires Mongo.Valid(p.store)
    ensures Mongo.Valid(SyncEntries(p, ts).store)
  {
    if |ts| > 0 {
      var q := SyncEntries(p, ts[..|ts| - 1]);
      SyncEntriesValid(p, ts[..|ts| - 1]);
      if q.status.Ok? && SavedEntry(q.store, ts[|ts| - 1]).Ok? {
        Mongo.SaveUpserts(q.store, SavedEntry(q.store, ts[|ts| - 1]).value);
      }
    }
  }

  lemma {:induction false} SyncListsValid(p: Progress, listNames: seq<string>, fetch: string -> Result<seq<Doc>>)
    requires Mongo.Valid(p.store)
    ensures Mongo.Valid(SyncLists(p, listNames, fetch).store)
  {
    if |listNames| > 0 {
      var q := SyncLists(p, listNames[..|listNames| - 1], fetch);
      SyncListsValid(p, listNames[..|listNames| - 1], fetch);
      var name := listNames[|listNames| - 1];
      if q.status.Ok? && fetch(name).Ok? {
        SyncEntriesValid(q, Tag(fetch(name).value, name));
      }
    }
  }

  /** After an entry is saved, the first stored entry with its screen name
      is the saved document. */
  lemma SyncEntryFound(p: Progress, t: Tagged)
    requires Mongo.Valid(p.store) && "_id" !in t.entry && SyncEntry(p, t).status.Ok? && p.status.Ok?
    ensures "screen_name" in t.entry
    ensures Mongo.FindOne(SyncEntry(p, t).store, Mongo.FieldIs("screen_name", t.entry["screen_name"])) ==
              Some(Mongo.Stamped(p.store, SavedEntry(p.store, t).value))
  {
    var d := SavedEntry(p.store, t).value;
    var byName := Mongo.FieldIs("screen_name", t.entry["screen_name"]);
    assert Get(d, "screen_name") == t.entry["screen_name"];
    match Mongo.IndexWhere(p.store.docs, byName)
    case Some(k) =>
      Mongo.FindOneAfterReplace(p.store, byName, k, d);
    case None =>
      Mongo.FindOneAfterInsert(p.store, byName, d);
  }

  /** Saving an entry does not change which document a lookup by another
      screen name finds. */
  lemma SyncEntryKeepsOthers(p: Progress, t: Tagged, name: Json)
    requires Mongo.Valid(p.store) && "_id" !in t.entry && p.status.Ok? && SyncEntry(p, t).status.Ok?
    requires Get(t.entry, "screen_name") != name
    ensures Mongo.FindOne(SyncEntry(p, t).store, Mongo.FieldIs("screen_name", name)) ==
              Mongo.FindOne(p.store, Mongo.FieldIs("screen_name", name))
  {
    var d := SavedEntry(p.store, t).value;
    var own := t.entry["screen_name"];
    assert SyncEntry(p, t).store == Mongo.Save(p.store, d);
    assert Get(d, "screen_name") == own;
    match Mongo.IndexWhere(p.store.docs, Mongo.FieldIs("screen_name", own))
    case Some(k) =>
      assert "_id" in d && Mongo.IdOf(d) == Mongo.IdOf(p.store.docs[k]);
      ReplaceKeepsOthers(p.store, d, k, own, name);
    case None =>
      InsertKeepsOthers(p.store, d, own, name);
  }

  /** Saving over the first document with screen name `own` does not move
      the first document with another screen name. */
  lemma ReplaceKeepsOthers(s: Mongo.Store, d: Doc, k: nat, own: Json, name: Json)
    requires Mongo.Valid(s) && Mongo.IndexWhere(s.docs, Mongo.FieldIs("screen_name", own)) == Some(k)
    requires "_id" in d && Mongo.IdOf(d) == Mongo.IdOf(s.docs[k]) && Get(d, "screen_name") == own && own != name
    ensures Mongo.FindOne(Mongo.Save(s, d), Mongo.FieldIs("screen_name", name)) ==
              Mongo.FindOne(s, Mongo.FieldIs("screen_name", name))
  {
    Mongo.FindOneAfterReplace(s, Mongo.FieldIs("screen_name", own), k, d);
    Mongo.IndexWhereUpdate(s.docs, k, d, Mongo.FieldIs("screen_name", name));
  }

  /** Appending a document with screen name `own` does not move the first
      document with another screen name. */
  lemma InsertKeepsOthers(s: Mongo.Store, d: Doc, own: Json, name: Json)
    requires Mongo.Valid(s) && Mongo.FindOne(s, Mongo.FieldIs("screen_name", own)).None?
    requires "_id" !in d && Get(d, "screen_name") == own && own != name
    ensures Mongo.FindOne(Mongo.Save(s, d), Mongo.FieldIs("screen_name", name)) ==
              Mongo.FindOne(s, Mongo.FieldIs("screen_name", name))
  {
    assert Get(Mongo.Stamped(s, d), "screen_name") == own;
    Mongo.FindOneAfterInsert(s, Mongo.FieldIs("screen_name", own), d);
    Mongo.IndexWhereAppend(s.docs, Mongo.Stamped(s, d), Mongo.FieldIs("screen_name", name));
  }

  /** The name of the last list on which a screen name occurs. */
  function LastListOf(ts: seq<Tagged>, name: Json): Option<string>
  {
    if |ts| == 0 then None
    else if Get(ts[|ts| - 1].entry, "screen_name") == name then Some(ts[|ts| - 1].listName)
    else LastListOf(ts[..|ts| - 1], name)
  }

  /** A screen name on several lists ends with the category of the last list
      that has it: after a successful sync, looking it up finds a document
      whose category is that list's name. */
  lemma {:induction false} LastCategoryWins(p: Progress, ts: seq<Tagged>, name: Json)
    requires Mongo.Valid(p.store) && p.status.Ok? && SyncEntries(p, ts).status.Ok?
    requires forall k :: 0 <= k < |ts| ==> "_id" !in ts[k].entry
    requires LastListOf(ts, name).Some?
    ensures Mongo.FindOne(SyncEntries(p, ts).store, Mongo.FieldIs("screen_name", name)).Some?
    ensures Get(Mongo.FindOne(SyncEntries(p, ts).store, Mongo.FieldIs("screen_name", name)).value, "category")
              == JStr(LastListOf(ts, name).value)
  {
    var init, t := ts[..|ts| - 1], ts[|ts| - 1];
    var q := SyncEntries(p, init);
    SyncEntriesValid(p, init);
    if Get(t.entry, "screen_name") == name {
      SyncEntryFound(q, t);
      SavedEntryShape(q.store, t);
    } else {
      assert forall k :: 0 <= k < |init| ==> init[k] == ts[k];
      LastCategoryWins(p, init, name);
      SyncEntryKeepsOthers(q, t, name);
    }
  }

  /** The clean-up removes at most one document, the first one whose screen
      name is on no list, and keeps the collection valid. */
  lemma DeleteNotOnLists(s: Mongo.Store, onLists: seq<Json>)
    requires Mongo.Valid(s)
    ensures var after := Mongo.DeleteOne(s, NotOnLists(onLists));
            && Mongo.Valid(after)
            && |after.docs| == |s.docs| - (if exists d :: d in s.docs && Get(d, "screen_name") !in onLists then 1 else 0)
            && match Mongo.IndexWhere(s.docs, NotOnLists(onLists))
               case None => after == s
               case Some(k) => Get(s.docs[k], "screen_name") !in onLists && after.docs == s.docs[..k] + s.docs[k + 1..]
  {
    Mongo.DeleteOneKeepsValid(s, NotOnLists(onLists));
  }

  /** The clean-up never deletes a document whose screen name is on a list,
      and adds none. */
  lemma DeleteKeepsListed(s: Mongo.Store, onLists: seq<Json>)
    ensures var after := Mongo.DeleteOne(s, NotOnLists(onLists));
            && (forall d :: d in after.docs ==> d in s.docs)
            && (forall d :: d in s.docs && Get(d, "screen_name") in onLists ==> d in after.docs)
  {
    match Mongo.IndexWhere(s.docs, NotOnLists(onLists))
    case None =>
    case Some(k) =>
      var after := s.docs[..k] + s.docs[k + 1..];
      forall d | d in after ensures d in s.docs {
        var j :| 0 <= j < |after| && after[j] == d;
        if j < k {
          assert s.docs[j] == d;
        } else {
          assert s.docs[j + 1] == d;
        }
      }
      forall d | d in s.docs && Get(d, "screen_name") in onLists ensures d in after {
        var j :| 0 <= j < |s.docs| && s.docs[j] == d;
        if j < k {
          assert after[j] == d;
        } else {
          assert j != k;
          assert after[j - 1] == d;
        }
      }
  }

  /** One more list: a failed fetch ends the sync, a fetched list is
      synchronised entry by entry. */
  lemma SyncListsNext(p: Progress, listNames: seq<string>, fetch: string -> Result<seq<Doc>>, i: nat)
    requires i < |listNames| && SyncLists(p, listNames[..i], fetch).status.Ok?
    ensures var q := SyncLists(p, listNames[..i], fetch);
            match fetch(listNames[i])
            case Raised(e, m) => SyncLists(p, listNames[..i + 1], fetch) == q.(status := Raised(e, m))
            case Ok(entries) => SyncLists(p, listNames[..i + 1], fetch) == SyncEntries(q, Tag(entries, listNames[i]))
  {
    assert listNames[..i + 1][..i] == listNames[..i];
  }

  /** Every configured list's entries, tagged with their list's name, one
      list after the other. */
  function AllTagged(listNames: seq<string>, fetch: string -> Result<seq<Doc>>): (ts: seq<Tagged>)
    requires forall n :: n in listNames ==> fetch(n).Ok?
  {
    if |listNames| == 0 then []
    else
      var last := listNames[|listNames| - 1];
      AllTagged(listNames[..|listNames| - 1], fetch) + Tag(fetch(last).value, last)
  }

  /** When every list can be fetched, synchronising list by list is
      synchronising all their entries in one run. */
  lemma {:induction false} SyncListsIsSyncEntries(p: Progress, listNames: seq<string>, fetch: string -> Result<seq<Doc>>)
    requires forall n :: n in listNames ==> fetch(n).Ok?
    ensures SyncLists(p, listNames, fetch) == SyncEntries(p, AllTagged(listNames, fetch))
  {
    if |listNames| > 0 {
      var init, last := listNames[..|listNames| - 1], listNames[|listNames| - 1];
      assert forall n :: n in init ==> n in listNames;
      SyncListsIsSyncEntries(p, init, fetch);
      var q := SyncLists(p, init, fetch);
      var tail := Tag(fetch(last).value, last);
      SyncEntriesAppend(p, AllTagged(init, fetch), tail);
      if q.status.Raised? {
        SyncEntriesStopped(q, tail);
      }
    }
  }

  /** A sync of all lists that succeeds has seen every screen name of every
      list, list after list and in list order. */
  lemma SyncListsNames(p: Progress, listNames: seq<string>, fetch: string -> Result<seq<Doc>>)
    requires forall n :: n in listNames ==> fetch(n).Ok?
    requires p.status.Ok? && SyncLists(p, listNames, fetch).status.Ok?
    ensures SyncLists(p, listNames, fetch).onLists == p.onLists + ScreenNames(AllTagged(listNames, fetch))
  {
    SyncListsIsSyncEntries(p, listNames, fetch);
    SyncEntriesNames(p, AllTagged(listNames, fetch));
  }

  /** A screen name on several lists ends with the category of the last
      list, in configuration order, that has it. */
  lemma SyncListsLastCategoryWins(p: Progress, listNames: seq<string>, fetch: string -> Result<seq<Doc>>, name: Json)
    requires forall n :: n in listNames ==> fetch(n).Ok? && forall e :: e in fetch(n).value ==> "_id" !in e
    requires Mongo.Valid(p.store) && p.status.Ok? && SyncLists(p, listNames, fetch).status.Ok?
    requires LastListOf(AllTagged(listNames, fetch), name).Some?
    ensures Mongo.FindOne(SyncLists(p, listNames, fetch).store, Mongo.FieldIs("screen_name", name)).Some?
    ensures Get(Mongo.FindOne(SyncLists(p, listNames, fetch).store, Mongo.FieldIs("screen_name", name)).value, "category")
              == JStr(LastListOf(AllTagged(listNames, fetch), name).value)
  {
    SyncListsIsSyncEntries(p, listNames, fetch);
    AllTaggedNoIds(listNames, fetch);
    LastCategoryWins(p, AllTagged(listNames, fetch), name);
  }

  /** No tagged entry carries an `_id` when no list entry does. */
  lemma {:induction false} AllTaggedNoIds(listNames: seq<string>, fetch: string -> Result<seq<Doc>>)
    requires forall n :: n in listNames ==> fetch(n).Ok? && forall e :: e in fetch(n).value ==> "_id" !in e
    ensures forall k :: 0 <= k < |AllTagged(listNames, fetch)| ==> "_id" !in AllTagged(listNames, fetch)[k].entry
  {
    if |listNames| > 0 {
      var init, last := listNames[..|listNames| - 1], listNames[|listNames| - 1];
      assert forall n :: n in init ==> n in listNames;
      AllTaggedNoIds(init, fetch);
      var a: seq<Tagged>, b: seq<Tagged> := AllTagged(init, fetch), Tag(fetch(last).value, last);
      forall k | 0 <= k < |a + b| ensures "_id" !in (a + b)[k].entry {
        if k >= |a| {
          assert (a + b)[k].entry == fetch(last).value[k - |a|];
        }
      }
    }
  }

  // ------------------------------------------------------------ the class

  class InfluencerListManager {
    /** The influencers collection. */
    var influencers: Mongo.Store
    /** The `influencer_list_names` setting. */
    const listNames: seq<string>

    constructor (listNames: seq<string>, influencers: Mongo.Store)
      ensures this.listNames == listNames && this.influencers == influencers
    {
      this.listNames := listNames;
      this.influencers := influencers;
    }

    /** `_insert_new_entry`: the entry is saved with crawl status "new". */
    method InsertNewEntry(entry: Doc)
      modifies this
      ensures influencers == Mongo.Save(old(influencers), entry["crawl_status" := JStr(Constants.CrawlStatusValue(Constants.New))])
    {
      influencers := Mongo.Save(influencers, entry["crawl_status" := JStr(Constants.CrawlStatusValue(Constants.New))]);
    }

    /** `_update_existing_entry`: the list entry is saved over the stored one,
        taking its `_id` and crawl status; a stored entry without a crawl
        status raises KeyError before anything is saved. */
    method UpdateExistingEntry(listEntry: Doc, existing: Doc) returns (r: Result<()>)
      modifies this
      ensures "crawl_status" in existing ==>
                r == Ok(()) &&
                influencers == Mongo.Save(old(influencers), listEntry["_id" := Mongo.IdOf(existing)]["crawl_status" := existing["crawl_status"]])
      ensures "crawl_status" !in existing ==> r == Raised("KeyError", "crawl_status") && influencers == old(influencers)
    {
      if "crawl_status" !in existing {
        return Raised("KeyError", "crawl_status");
      }
      influencers := Mongo.Save(influencers, listEntry["_id" := Mongo.IdOf(existing)]["crawl_status" := existing["crawl_status"]]);
      r := Ok(());
    }

    /** `_sync_list`: the entries of one list, in order; `onLists` is the
        accumulator `screen_names_on_lists`. */
    /** One entry of a list: its screen name is recorded, and it is
        inserted as new or merged into the stored entry of that name. */
    method SyncOne(entry: Doc, listName: string, onLists: seq<Json>) returns (onListsAfter: seq<Json>, r: Result<()>)
      modifies this
      ensures Progress(influencers, onListsAfter, r) ==
                SyncEntry(Progress(old(influencers), onLists, Ok(())), Tagged(entry, listName))
    {
      ghost var before := Progress(influencers, onLists, Ok(()));
      if "screen_name" !in entry {
        onListsAfter, r := onLists, Raised("KeyError", "screen_name");
        return;
      }
      onListsAfter := onLists + [entry["screen_name"]];
      var tagged := entry["category" := JStr(listName)];
      assert tagged["screen_name"] == entry["screen_name"];
      var existing := Mongo.FindOne(influencers, Mongo.FieldIs("screen_name", tagged["screen_name"]));
      if existing.None? {
        SyncEntryNew(before, Tagged(entry, listName));
        InsertNewEntry(tagged);
        r := Ok(());
      } else {
        SyncEntryExisting(before, Tagged(entry, listName), existing.value);
        r := UpdateExistingEntry(tagged, existing.value);
      }
    }

    method SyncList(entries: seq<Doc>, listName: string, onLists: seq<Json>) returns (onListsAfter: seq<Json>, r: Result<()>)
      modifies this
      ensures Progress(influencers, onListsAfter, r) ==
                SyncEntries(Progress(old(influencers), onLists, Ok(())), Tag(entries, listName))
    {
      ghost var start := Progress(influencers, onLists, Ok(()));
      ghost var ts := Tag(entries, listName);
      onListsAfter := onLists;
      r := Ok(());
      var i := 0;
      while i < |entries|
        invariant i <= |entries|
        invariant r == Ok(())
        invariant Progress(influencers, onListsAfter, r) == SyncEntries(start, ts[..i])
      {
        assert ts[..i + 1][..i] == ts[..i];
        assert ts[i] == Tagged(entries[i], listName);
        onListsAfter, r := SyncOne(entries[i], listName, onListsAfter);
        if r.Raised? {
          SyncEntriesTail(start, ts, i + 1);
          return;
        }
        i := i + 1;
      }
      assert ts[..i] == ts;
    }

    /** `_add_or_update`: every configured list, fetched with `fetch`. */
    method AddOrUpdate(fetch: string -> Result<seq<Doc>>, onLists: seq<Json>) returns (onListsAfter: seq<Json>, r: Result<()>)
      modifies this
      ensures Progress(influencers, onListsAfter, r) ==
                SyncLists(Progress(old(influencers), onLists, Ok(())), listNames, fetch)
    {
      ghost var start := Progress(influencers, onLists, Ok(()));
      onListsAfter := onLists;
      r := Ok(());
      var i := 0;
      while i < |listNames|
        invariant i <= |listNames|
        invariant r == Ok(())
        invariant Progress(influencers, onListsAfter, r) == SyncLists(start, listNames[..i], fetch)
      {
        SyncListsNext(start, listNames, fetch, i);
        var entries := fetch(listNames[i]);
        if entries.Raised? {
          r := Raised(entries.exception, entries.message);
          SyncListsTail(start, listNames, fetch, i + 1);
          return;
        }
        onListsAfter, r := SyncList(entries.value, listNames[i], onListsAfter);
        if r.Raised? {
          SyncListsTail(start, listNames, fetch, i + 1);
          return;
        }
        i := i + 1;
      }
      assert listNames[..i] == listNames;
    }

    /** `_delete_entries_not_in_list` */
    method DeleteEntriesNotInList(onLists: seq<Json>)
      modifies this
      ensures influencers == Mongo.DeleteOne(old(influencers), NotOnLists(onLists))
    {
      influencers := Mongo.DeleteOne(influencers, NotOnLists(onLists));
    }

    /** `sync_all_lists`: add or update every list entry, then clean up with
        the screen names seen; an exception skips the clean-up. */
    method SyncAllLists(fetch: string -> Result<seq<Doc>>) returns (r: Result<()>)
      requires Mongo.Valid(influencers)
      modifies this
      ensures Mongo.Valid(influencers)
      ensures var synced := SyncLists(Progress(old(influencers), [], Ok(())), listNames, fetch);
              && r == synced.status
              && influencers == if r.Ok? then Mongo.DeleteOne(synced.store, NotOnLists(synced.onLists)) else synced.store
    {
      SyncListsValid(Progress(influencers, [], Ok(())), listNames, fetch);
      var onLists;
      onLists, r := AddOrUpdate(fetch, []);
      if r.Ok? {
        DeleteNotOnLists(influencers, onLists);
        DeleteEntriesNotInList(onLists);
      }
    }
  }

  /** A failure after the first `n` entries is the outcome of the whole list. */
  lemma {:induction false} SyncEntriesTail(p: Progress, ts: seq<Tagged>, n: nat)
    requires n <= |ts| && SyncEntries(p, ts[..n]).status.Raised?
    ensures SyncEntries(p, ts) == SyncEntries(p, ts[..n])
  {
    SyncEntriesStopped(SyncEntries(p, ts[..n]), ts[n..]);
    SyncEntriesAppend(p, ts[..n], ts[n..]);
    assert ts[..n] + ts[n..] == ts;
  }

  /** A failure after the first `n` lists is the outcome of the whole sync. */
  lemma {:induction false} SyncListsTail(p: Progress, listNames: seq<string>, fetch: string -> Result<seq<Doc>>, n: nat)
    requires n <= |listNames| && SyncLists(p, listNames[..n], fetch).status.Raised?
    ensures SyncLists(p, listNames, fetch) == SyncLists(p, listNames[..n], fetch)
    decreases |listNames| - n
  {
    if n < |listNames| {
      assert listNames[..n + 1][..n] == listNames[..n];
      SyncListsTail(p, listNames, fetch, n + 1);
    } else {
      assert listNames[..n] == listNames;
    }
  }
}

/** The shared state of the localization service: per metamodel name a status
    record, an instance slot and a build lock, plus the localization ledger of
    pending, complete and failed entries. Each method is one atomic step; a
    lock is a held/free flag. */
module ApiContext {
  import opened Common
  import Metamodel
  import Classifier

  // ------------------------------------------------------------ the catalog

  /** The directory entries that are never metamodels. */
  predicate Excluded(file: string)
  {
    file == "__init__.py" || file == "__pycache__"
  }

  /** `file.split(".")[0]`: the file name up to its first dot. */
  function Stem(file: string): (stem: string)
    ensures '.' !in stem
    ensures StartsWith(file, stem)
    ensures '.' !in file ==> stem == file
    ensures '.' in file ==> |stem| < |file| && file[|stem|] == '.'
  {
    SplitPartsAvoidSeparator(file, '.');
    var stem := Split(file, '.')[0];
    if '.' in file then
      var i := FirstDot(file);
      SplitFirstPart(file, '.', i);
      stem
    else
      SplitWithoutSeparator(file, '.');
      stem
  }

  function FirstDot(s: string): (i: nat)
    requires '.' in s
    ensures i < |s| && s[i] == '.' && '.' !in s[..i]
  {
    if s[0] == '.' then 0
    else
      var i := FirstDot(s[1..]);
      assert s[..i + 1] == [s[0]] + s[1..][..i];
      i + 1
  }

  /** `list_meta_models`: the stems of the metamodels directory's entries, in
      listing order, leaving out `__init__.py` and `__pycache__`. */
  function ListMetaModels(files: seq<string>): (names: seq<string>)
    ensures |names| <= |files|
    ensures forall n :: n in names ==> exists f :: f in files && !Excluded(f) && Stem(f) == n
    ensures forall f :: f in files && !Excluded(f) ==> Stem(f) in names
  {
    if |files| == 0 then []
    else if Excluded(files[0]) then ListMetaModels(files[1..])
    else [Stem(files[0])] + ListMetaModels(files[1..])
  }

  // ------------------------------------------------------------ status records

  datatype Status = Offline | Building | Online | Error

  /** The record `/metamodels` reports for one name. */
  datatype StatusRecord = StatusRecord(metamodel: string, status: Status, error: Option<string>)

  // ------------------------------------------------------------ the ledger

  /** A `{screenName, metamodelName}` record waiting for its worker. */
  datatype PendingEntry = PendingEntry(screenName: Json, metamodelName: string)

  /** `isSwiss` of a resolved entry: Python `False` in failed entries, the
      text "true" or "false" in complete ones. */
  datatype SwissFlag = PyFalse | Text(text: string)

  datatype Resolved = Resolved(screenName: Json, metamodelName: string, isSwiss: SwissFlag, confidence: real, index: nat)

  /** The `_localizations` dict, and also the snapshot `localizations_update` returns. */
  datatype Ledger = Ledger(complete: seq<Resolved>, pending: seq<PendingEntry>, failed: seq<Resolved>)

  /** How `add_complete_localization` left the ledger, and whether it raised. */
  datatype Resolution = Resolution(ledger: Ledger, outcome: Result<()>)

  function Size(l: Ledger): nat
  {
    |l.complete| + |l.pending| + |l.failed|
  }

  /** Every entry's index is its position in its list. */
  predicate Dense(entries: seq<Resolved>)
  {
    forall i :: 0 <= i < |entries| ==> entries[i].index == i
  }

  /** What resolutions leave in the ledger: dense indices, and the flags
      `add_complete_localization` writes in each list. */
  predicate LedgerValid(l: Ledger)
  {
    && Dense(l.complete) && Dense(l.failed)
    && (forall i :: 0 <= i < |l.complete| ==> l.complete[i].isSwiss in {Text("true"), Text("false")})
    && (forall i :: 0 <= i < |l.failed| ==> l.failed[i].isSwiss == PyFalse && l.failed[i].confidence == 0.0)
  }

  /** The entry `add_complete_localization` records for `p`, given the
      metamodel's `classify` result and the length of the target list. */
  function ResolvedEntry(p: PendingEntry, loc: Metamodel.Localization, index: nat): (e: Resolved)
    ensures e.screenName == p.screenName && e.metamodelName == p.metamodelName && e.index == index
    ensures loc.NotFound? <==> e.isSwiss == PyFalse
    ensures loc.NotFound? ==> e.confidence == 0.0
    ensures loc.Classified? ==> e.confidence == loc.prediction.confidence
    ensures loc.Classified? ==> (e.isSwiss == Text("true") <==> loc.prediction.predictedClass == 1)
    ensures loc.Classified? ==> (e.isSwiss == Text("false") <==> loc.prediction.predictedClass != 1)
  {
    match loc
    case NotFound => Resolved(p.screenName, p.metamodelName, PyFalse, 0.0, index)
    case Classified(pred) =>
      Resolved(p.screenName, p.metamodelName, Text(if pred.predictedClass == 1 then "true" else "false"),
               pred.confidence, index)
  }

  /** `lst.index(x)`: position of the first element equal to `x`. */
  function IndexOf<T(==)>(s: seq<T>, x: T): (i: nat)
    requires x in s
    ensures i < |s| && s[i] == x && x !in s[..i]
  {
    if s[0] == x then 0
    else
      var i := IndexOf(s[1..], x);
      assert s[..i + 1] == [s[0]] + s[1..][..i];
      i + 1
  }

  /** `del lst[lst.index(x)]`: drop the first element equal to `x`, keeping
      the order of the rest. */
  function RemoveFirst<T(==)>(s: seq<T>, x: T): (r: seq<T>)
    requires x in s
    ensures |r| == |s| - 1
    ensures multiset(r) == multiset(s) - multiset{x}
    ensures forall k :: 0 <= k < IndexOf(s, x) ==> r[k] == s[k]
    ensures forall k :: IndexOf(s, x) <= k < |r| ==> r[k] == s[k + 1]
  {
    var i := IndexOf(s, x);
    RemoveAtMultiset(s, i);
    s[..i] + s[i + 1..]
  }

  /** Dropping position `i` removes one occurrence of `s[i]`. */
  lemma RemoveAtMultiset<T>(s: seq<T>, i: nat)
    requires i < |s|
    ensures multiset(s[..i] + s[i + 1..]) == multiset(s) - multiset{s[i]}
  {
    assert s == s[..i] + [s[i]] + s[i + 1..];
  }

  /** `add_complete_localization`: the resolved entry is appended to failed
      (user not found) or complete, with index = that list's former length;
      then the first pending record equal to `p` is deleted. With no such
      record the deletion raises ValueError after the append. */
  function Resolve(l: Ledger, p: PendingEntry, loc: Metamodel.Localization): (res: Resolution)
    ensures res.outcome.Ok? <==> p in l.pending
    ensures res.outcome.Raised? ==> res.outcome.exception == "ValueError" && res.ledger.pending == l.pending
    ensures p in l.pending ==> res.ledger.pending == RemoveFirst(l.pending, p)
    ensures loc.NotFound? ==> res.ledger.complete == l.complete
    ensures loc.NotFound? ==> res.ledger.failed == l.failed + [ResolvedEntry(p, loc, |l.failed|)]
    ensures loc.Classified? ==> res.ledger.failed == l.failed
    ensures loc.Classified? ==> res.ledger.complete == l.complete + [ResolvedEntry(p, loc, |l.complete|)]
    ensures Size(res.ledger) == Size(l) + (if res.outcome.Ok? then 0 else 1)
  {
    var filed :=
      if loc.NotFound? then l.(failed := l.failed + [ResolvedEntry(p, loc, |l.failed|)])
      else l.(complete := l.complete + [ResolvedEntry(p, loc, |l.complete|)]);
    if p in l.pending then Resolution(filed.(pending := RemoveFirst(l.pending, p)), Ok(()))
    else Resolution(filed, Raised("ValueError", "is not in list"))
  }

  /** Resolutions keep the ledger's indices dense and its flags right. */
  lemma ResolveKeepsLedgerValid(l: Ledger, p: PendingEntry, loc: Metamodel.Localization)
    requires LedgerValid(l)
    ensures LedgerValid(Resolve(l, p, loc).ledger)
  {
    var r := Resolve(l, p, loc).ledger;
    if loc.NotFound? {
      assert forall i :: 0 <= i < |l.failed| ==> r.failed[i] == l.failed[i];
    } else {
      assert forall i :: 0 <= i < |l.complete| ==> r.complete[i] == l.complete[i];
    }
  }

  /** Python's `lst[k:]`, negative `k` counting from the end. */
  function SliceFrom<T>(s: seq<T>, k: int): (r: seq<T>)
    ensures |r| <= |s| && r == s[|s| - |r|..]
    ensures k >= 0 ==> |r| == (if k <= |s| then |s| - k else 0)
    ensures k < 0 ==> |r| == (if -k <= |s| then -k else |s|)
  {
    if k >= 0 then (if k <= |s| then s[k..] else [])
    else if -k <= |s| then s[|s| + k..]
    else s
  }

  /** `complete[after_index:]` on a dense list is exactly the entries whose
      index is at least `after_index`, in index order. */
  lemma SnapshotFromIndex(complete: seq<Resolved>, afterIndex: nat)
    requires Dense(complete)
    ensures forall e :: e in SliceFrom(complete, afterIndex) <==> e in complete && e.index >= afterIndex
    ensures forall j :: 0 <= j < |SliceFrom(complete, afterIndex)| ==> SliceFrom(complete, afterIndex)[j].index == afterIndex + j
  {
    var r := SliceFrom(complete, afterIndex);
    forall e | e in complete && e.index >= afterIndex ensures e in r {
      var i :| 0 <= i < |complete| && complete[i] == e;
      assert r[i - afterIndex] == e;
    }
  }

  // ------------------------------------------------------------ the context

  class ApiContext {
    /** The entries of the metamodels directory, fixed for the context's lifetime. */
    const files: seq<string>
    /** `list_meta_models()` of that directory. */
    const catalog: seq<string>
    var statuses: map<string, StatusRecord>
    var instances: map<string, Metamodel.Metamodel?>
    /** `metamodel_locks`: true while the name's build lock is held. */
    var locks: map<string, bool>
    var workerLockHeld: bool
    var localizations: Ledger


    /** The state every step keeps between steps: one record, slot and lock
        per catalog name; a record names its own model and carries an error
        message exactly when in error; a model is building only under its
        lock; an online model has an instance; an installed instance has been
        built; the worker lock is free; the ledger is valid. */
    ghost predicate Valid()
      reads this, instances.Values
    {
      && (forall n :: n in statuses <==> n in catalog)
      && (forall n :: n in instances ==> n in statuses)
      && (forall n :: n in locks ==> n in statuses)
      && (forall n :: n in statuses ==>
            && n in instances && n in locks
            && statuses[n].metamodel == n
            && (statuses[n].status == Error <==> statuses[n].error.Some?)
            && (statuses[n].status == Building ==> locks[n])
            && (statuses[n].status == Online ==> instances[n] != null)
            && (instances[n] != null ==> instances[n].isReady))
      && !workerLockHeld
      && LedgerValid(localizations)
    }

    /** `ApiContext.__init__`: every catalog name starts offline, without an
        error, without an instance and with a free lock; the ledger is empty. */
    constructor (directory: seq<string>)
      ensures files == directory && catalog == ListMetaModels(directory)
      ensures Valid()
      ensures forall n :: n in catalog ==> statuses[n] == StatusRecord(n, Offline, None)
      ensures forall n :: n in catalog ==> instances[n] == null && !locks[n]
      ensures localizations == Ledger([], [], [])
    {
      files := directory;
      catalog := ListMetaModels(directory);
      var names := ListMetaModels(directory);
      var st: map<string, StatusRecord> := map[];
      var inst: map<string, Metamodel.Metamodel?> := map[];
      var lk: map<string, bool> := map[];
      var i := 0;
      while i < |names|
        invariant 0 <= i <= |names|
        invariant st.Keys == (set n | n in names[..i])
        invariant inst.Keys == st.Keys && lk.Keys == st.Keys
        invariant forall n :: n in st ==> st[n] == StatusRecord(n, Offline, None)
        invariant forall n :: n in inst ==> inst[n] == null
        invariant forall n :: n in lk ==> !lk[n]
      {
        assert names[..i + 1] == names[..i] + [names[i]];
        inst := inst[names[i] := null];
        lk := lk[names[i] := false];
        st := st[names[i] := StatusRecord(names[i], Offline, None)];
        i := i + 1;
      }
      assert names[..i] == names;
      statuses := st;
      instances := inst;
      locks := lk;
      workerLockHeld := false;
      localizations := Ledger([], [], []);
    }

    /** `set_metamodel_status`: replaces that name's whole record, nothing else. */
    method SetMetamodelStatus(name: string, status: Status, error: Option<string>)
      modifies this`statuses
      ensures statuses == old(statuses)[name := StatusRecord(name, status, error)]
    {
      statuses := statuses[name := StatusRecord(name, status, error)];
    }

    /** `set_metamodel`: replaces that name's instance slot, nothing else. */
    method SetMetamodel(name: string, instance: Metamodel.Metamodel?)
      modifies this`instances
      ensures instances == old(instances)[name := instance]
    {
      instances := instances[name := instance];
    }

    /** `metamodel_locks[name].release()`. */
    method ReleaseBuildLock(name: string)
      modifies this`locks
      ensures locks == old(locks)[name := false]
    {
      locks := locks[name := false];
    }

    /** `add_pending_localization`: appends one record to pending and returns
        it; complete and failed are untouched. */
    method AddPendingLocalization(screenName: Json, metamodelName: string) returns (entry: PendingEntry)
      modifies this`localizations
      ensures entry == PendingEntry(screenName, metamodelName)
      ensures localizations == old(localizations).(pending := old(localizations).pending + [entry])
    {
      entry := PendingEntry(screenName, metamodelName);
      localizations := localizations.(pending := localizations.pending + [entry]);
    }

    /** `add_complete_localization`, step by step as the source does it. */
    method AddCompleteLocalization(p: PendingEntry, loc: Metamodel.Localization) returns (r: Result<()>)
      modifies this`localizations
      ensures Resolution(localizations, r) == Resolve(old(localizations), p, loc)
    {
      if loc.NotFound? {
        localizations := localizations.(failed := localizations.failed + [ResolvedEntry(p, loc, |localizations.failed|)]);
      } else {
        localizations := localizations.(complete := localizations.complete + [ResolvedEntry(p, loc, |localizations.complete|)]);
      }
      if p !in localizations.pending {
        return Raised("ValueError", "is not in list");
      }
      var i := IndexOf(localizations.pending, p);
      localizations := localizations.(pending := localizations.pending[..i] + localizations.pending[i + 1..]);
      r := Ok(());
    }

    /** `localizations_update(after_index)`: pending and failed in full and
        `complete[after_index:]`, which for a non-negative index is exactly
        the complete entries whose index is at least `after_index`. */
    method LocalizationsUpdate(afterIndex: int) returns (snap: Ledger)
      ensures snap.pending == localizations.pending && snap.failed == localizations.failed
      ensures snap.complete == SliceFrom(localizations.complete, afterIndex)
      ensures afterIndex >= 0 && Dense(localizations.complete) ==>
        forall e :: e in snap.complete <==> e in localizations.complete && e.index >= afterIndex
    {
      snap := Ledger([], [], []);
      snap := snap.(pending := localizations.pending);
      snap := snap.(complete := SliceFrom(localizations.complete, afterIndex));
      snap := snap.(failed := localizations.failed);
      if afterIndex >= 0 && Dense(localizations.complete) {
        SnapshotFromIndex(localizations.complete, afterIndex);
      }
    }
  }
}

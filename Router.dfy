/** The request handlers `/buildmetamodel` and `/localize` and the two worker
    bodies they start: `ModelBuilder.run`, which drives a metamodel's status
    and installs the built instance, and `LocalizationWorker`, which moves a
    ledger entry from pending to complete or failed. A started thread is
    returned to the caller, who runs its body later as one atomic step. */
module Router {
  import opened Common
  import ApiContext
  import Metamodel
  import Classifier

  /** What a handler answers. `Failure` is an uncaught exception (Flask then answers 500). */
  datatype Reply =
    | Text(status: int, body: string)
    | NoContent
    | Snapshot(ledger: ApiContext.Ledger)
    | Failure(exception: string)

  // ------------------------------------------------------------ instantiation

  /** The metamodel classes `_instantiate_metamodel` can construct. */
  datatype Kind =
    | FeatureCombination4
    | SimpleHashtagSimilarity
    | SimpleInfluencerFollowedRatio
    | SimpleSwissFriendRatio
    | SimpleSwissNamedPlacesCount
    | SimpleSwissTweetInteraction
    | SimpleTweetInteractionBehavior

  /** The requested name that selects each class. */
  function RequestName(k: Kind): string
  {
    match k
    case FeatureCombination4 => "FeatureCombination1"
    case SimpleHashtagSimilarity => "SimpleHashtagSimilarity"
    case SimpleInfluencerFollowedRatio => "SimpleInfluencerFollowedRatio"
    case SimpleSwissFriendRatio => "SimpleSwissFriendRatio"
    case SimpleSwissNamedPlacesCount => "SimpleSwissNamedPlacesCount"
    case SimpleSwissTweetInteraction => "SimpleSwissTweetInteraction"
    case SimpleTweetInteractionBehavior => "SimpleTweetInteractionBehavior"
  }

  /** The model name each class passes to `Metamodel.__init__` (for the two
      classes whose source is not part of this model, the class name). */
  function DisplayName(k: Kind): string
  {
    match k
    case FeatureCombination4 => "Feature Combination 1"
    case SimpleHashtagSimilarity => "Simple Hashtag Similarity"
    case SimpleInfluencerFollowedRatio => "Simple Influencer Followed Ratio"
    case SimpleSwissFriendRatio => "Simple Swiss Friend Ratio"
    case SimpleSwissNamedPlacesCount => "SimpleSwissNamedPlacesCount"
    case SimpleSwissTweetInteraction => "SimpleSwissTweetInteraction"
    case SimpleTweetInteractionBehavior => "Simple Tweet Interaction Behavior"
  }

  /** `_instantiate_metamodel`: a class only for its seven literal names. */
  function InstantiateMetamodel(name: string): (k: Option<Kind>)
    ensures k.Some? ==> RequestName(k.value) == name
    ensures k.None? ==> forall kind: Kind :: RequestName(kind) != name
  {
    if name == "FeatureCombination1" then Some(FeatureCombination4)
    else if name == "SimpleHashtagSimilarity" then Some(SimpleHashtagSimilarity)
    else if name == "SimpleInfluencerFollowedRatio" then Some(SimpleInfluencerFollowedRatio)
    else if name == "SimpleSwissFriendRatio" then Some(SimpleSwissFriendRatio)
    else if name == "SimpleSwissNamedPlacesCount" then Some(SimpleSwissNamedPlacesCount)
    else if name == "SimpleSwissTweetInteraction" then Some(SimpleSwissTweetInteraction)
    else if name == "SimpleTweetInteractionBehavior" then Some(SimpleTweetInteractionBehavior)
    else None
  }

  /** Each class is selected by exactly its request name. */
  lemma InstantiateRequestName(k: Kind)
    ensures InstantiateMetamodel(RequestName(k)) == Some(k)
  {
  }

  /** A metamodel file `<base>.py` is listed under `base`. */
  lemma StemOfPythonFile(base: string)
    requires '.' !in base
    ensures ApiContext.Stem(base + ".py") == base
  {
    var f := base + ".py";
    assert f[..|base|] == base;
    SplitFirstPart(f, '.', |base|);
  }

  /** The class FeatureCombination4 answers to "FeatureCombination1", so the
      catalog entry its file produces (`StemOfPythonFile`) is never
      instantiated, and a build of it always ends in error. */
  lemma FeatureCombination4StemNotInstantiated()
    ensures InstantiateMetamodel("FeatureCombination4").None?
  {
    assert "FeatureCombination4"[18] != "FeatureCombination1"[18];
  }

  // ------------------------------------------------------------ request checks

  /** The outcome of `/buildmetamodel`'s checks before the lock. */
  datatype BuildCheck = RefuseBuild(reply: Reply) | AcceptBuild(name: string)

  /** `buildmetamodel` lines 50-55: a missing body fails the membership test
      with TypeError; a missing "metamodel" key is a 400; a name outside the
      catalog is a 404 (a name that is not a string fails building that
      message with TypeError). */
  function CheckBuildRequest(body: Option<Doc>, catalog: seq<string>): (c: BuildCheck)
    ensures body.None? ==> c == RefuseBuild(Failure("TypeError"))
    ensures body.Some? && "metamodel" !in body.value ==> c == RefuseBuild(Text(400, "No 'metamodel' specified"))
    ensures c.AcceptBuild? <==> body.Some? && Get(body.value, "metamodel").JStr? && Get(body.value, "metamodel").s in catalog
    ensures c.AcceptBuild? ==> Get(body.value, "metamodel") == JStr(c.name)
    ensures body.Some? && "metamodel" in body.value && body.value["metamodel"].JStr? && body.value["metamodel"].s !in catalog
      ==> c == RefuseBuild(Text(404, "No metamodel '" + body.value["metamodel"].s + "'"))
    ensures body.Some? && "metamodel" in body.value && !body.value["metamodel"].JStr? ==> c == RefuseBuild(Failure("TypeError"))
  {
    match body
    case None => RefuseBuild(Failure("TypeError"))
    case Some(d) =>
      if "metamodel" !in d then RefuseBuild(Text(400, "No 'metamodel' specified"))
      else match d["metamodel"]
        case JStr(name) =>
          if name !in catalog then RefuseBuild(Text(404, "No metamodel '" + name + "'"))
          else AcceptBuild(name)
        case _ => RefuseBuild(Failure("TypeError"))
  }

  /** The outcome of `/localize`'s checks. */
  datatype LocalizeCheck = RefuseLocalize(reply: Reply) | AcceptLocalize(screenName: Json, name: string)

  /** `localize` lines 64-76. A missing "screenName" or "metamodel" is
      answered with a message and the default status 200; an unknown or
      not-online model is a 404. A metamodel value that is not a string
      raises TypeError (from hashing or from building the message). */
  function CheckLocalizeRequest(body: Option<Doc>, statuses: map<string, ApiContext.StatusRecord>, catalog: seq<string>)
    : (c: LocalizeCheck)
    ensures body.None? ==> c == RefuseLocalize(Failure("TypeError"))
    ensures body.Some? && "screenName" !in body.value ==> c == RefuseLocalize(Text(200, "No 'screenName' specified"))
    ensures body.Some? && "screenName" in body.value && "metamodel" !in body.value
      ==> c == RefuseLocalize(Text(200, "No 'metamodel' specified"))
    ensures c.AcceptLocalize? <==>
      && body.Some? && "screenName" in body.value && Get(body.value, "metamodel").JStr?
      && var name := Get(body.value, "metamodel").s;
         name in statuses && statuses[name].status == ApiContext.Online && name in catalog
    ensures c.AcceptLocalize? ==> c.screenName == body.value["screenName"] && body.value["metamodel"] == JStr(c.name)
    ensures c.RefuseLocalize? && c.reply.Text? ==> c.reply.status == 200 || c.reply.status == 404
  {
    match body
    case None => RefuseLocalize(Failure("TypeError"))
    case Some(d) =>
      if "screenName" !in d then RefuseLocalize(Text(200, "No 'screenName' specified"))
      else if "metamodel" !in d then RefuseLocalize(Text(200, "No 'metamodel' specified"))
      else match d["metamodel"]
        case JStr(name) =>
          if name !in statuses then RefuseLocalize(Text(404, "No metamodel '" + name + "'"))
          else if statuses[name].status != ApiContext.Online then RefuseLocalize(Text(404, "Metamodel '" + name + "' is offline"))
          else if name !in catalog then RefuseLocalize(Text(404, "No metamodel '" + name + "'"))
          else AcceptLocalize(d["screenName"], name)
        case _ => RefuseLocalize(Failure("TypeError"))
  }

  // ------------------------------------------------------------ the workers

  /** Lines 141 and 151 for a name that has a class: construct the metamodel
      (its constructor passes the class's display name and reads the clock
      as `millis`) and call its `build()`. */
  method Construct(kind: Kind, millis: nat, outcome: Metamodel.BuildOutcome)
    returns (m: Metamodel.Metamodel, built: Result<seq<Metamodel.TrainingScore>>)
    ensures fresh(m) && m.modelName == DisplayName(kind) && m.modelId == Metamodel.ModelId(DisplayName(kind))
    ensures outcome.Built? ==> m.isReady && m.trainingScores == outcome.scores && built == Ok(outcome.scores)
    ensures outcome.BuildFailed? ==> !m.isReady && built == Raised(outcome.exception, outcome.message)
  {
    m := new Metamodel.Metamodel(DisplayName(kind), millis);
    built := m.Build(outcome);
  }

  /** Whether `ModelBuilder.run` reaches a successful build, given the class
      `kind` found for the name. */
  predicate Installs(kind: Option<Kind>, constructed: Result<()>, outcome: Metamodel.BuildOutcome)
  {
    kind.Some? && constructed.Ok? && outcome.Built?
  }

  /** Whether the constructor's exception escapes `ModelBuilder.run`. */
  predicate Escapes(kind: Option<Kind>, constructed: Result<()>)
  {
    kind.Some? && constructed.Raised?
  }

  /** The status record `ModelBuilder.run` leaves for `name` (whose class is
      `kind`): "error" when there is no class or the build raised, "building"
      when the constructor raised, "online" after a successful build. */
  function BuildStatus(name: string, kind: Option<Kind>, constructed: Result<()>, outcome: Metamodel.BuildOutcome)
    : (s: ApiContext.StatusRecord)
    ensures s.metamodel == name
    ensures s.status == ApiContext.Online <==> Installs(kind, constructed, outcome)
    ensures s.status == ApiContext.Building <==> Escapes(kind, constructed)
    ensures s.status == ApiContext.Error <==> kind.None? || (constructed.Ok? && outcome.BuildFailed?)
    ensures s.error.Some? <==> s.status == ApiContext.Error
    ensures kind.None? ==> s.error == Some("Metamodel '" + name + "' not instantiated.")
    ensures kind.Some? && constructed.Ok? && outcome.BuildFailed? ==> s.error == Some(outcome.message)
  {
    if kind.None? then
      ApiContext.StatusRecord(name, ApiContext.Error, Some("Metamodel '" + name + "' not instantiated."))
    else if constructed.Raised? then
      ApiContext.StatusRecord(name, ApiContext.Building, None)
    else if outcome.BuildFailed? then
      ApiContext.StatusRecord(name, ApiContext.Error, Some(outcome.message))
    else
      ApiContext.StatusRecord(name, ApiContext.Online, None)
  }

  class ModelBuilder {
    const metamodelName: string
    var metamodel: Metamodel.Metamodel?

    constructor (name: string)
      ensures metamodelName == name && metamodel == null
    {
      metamodelName := name;
      metamodel := null;
    }

    /** `ModelBuilder.run`, started under the name's build lock. `constructed`
        is how the metamodel's constructor ended, `millis` the clock reading
        it takes, `outcome` how its `_build` ends. The status goes to
        "building"; then: no class for the name gives "error" with
        "Metamodel '<name>' not instantiated."; a raising constructor escapes
        and leaves "building" with the lock held; a raising build gives
        "error" with the exception's text and keeps the previous instance; a
        successful build installs the new instance, then "online". The lock
        is released on every exit but the escaping one, and nothing about
        other names or the ledger changes. */
    method Run(ctx: ApiContext.ApiContext, constructed: Result<()>, millis: nat, outcome: Metamodel.BuildOutcome)
      returns (r: Result<()>)
      requires ctx.Valid()
      requires metamodelName in ctx.locks && ctx.locks[metamodelName]
      modifies this, ctx`statuses, ctx`instances, ctx`locks
      ensures ctx.Valid()
      ensures ctx.localizations == old(ctx.localizations)
      ensures ctx.statuses == old(ctx.statuses)[metamodelName := BuildStatus(metamodelName, InstantiateMetamodel(metamodelName), constructed, outcome)]
      ensures ctx.locks == old(ctx.locks)[metamodelName := Escapes(InstantiateMetamodel(metamodelName), constructed)]
      ensures r == (if Escapes(InstantiateMetamodel(metamodelName), constructed) then constructed else Ok(()))
      ensures !Installs(InstantiateMetamodel(metamodelName), constructed, outcome) ==> ctx.instances == old(ctx.instances)
      ensures Installs(InstantiateMetamodel(metamodelName), constructed, outcome) ==>
        && metamodel != null && fresh(metamodel) && metamodel.isReady
        && metamodel.modelName == DisplayName(InstantiateMetamodel(metamodelName).value)
        && metamodel.trainingScores == outcome.scores
        && ctx.instances == old(ctx.instances)[metamodelName := metamodel]
    {
      var kind := InstantiateMetamodel(metamodelName);
      if kind.None? {
        metamodel := null;
        Fail(ctx, "Metamodel '" + metamodelName + "' not instantiated.");
        r := Ok(());
      } else {
        r := RunClass(ctx, kind.value, constructed, millis, outcome);
      }
    }

    /** Lines 140-159 for a name whose class is `kind`: a raising constructor
        escapes with the status "building" and the lock still held; otherwise
        `BuildInstance`. */
    method RunClass(ctx: ApiContext.ApiContext, kind: Kind, constructed: Result<()>, millis: nat, outcome: Metamodel.BuildOutcome)
      returns (r: Result<()>)
      requires ctx.Valid()
      requires metamodelName in ctx.locks && ctx.locks[metamodelName]
      modifies this, ctx`statuses, ctx`instances, ctx`locks
      ensures ctx.Valid()
      ensures ctx.localizations == old(ctx.localizations)
      ensures ctx.statuses == old(ctx.statuses)[metamodelName := BuildStatus(metamodelName, Some(kind), constructed, outcome)]
      ensures ctx.locks == old(ctx.locks)[metamodelName := constructed.Raised?]
      ensures r == (if constructed.Raised? then constructed else Ok(()))
      ensures !(constructed.Ok? && outcome.Built?) ==> ctx.instances == old(ctx.instances)
      ensures constructed.Ok? && outcome.Built? ==>
        && metamodel != null && fresh(metamodel) && metamodel.isReady
        && metamodel.modelName == DisplayName(kind)
        && metamodel.trainingScores == outcome.scores
        && ctx.instances == old(ctx.instances)[metamodelName := metamodel]
    {
      if constructed.Raised? {
        MarkBuilding(ctx);
        MapUpdateSame(old(ctx.locks), metamodelName);
        r := constructed;
      } else {
        metamodel := BuildInstance(ctx, kind, millis, outcome);
        r := Ok(());
      }
    }

    /** Lines 140-159 for a name whose class is `kind` and whose constructor
        returns: the new instance is built; a raising build leaves "error"
        with its message and the previous instance, a successful one installs
        the new instance and leaves "online"; the lock is released. */
    method BuildInstance(ctx: ApiContext.ApiContext, kind: Kind, millis: nat, outcome: Metamodel.BuildOutcome)
      returns (m: Metamodel.Metamodel)
      requires ctx.Valid() && metamodelName in ctx.locks && ctx.locks[metamodelName]
      modifies ctx`statuses, ctx`instances, ctx`locks
      ensures ctx.Valid()
      ensures ctx.localizations == old(ctx.localizations)
      ensures ctx.locks == old(ctx.locks)[metamodelName := false]
      ensures fresh(m) && m.modelName == DisplayName(kind)
      ensures outcome.BuildFailed? ==>
        && ctx.statuses == old(ctx.statuses)[metamodelName := ApiContext.StatusRecord(metamodelName, ApiContext.Error, Some(outcome.message))]
        && ctx.instances == old(ctx.instances)
      ensures outcome.Built? ==>
        && ctx.statuses == old(ctx.statuses)[metamodelName := ApiContext.StatusRecord(metamodelName, ApiContext.Online, None)]
        && m.isReady && m.trainingScores == outcome.scores
        && ctx.instances == old(ctx.instances)[metamodelName := m]
    {
      var built;
      m, built := Construct(kind, millis, outcome);
      if built.Raised? {
        Fail(ctx, built.message);
      } else {
        Succeed(ctx, m);
      }
    }

    /** Lines 140 and 152-159 after a successful build of `m`: status
        "building", then `m` is installed, "online", and the lock released. */
    method Succeed(ctx: ApiContext.ApiContext, m: Metamodel.Metamodel)
      requires ctx.Valid() && metamodelName in ctx.locks && ctx.locks[metamodelName] && m.isReady
      modifies ctx`statuses, ctx`instances, ctx`locks
      ensures ctx.Valid()
      ensures ctx.localizations == old(ctx.localizations)
      ensures ctx.locks == old(ctx.locks)[metamodelName := false]
      ensures ctx.statuses == old(ctx.statuses)[metamodelName := ApiContext.StatusRecord(metamodelName, ApiContext.Online, None)]
      ensures ctx.instances == old(ctx.instances)[metamodelName := m]
    {
      ghost var statuses0 := ctx.statuses;
      MarkBuilding(ctx);
      ghost var building := ctx.statuses[metamodelName];
      Install(ctx, m);
      MapUpdateTwice(statuses0, metamodelName, building, ctx.statuses[metamodelName]);
    }

    /** Lines 140 and 143-147, a name with no class: status "building", then
        "error" with `message`, then the lock is released. */
    method Fail(ctx: ApiContext.ApiContext, message: string)
      requires ctx.Valid() && metamodelName in ctx.locks && ctx.locks[metamodelName]
      modifies ctx`statuses, ctx`locks
      ensures ctx.Valid()
      ensures ctx.statuses == old(ctx.statuses)[metamodelName := ApiContext.StatusRecord(metamodelName, ApiContext.Error, Some(message))]
      ensures ctx.locks == old(ctx.locks)[metamodelName := false]
    {
      ghost var statuses0 := ctx.statuses;
      MarkBuilding(ctx);
      ghost var building := ctx.statuses[metamodelName];
      ReportError(ctx, message);
      MapUpdateTwice(statuses0, metamodelName, building, ctx.statuses[metamodelName]);
    }

    /** Line 140: the status becomes "building" (the lock is held). */
    method MarkBuilding(ctx: ApiContext.ApiContext)
      requires ctx.Valid() && metamodelName in ctx.locks && ctx.locks[metamodelName]
      modifies ctx`statuses
      ensures ctx.Valid()
      ensures ctx.statuses == old(ctx.statuses)[metamodelName := ApiContext.StatusRecord(metamodelName, ApiContext.Building, None)]
    {
      ctx.SetMetamodelStatus(metamodelName, ApiContext.Building, None);
    }

    /** Lines 144-147 and 154-155: status "error" with `message`, then the lock is released. */
    method ReportError(ctx: ApiContext.ApiContext, message: string)
      requires ctx.Valid() && metamodelName in ctx.locks
      modifies ctx`statuses, ctx`locks
      ensures ctx.Valid()
      ensures ctx.statuses == old(ctx.statuses)[metamodelName := ApiContext.StatusRecord(metamodelName, ApiContext.Error, Some(message))]
      ensures ctx.locks == old(ctx.locks)[metamodelName := false]
    {
      ctx.SetMetamodelStatus(metamodelName, ApiContext.Error, Some(message));
      ctx.ReleaseBuildLock(metamodelName);
    }

    /** Lines 152, 158-159: the built instance is installed, then the status
        becomes "online", then the lock is released. */
    method Install(ctx: ApiContext.ApiContext, m: Metamodel.Metamodel)
      requires ctx.Valid() && metamodelName in ctx.locks && m.isReady
      modifies ctx`statuses, ctx`locks, ctx`instances
      ensures ctx.Valid()
      ensures ctx.instances == old(ctx.instances)[metamodelName := m]
      ensures ctx.statuses == old(ctx.statuses)[metamodelName := ApiContext.StatusRecord(metamodelName, ApiContext.Online, None)]
      ensures ctx.locks == old(ctx.locks)[metamodelName := false]
    {
      ctx.SetMetamodel(metamodelName, m);
      assert forall n :: n in ctx.instances && ctx.instances[n] != null ==> ctx.instances[n].isReady;
      ctx.SetMetamodelStatus(metamodelName, ApiContext.Online, None);
      ctx.ReleaseBuildLock(metamodelName);
    }
  }

  class LocalizationWorker {
    const screenName: Json
    const metamodelName: string
    const pendingEntry: ApiContext.PendingEntry

    /** `LocalizationWorker.__init__`: the pending record is added at once,
        before the thread runs. */
    constructor (ctx: ApiContext.ApiContext, screen: Json, name: string)
      modifies ctx`localizations
      ensures screenName == screen && metamodelName == name
      ensures pendingEntry == ApiContext.PendingEntry(screen, name)
      ensures ctx.localizations == old(ctx.localizations).(pending := old(ctx.localizations).pending + [pendingEntry])
    {
      screenName := screen;
      metamodelName := name;
      var entry := ctx.AddPendingLocalization(screen, name);
      pendingEntry := entry;
    }

    /** `LocalizationWorker.run` under the worker lock, which is free again on
        every exit. The installed instance's `classify` is asked (its user
        lookup and `_classify` ending as `fetched` and `classified`); an
        exception there escapes before resolution, so the pending record stays;
        otherwise the ledger is resolved as `add_complete_localization` does. */
    method Run(ctx: ApiContext.ApiContext, fetched: Result<bool>, classified: Result<Classifier.Prediction>)
      returns (r: Result<()>)
      requires ctx.Valid()
      modifies ctx`workerLockHeld, ctx`localizations
      ensures ctx.Valid()
      ensures metamodelName !in ctx.instances ==> r == Raised("KeyError", metamodelName) && ctx.localizations == old(ctx.localizations)
      ensures metamodelName in ctx.instances && ctx.instances[metamodelName] == null ==>
        r.Raised? && r.exception == "AttributeError" && ctx.localizations == old(ctx.localizations)
      ensures metamodelName in ctx.instances && ctx.instances[metamodelName] != null ==>
        var outcome := Metamodel.ReadyOutcome(fetched, classified);
        && (outcome.Raised? ==> r == Raised(outcome.exception, outcome.message) && ctx.localizations == old(ctx.localizations))
        && (outcome.Ok? ==> ApiContext.Resolution(ctx.localizations, r) == ApiContext.Resolve(old(ctx.localizations), pendingEntry, outcome.value))
    {
      ctx.workerLockHeld := true;
      if metamodelName !in ctx.instances {
        ctx.workerLockHeld := false;
        return Raised("KeyError", metamodelName);
      }
      var instance := ctx.instances[metamodelName];
      if instance == null {
        ctx.workerLockHeld := false;
        return Raised("AttributeError", "'NoneType' object has no attribute 'classify'");
      }
      var result := instance.Classify(fetched, classified);
      if result.Raised? {
        ctx.workerLockHeld := false;
        return Raised(result.exception, result.message);
      }
      r := ctx.AddCompleteLocalization(pendingEntry, result.value);
      ApiContext.ResolveKeepsLedgerValid(old(ctx.localizations), pendingEntry, result.value);
      ctx.workerLockHeld := false;
    }
  }

  // ------------------------------------------------------------ the handlers

  /** `/buildmetamodel`. After the request checks, a free build lock is taken
      and a builder started (204); a held lock is refused with 423, never
      queued. */
  method BuildMetamodel(ctx: ApiContext.ApiContext, body: Option<Doc>) returns (reply: Reply, builder: ModelBuilder?)
    requires ctx.Valid()
    modifies ctx`locks
    ensures ctx.Valid()
    ensures CheckBuildRequest(body, ctx.catalog).RefuseBuild? ==>
      reply == CheckBuildRequest(body, ctx.catalog).reply && builder == null && ctx.locks == old(ctx.locks)
    ensures CheckBuildRequest(body, ctx.catalog).AcceptBuild? ==>
      var name := CheckBuildRequest(body, ctx.catalog).name;
      && name in old(ctx.locks)
      && (old(ctx.locks)[name] ==>
            reply == Text(423, "Metamodel '" + name + "' is already being built") && builder == null && ctx.locks == old(ctx.locks))
      && (!old(ctx.locks)[name] ==>
            reply == NoContent && builder != null && fresh(builder) && builder.metamodelName == name
            && builder.metamodel == null && ctx.locks == old(ctx.locks)[name := true])
  {
    match CheckBuildRequest(body, ctx.catalog)
    case RefuseBuild(refusal) =>
      return refusal, null;
    case AcceptBuild(name) =>
      if ctx.locks[name] {
        return Text(423, "Metamodel '" + name + "' is already being built"), null;
      }
      ctx.locks := ctx.locks[name := true];
      builder := new ModelBuilder(name);
      reply := NoContent;
  }

  /** `/localize`. After the request checks, a worker is created, which
      records the pending entry at once, and the ledger snapshot returned
      already holds that entry as its last pending record. */
  method Localize(ctx: ApiContext.ApiContext, body: Option<Doc>) returns (reply: Reply, worker: LocalizationWorker?)
    requires ctx.Valid()
    modifies ctx`localizations
    ensures ctx.Valid()
    ensures CheckLocalizeRequest(body, ctx.statuses, ctx.catalog).RefuseLocalize? ==>
      reply == CheckLocalizeRequest(body, ctx.statuses, ctx.catalog).reply && worker == null
      && ctx.localizations == old(ctx.localizations)
    ensures CheckLocalizeRequest(body, ctx.statuses, ctx.catalog).AcceptLocalize? ==>
      var c := CheckLocalizeRequest(body, ctx.statuses, ctx.catalog);
      && worker != null && fresh(worker)
      && worker.pendingEntry == ApiContext.PendingEntry(c.screenName, c.name)
      && worker.metamodelName == c.name && ctx.instances[c.name] != null
      && ctx.localizations == old(ctx.localizations).(pending := old(ctx.localizations).pending + [worker.pendingEntry])
      && reply == Snapshot(ctx.localizations)
  {
    match CheckLocalizeRequest(body, ctx.statuses, ctx.catalog)
    case RefuseLocalize(refusal) =>
      return refusal, null;
    case AcceptLocalize(screenName, name) =>
      worker := new LocalizationWorker(ctx, screenName, name);
      var snap := ctx.LocalizationsUpdate(0);
      reply := Snapshot(snap);
  }
}

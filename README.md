# twitter-localization-backend, modelled in Dafny

This project models the core of the Twitter localization backend. The backend decides whether a Twitter user is Swiss. It does this with *metamodels*: each combines feature extractors (top hashtags, hashtag similarity against a reference vector, tweet interaction behaviour, interactions with known Swiss users) with a classifier (the nearest-mean `SingleFeatureBinaryThreshold`). A small HTTP API builds metamodels and answers localization requests. Around it sit a crawler that stores users and influencer lists in MongoDB, a GeoNames client with a local place database, a Neo4j knowledge graph and evaluation code.

What the model covers:
- **The API context**: the catalog of metamodel names, each name's status record, instance slot and build lock, and the ledger of pending, complete and failed localizations. The request checks, `ModelBuilder.run` and `LocalizationWorker.run` from the router are modelled too. Each lock is a held/free flag, and each worker body is one atomic step.
- **Classification and evaluation**: the classifier and metamodel readiness gates, the nearest-mean classifier with exact `real` arithmetic, and the confusion matrix and metrics of the metamodel test.
- **Feature extraction**: the read-through feature cache and the four extractors.
- **Data sets**: the train/validate/test provider.
- **GeoNames**: error codes and messages, rate-limit scopes, API response interpretation, the staged local search and the offline importer.
- **Crawler and maintenance**: the crawler's user normalisation and Swiss flagging, influencer list sync, duplicate removal, the knowledge graph's normalisation and marking, Twitter rate-limit parsing, the graph `User` record, and the utility functions for chunking and timing.

Python semantics are written out explicitly (`Common.dfy`):
- JSON-like values and dictionaries.
- `Result` for a raised exception, with the exception's name and message.
- `split`, `join`, `strip`, `str(int)`, floor division and slicing.

MongoDB collections are an in-memory `Mongo.Store`: a sequence of documents plus the next ObjectId counter. Collections a class mutates are fields of that class, reassigned by its methods. Calls whose behaviour is not visible in the modelled code are parameters:
- the network (Twitter, GeoNames HTTP, Neo4j), the file system and the clock;
- `random.shuffle`, the unidecode normaliser and configuration values;
- abstract methods such as `_build`, `_classify` and `_extract_for`.

Where the code and its design description disagree, the model follows the code:
- A build request whose lock cannot be taken within 2 seconds is answered with status 423, not 409.
- A localize request without `screenName` or `metamodel` gets a text message with the default status 200, not 400.
- The routes never pass `after_index`, so a snapshot always holds all complete entries.
- A `classify` that raises leaves its pending entry in the ledger for ever.

## Model

| member | source | states |
|---|---|---|
| ApiContext.Stem | twitter-localization-backend/src/api/ApiContext.py:29 | `file.split(".")[0]`: the stem is a dot-free prefix of the file name; it is the whole name when there is no dot, and otherwise it stops at the first dot |
| ApiContext.ListMetaModels | twitter-localization-backend/src/api/ApiContext.py:26-29 | a name is in the catalog exactly when it is the stem of a directory entry other than `__init__.py` and `__pycache__`; at most one name per entry |
| ApiContext.ResolvedEntry | twitter-localization-backend/src/api/ApiContext.py:62-79 | the resolved record keeps screen name and metamodel and takes the given index; a null classification gives isSwiss False and confidence 0; otherwise isSwiss is "true" exactly when the class is 1, else "false", with the classifier's confidence |
| ApiContext.RemoveFirst | twitter-localization-backend/src/api/ApiContext.py:80 | `del lst[lst.index(x)]` removes one occurrence of x (multiset difference), keeping the order before and after it |
| ApiContext.Resolve | twitter-localization-backend/src/api/ApiContext.py:59-80 | the resolved record goes to failed (null classification) or complete with index equal to that list's former length; the deletion succeeds exactly when the pending record is present, otherwise ValueError after the append; on success the three lists keep their total size |
| ApiContext.ResolveKeepsLedgerValid | twitter-localization-backend/src/api/ApiContext.py:62-79 | resolutions keep each list dense (index equals position) and the isSwiss flags consistent |
| ApiContext.SliceFrom | twitter-localization-backend/src/api/ApiContext.py:85 | Python `lst[k:]` is a suffix, of length `len - k` (or 0) for k >= 0 and of length -k (at most len) for negative k |
| ApiContext.SnapshotFromIndex | twitter-localization-backend/src/api/ApiContext.py:84-85 | on a dense list, `complete[after_index:]` holds exactly the records with index >= after_index, in index order |
| ApiContext.ApiContext.constructor | twitter-localization-backend/src/api/ApiContext.py:8-23 | every catalog name starts offline, with error None, no instance and a free lock; all three localization lists are empty |
| ApiContext.ApiContext.SetMetamodelStatus | twitter-localization-backend/src/api/ApiContext.py:37-42 | replaces that name's whole status record, nothing else |
| ApiContext.ApiContext.SetMetamodel | twitter-localization-backend/src/api/ApiContext.py:44-45 | replaces that name's instance slot, nothing else |
| ApiContext.ApiContext.ReleaseBuildLock | twitter-localization-backend/src/api/Router.py:147 | releasing frees exactly that name's build lock |
| ApiContext.ApiContext.AddPendingLocalization | twitter-localization-backend/src/api/ApiContext.py:47-57 | appends exactly one {screenName, metamodelName} record to pending and returns it; complete and failed unchanged |
| ApiContext.ApiContext.AddCompleteLocalization | twitter-localization-backend/src/api/ApiContext.py:59-82 | the new ledger and outcome are those of `Resolve` |
| ApiContext.ApiContext.LocalizationsUpdate | twitter-localization-backend/src/api/ApiContext.py:84-99 | pending and failed in full and `complete[after_index:]`, which for a non-negative index on a dense list is exactly the records with index >= after_index |
| Router.InstantiateMetamodel | twitter-localization-backend/src/api/Router.py:121-137 | a kind is chosen exactly when the name is one of the seven request names, and it is the kind with that name |
| Router.InstantiateRequestName | twitter-localization-backend/src/api/Router.py:121-137 | each kind's request name instantiates that kind |
| Router.FeatureCombination4StemNotInstantiated | twitter-localization-backend/src/api/Router.py:123-124 | the catalog name "FeatureCombination4" (the stem of its module file) instantiates nothing, since the branch tests "FeatureCombination1" |
| Router.CheckBuildRequest | twitter-localization-backend/src/api/Router.py:48-55 | a missing body fails with TypeError; no "metamodel" gives 400; an unknown name gives 404 with its message; a non-string name fails with TypeError; the request is accepted exactly when the name is a catalog string |
| Router.CheckLocalizeRequest | twitter-localization-backend/src/api/Router.py:63-76 | missing screenName or metamodel is answered with a text message and status 200; the request is accepted exactly when the name has a status record that is online and is in the catalog; every refusal with a text message is 200 or 404 |
| Router.Construct | twitter-localization-backend/src/api/Router.py:141-151 | the instance has the kind's display name and id; it is ready and holds the scores exactly when the build succeeded, otherwise the build's exception is returned |
| Router.BuildStatus | twitter-localization-backend/src/api/Router.py:139-159 | the final status is online exactly when an instance was installed, building exactly when the constructor raised, and error (with message) when nothing was instantiated or the build raised |
| Router.ModelBuilder.constructor | twitter-localization-backend/src/api/Router.py:116-119 | the builder holds the name and no instance |
| Router.ModelBuilder.Run | twitter-localization-backend/src/api/Router.py:139-159 | the status becomes `BuildStatus`; the lock stays held only when the constructor raised; an instance is installed only after a successful build; the ledger is untouched |
| Router.ModelBuilder.RunClass | twitter-localization-backend/src/api/Router.py:150-159 | the same, for a name that instantiates a kind |
| Router.ModelBuilder.BuildInstance | twitter-localization-backend/src/api/Router.py:150-159 | a failed build sets status error with the exception text; a successful one installs the ready instance and sets online; the lock is released either way |
| Router.ModelBuilder.Install | twitter-localization-backend/src/api/Router.py:152-159 | installs the instance, sets online and releases the lock |
| Router.ModelBuilder.ReportError | twitter-localization-backend/src/api/Router.py:144-155 | sets status error with the message and releases the lock |
| Router.LocalizationWorker.constructor | twitter-localization-backend/src/api/Router.py:164-168 | the worker holds the screen name and metamodel and exactly one pending record is appended |
| Router.LocalizationWorker.Run | twitter-localization-backend/src/api/Router.py:170-176 | a missing metamodel raises KeyError, a None instance AttributeError, a raising classify its own exception, all with the ledger unchanged; otherwise the ledger is resolved as `Resolve` states |
| Router.BuildMetamodel | twitter-localization-backend/src/api/Router.py:48-60 | a refused request leaves the locks alone; a held lock answers 423; otherwise the lock is taken, a builder for the name is started and the answer is 204 |
| Router.Localize | twitter-localization-backend/src/api/Router.py:63-78 | a refused request changes nothing; an accepted one appends exactly one pending record for a worker on an installed metamodel and answers with the full snapshot |
| Metamodel.Lower | twitter-localization-backend/src/localization/Metamodel.py:19 | `str.lower()` on ASCII letters: same length, each upper-case letter mapped to its lower-case partner, everything else kept |
| Metamodel.ReplaceChar | twitter-localization-backend/src/localization/Metamodel.py:19 | `replace(" ", "_")`: same length, exactly the spaces replaced |
| Metamodel.ModelId | twitter-localization-backend/src/localization/Metamodel.py:19 | the model id has the name's length and contains no space and no upper-case letter |
| Metamodel.ModelIdIdempotent | twitter-localization-backend/src/localization/Metamodel.py:19 | deriving the id of an id gives it back |
| Metamodel.InstanceId | twitter-localization-backend/src/localization/Metamodel.py:20 | the instance id is the model id, an underscore and a non-empty run of digits |
| Metamodel.InstanceIdMillis | twitter-localization-backend/src/localization/Metamodel.py:20 | the digits after the underscore read back as the millisecond timestamp |
| Metamodel.ReadyOutcome | twitter-localization-backend/src/localization/Metamodel.py:40-47 | a user that is not found gives (None, None) and nothing else does; a failing fetch or classification raises its own exception; otherwise the classification is returned |
| Metamodel.Metamodel.constructor | twitter-localization-backend/src/localization/Metamodel.py:14-21 | a new metamodel is not ready, has no training scores, and has the derived model and instance ids |
| Metamodel.Metamodel.Build | twitter-localization-backend/src/localization/Metamodel.py:26-35 | a successful build makes the metamodel ready and returns its scores; a raising build keeps readiness unchanged and raises |
| Metamodel.Metamodel.Classify | twitter-localization-backend/src/localization/Metamodel.py:37-47 | a metamodel that is not ready raises MetamodelNotReadyError; a ready one returns `ReadyOutcome` |
| Classifier.Classifier.constructor | twitter-localization-backend/src/localization/Classifier.py:9-11 | a new classifier is untrained and keeps its name |
| Classifier.Classifier.Train | twitter-localization-backend/src/localization/Classifier.py:13-24 | a numeric score marks the classifier trained and is returned; a non-numeric one fails the assertion and a raising `_train` propagates, both leaving the flag unchanged |
| Classifier.Classifier.Classify | twitter-localization-backend/src/localization/Classifier.py:26-36 | an untrained classifier raises UntrainedClassifierError with its name; a trained one returns the prediction |
| Classifier.UntrainedAfterFailedTraining | twitter-localization-backend/src/localization/Classifier.py:21-34 | after a failed training, classification raises UntrainedClassifierError |
| Collections.FloorDiv | twitter-localization-backend/src/util/collections.py:2 | Python `//` rounds toward minus infinity: `q*b <= a < q*b + b` for b > 0 and the mirror image for b < 0 |
| Collections.SliceBound | twitter-localization-backend/src/util/collections.py:3-4 | a slice bound is clamped into `0..len`, a negative one counting from the end |
| Collections.PySlice | twitter-localization-backend/src/util/collections.py:3-4 | Python `s[lo:hi]` is the range between the clamped bounds, empty when they cross |
| Collections.FullChunks | twitter-localization-backend/src/util/collections.py:2-3 | the comprehension yields `len // size` chunks of exactly `size` elements whose concatenation is the covered prefix |
| Collections.FullChunkSlice | twitter-localization-backend/src/util/collections.py:3 | chunk k is `s[k*size:(k+1)*size]` |
| Collections.FullChunksCount | twitter-localization-backend/src/util/collections.py:2-3 | there are `len // size` full chunks |
| Collections.ChunksShape | twitter-localization-backend/src/util/collections.py:1-5 | for a positive size: `len // size + 1` chunks, the full ones are consecutive slices, and the last is `s[full*size:-1]`, shorter than a chunk |
| Collections.FlattenChunks | twitter-localization-backend/src/util/collections.py:1-5 | concatenating the chunks gives the list without its last element whenever the size does not divide the length |
| Collections.NegativeChunkSize | twitter-localization-backend/src/util/collections.py:2-4 | a negative size gives no full chunk and one empty tail chunk |
| Collections.EmptyInput | twitter-localization-backend/src/util/collections.py:2-4 | an empty list gives a single empty chunk |
| Collections.DropsLastElement | twitter-localization-backend/src/util/collections.py:4 | `[1, 2, 3]` in chunks of 2 gives `[[1, 2], []]`: the 3 is lost |
| Collections.SplitIntoChunksRoundTrip | twitter-localization-backend/src/util/collections.py:4 | with the tail slice running to the end, concatenating the chunks gives back the list |
| Collections.SplitIntoChunksAgrees | twitter-localization-backend/src/util/collections.py:1-5 | the corrected split has the same number of chunks, the same full chunks, and a tail shorter than a chunk |
| Timing.GetTimestamp | twitter-localization-backend/src/util/timing.py:5-10 | `"%Y-%m-%d %H:%M"` is the year's digits plus 12 characters |
| Timing.TimestampLayout | twitter-localization-backend/src/util/timing.py:5-10 | the separators sit at their places and each field reads back as the year, month, day, hour and minute |
| Timing.TimedeltaSeconds | twitter-localization-backend/src/util/timing.py:21 | `timedelta.seconds` is in `0..86399` |
| Timing.SecondsClosedForm | twitter-localization-backend/src/util/timing.py:17-21 | the wait is 3720 - 60*minute - second (one less with a fractional second) plus the margin, between 120 and 3720 seconds before the margin |
| Timing.TargetIsMinuteTwo | twitter-localization-backend/src/util/timing.py:20-21 | now plus the wait is minute 2 of the next hour |
| Timing.SecondsNonIncreasing | twitter-localization-backend/src/util/timing.py:17-21 | within one hour, a later time never waits longer |
| MetamodelTest.IsCorrectlyClassified | twitter-localization-backend/src/testing/MetamodelTest.py:66-68 | a user is correctly classified exactly when the localized verdict equals the user's `is_swiss` |
| MetamodelTest.CountCell | twitter-localization-backend/src/testing/MetamodelTest.py:75-88 | a cell of the confusion matrix counts at most all results |
| MetamodelTest.CalculateConfusionMatrix | twitter-localization-backend/src/testing/MetamodelTest.py:74-88 | the loop's matrix is the tally of true positives, false negatives, false positives and true negatives over the results |
| MetamodelTest.TallyTotal | twitter-localization-backend/src/testing/MetamodelTest.py:75-88 | every result lands in exactly one cell: the four cells sum to the number of results |
| MetamodelTest.TallyRows | twitter-localization-backend/src/testing/MetamodelTest.py:80-87 | the two cells of a row add up to the number of users of that class |
| MetamodelTest.TallyDiagonal | twitter-localization-backend/src/testing/MetamodelTest.py:80-87 | the diagonal (TP + TN) counts exactly the correctly classified results |
| MetamodelTest.Accuracy | twitter-localization-backend/src/testing/MetamodelTest.py:90-97 | accuracy is (TP + TN) / total, 0 for an empty matrix, always within [0, 1] |
| MetamodelTest.Precision | twitter-localization-backend/src/testing/MetamodelTest.py:99-104 | precision is TP / (TP + FP), 0 when nothing was predicted Swiss, within [0, 1] |
| MetamodelTest.Recall | twitter-localization-backend/src/testing/MetamodelTest.py:106-111 | recall is TP / (TP + FN), 0 when there are no Swiss users, within [0, 1] |
| MetamodelTest.FMeasure | twitter-localization-backend/src/testing/MetamodelTest.py:113-118 | F is the harmonic mean 2PR/(P+R), 0 when P + R is 0, lies between P and R and within [0, 1] for P, R in [0, 1] |
| MetamodelTest.HarmonicBetween | twitter-localization-backend/src/testing/MetamodelTest.py:118 | the harmonic mean of two non-negative numbers lies between them |
| MetamodelTest.MapTo01 | twitter-localization-backend/src/testing/MetamodelTest.py:151-153 | `2 * (v - 0.5)` maps confidences in [0.5, 1] exactly onto [0, 1] and is undone by `r / 2 + 0.5` |
| MetamodelTest.CalculateCpi | twitter-localization-backend/src/testing/MetamodelTest.py:139-149 | the loop's result is the mean of the per-user indices; no results raise ZeroDivisionError |
| MetamodelTest.CpiSumBounds | twitter-localization-backend/src/testing/MetamodelTest.py:143-148 | with confidences in [0.5, 1] each user adds between 0 and 1 to the sum |
| MetamodelTest.CpiBounds | twitter-localization-backend/src/testing/MetamodelTest.py:139-149 | the confidence performance index lies in [0, 1] |
| TrainValidateTestProvider.PerClass | twitter-localization-backend/src/localization/TrainValidateTestProvider.py:45-46 | `int(total / 2)` truncates toward zero: half the users needed, rounded down for a non-negative total |
| TrainValidateTestProvider.Limit | twitter-localization-backend/src/localization/TrainValidateTestProvider.py:47-50 | a cursor `limit(n)` yields everything for 0 and otherwise the first abs(n) documents |
| TrainValidateTestProvider.DrawnPerClass | twitter-localization-backend/src/localization/TrainValidateTestProvider.py:46-51 | the drawn users are at most `per_class` Swiss then at most `per_class` foreign users of the test-set collection, all of them with a boolean `is_swiss`; a zero limit draws both classes in full |
| TrainValidateTestProvider.PopFront | twitter-localization-backend/src/localization/TrainValidateTestProvider.py:53-55 | popping the front n times splits the list into the first n users and the rest, and raises IndexError when the list runs out |
| TrainValidateTestProvider.RandomSplitSegments | twitter-localization-backend/src/localization/TrainValidateTestProvider.py:39-56 | the random split succeeds iff the shuffled users number exactly the three sizes' sum; the sets are then consecutive segments covering the list; too few users raise IndexError, too many fail the final assertion |
| TrainValidateTestProvider.RandomSplitPermutes | twitter-localization-backend/src/localization/TrainValidateTestProvider.py:51-55 | when the shuffle permutes, a successful split holds exactly the drawn users |
| TrainValidateTestProvider.FileSplit | twitter-localization-backend/src/localization/TrainValidateTestProvider.py:59-74 | a stored split without a "train" entry raises KeyError and changes nothing |
| TrainValidateTestProvider.FileSplitLoads | twitter-localization-backend/src/localization/TrainValidateTestProvider.py:59-74 | loading a stored split succeeds iff it lists all three sets as arrays; each set then holds exactly the test-set users with a listed id (shuffled when `shuffle_loaded_set` is on); a failure keeps the old test set |
| TrainValidateTestProvider.ExportedIds | twitter-localization-backend/src/localization/TrainValidateTestProvider.py:23-26 | the export maps exactly "train", "validate" and "test" to each set's ids in order, and fails iff some user has no id |
| TrainValidateTestProvider.Provider.LoadRandomData | twitter-localization-backend/src/localization/TrainValidateTestProvider.py:39-56 | the globals become the random split of the shuffled drawn users |
| TrainValidateTestProvider.Provider.Pop | twitter-localization-backend/src/localization/TrainValidateTestProvider.py:53-55 | the popping loop computes exactly the front split, or its IndexError |
| TrainValidateTestProvider.Provider.LoadData | twitter-localization-backend/src/localization/TrainValidateTestProvider.py:31-36 | a set, non-empty `use_file` selects the stored split, anything else the random one |
| TrainValidateTestProvider.Provider.GetData | twitter-localization-backend/src/localization/TrainValidateTestProvider.py:16-20 | the sets are loaded only while the training set is empty; afterwards they are returned unchanged |
| TrainValidateTestProvider.GetDataTwice | twitter-localization-backend/src/localization/TrainValidateTestProvider.py:16-20 | once a call has loaded a non-empty training set, the next call returns the same three sets |
| SingleFeatureBinaryThreshold.GroupsPartition | twitter-localization-backend/src/localization/classifiers/SingleFeatureBinaryThreshold.py:24-28 | every training row lands in exactly one of the positive and negative groups |
| SingleFeatureBinaryThreshold.SingleFeatureBinaryThreshold.constructor | twitter-localization-backend/src/localization/classifiers/SingleFeatureBinaryThreshold.py:10-18 | a new classifier is untrained, named "SingleFeatureBinaryThreshold", with all seven fields 0 |
| SingleFeatureBinaryThreshold.SingleFeatureBinaryThreshold.BreakTie | twitter-localization-backend/src/localization/classifiers/SingleFeatureBinaryThreshold.py:61-65 | a tie goes to class 1 iff its prior is at least the other's, else to class 0 |
| SingleFeatureBinaryThreshold.SingleFeatureBinaryThreshold.PredictClass | twitter-localization-backend/src/localization/classifiers/SingleFeatureBinaryThreshold.py:45-51 | the class whose average is strictly nearer wins; equal distances go to the tie-break |
| SingleFeatureBinaryThreshold.SingleFeatureBinaryThreshold.Confidence | twitter-localization-backend/src/localization/classifiers/SingleFeatureBinaryThreshold.py:53-59 | equal averages give 0.5; otherwise the confidence is capped at 1 |
| SingleFeatureBinaryThreshold.SingleFeatureBinaryThreshold.ClassifySampleSound | twitter-localization-backend/src/localization/classifiers/SingleFeatureBinaryThreshold.py:38-59 | the predicted class's average is at least as close to the feature as the other's, and the confidence lies in [0.5, 1] |
| SingleFeatureBinaryThreshold.SingleFeatureBinaryThreshold.CorrectCount | twitter-localization-backend/src/localization/classifiers/SingleFeatureBinaryThreshold.py:70-75 | the number of correctly predicted rows is at most the number of rows |
| SingleFeatureBinaryThreshold.SingleFeatureBinaryThreshold.Score | twitter-localization-backend/src/localization/classifiers/SingleFeatureBinaryThreshold.py:67-76 | the score exists iff the validation set is non-empty and is then the fraction of correct predictions, within [0, 1] |
| SingleFeatureBinaryThreshold.SingleFeatureBinaryThreshold.CalculateScore | twitter-localization-backend/src/localization/classifiers/SingleFeatureBinaryThreshold.py:67-76 | the counting loop computes the score, or ZeroDivisionError for an empty validation set |
| SingleFeatureBinaryThreshold.SingleFeatureBinaryThreshold.SplitByClass | twitter-localization-backend/src/localization/classifiers/SingleFeatureBinaryThreshold.py:21-28 | the loop collects feature 0 of the rows labelled 1, and of all other rows, in row order |
| SingleFeatureBinaryThreshold.SingleFeatureBinaryThreshold.SetFields | twitter-localization-backend/src/localization/classifiers/SingleFeatureBinaryThreshold.py:29-35 | the averages are the group means, the priors are the group shares and sum to 1, and delta, lower and upper agree with the averages |
| SingleFeatureBinaryThreshold.SingleFeatureBinaryThreshold.TrainFields | twitter-localization-backend/src/localization/classifiers/SingleFeatureBinaryThreshold.py:20-36 | training sets the fields from the two groups of the training rows and returns the validation score |
| SingleFeatureBinaryThreshold.SingleFeatureBinaryThreshold.Train | twitter-localization-backend/src/localization/Classifier.py:13-24 | the classifier is marked trained and returns the score iff the validation set is non-empty; otherwise ZeroDivisionError with the trained flag unchanged |
| SingleFeatureBinaryThreshold.SingleFeatureBinaryThreshold.Classify | twitter-localization-backend/src/localization/Classifier.py:26-36 | an untrained classifier raises UntrainedClassifierError; a trained one gives the nearest-mean prediction |
| FeatureExtractor.CacheEntry | twitter-localization-backend/src/localization/FeatureExtractor.py:42-46 | the entry to save is the user's cached document (or `{"id": id}` when there is none) with the feature set to the value and every other field kept |
| FeatureExtractor.FeatureExtractor.constructor | twitter-localization-backend/src/localization/FeatureExtractor.py:11-14 | the extractor keeps its name, the cache-update flag and the feature cache |
| FeatureExtractor.FeatureExtractor.FetchCachedFeatureValue | twitter-localization-backend/src/localization/FeatureExtractor.py:34-40 | with the cache off, or no cached document, or no field of this feature, nothing is cached; otherwise the cached field's value |
| FeatureExtractor.FeatureExtractor.UpdateCache | twitter-localization-backend/src/localization/FeatureExtractor.py:42-47 | the cache entry is saved, after which the cache yields the new value for this user |
| FeatureExtractor.FeatureExtractor.ExtractFor | twitter-localization-backend/src/localization/FeatureExtractor.py:16-29 | a cached value is returned with the cache untouched; otherwise the computed value is returned and saved iff cache updates are allowed |
| FeatureExtractor.CacheRoundTrip | twitter-localization-backend/src/localization/FeatureExtractor.py:37-47 | after saving the entry, looking the user up finds the feature with the saved value |
| SwissTweetInteraction.FeatureName | twitter-localization-backend/src/localization/featureextractors/SwissTweetInteraction.py:9-11 | the feature is named "swiss_tweet_interaction", with "_agg" appended exactly in aggregate mode |
| SwissTweetInteraction.FilterForSwissIds | twitter-localization-backend/src/localization/featureextractors/SwissTweetInteraction.py:27-37 | the filtered ids are exactly the interaction partners known to be Swiss |
| SwissTweetInteraction.AggregateInteractions | twitter-localization-backend/src/localization/featureextractors/SwissTweetInteraction.py:44-49 | the aggregate share is the number of distinct Swiss partners over the summed category sizes, within [0, 1]; no interactions raise ZeroDivisionError |
| SwissTweetInteraction.Share | twitter-localization-backend/src/localization/featureextractors/SwissTweetInteraction.py:55-59 | a category's ratio is its Swiss partners over `max(len, 1)`: 0 for an empty category, within [0, 1] |
| SwissTweetInteraction.IndividualCounts | twitter-localization-backend/src/localization/featureextractors/SwissTweetInteraction.py:51-59 | each individual ratio lies in [0, 1], is 0 for an empty category, and otherwise counts exactly that category's Swiss partners |
| SwissTweetInteraction.SwissOfCategory | twitter-localization-backend/src/localization/featureextractors/SwissTweetInteraction.py:55-57 | keeping the filtered ids that occur in a category gives that category's Swiss partners |
| SwissTweetInteraction.ExtractFor | twitter-localization-backend/src/localization/featureextractors/SwissTweetInteraction.py:14-25 | a user without "id" raises KeyError; no tweets give 0 (aggregate) or three zeros; otherwise the aggregate share exists iff there is some interaction, and every value lies in [0, 1] |
| SwissTweetInteraction.AggregateDividesByZero | twitter-localization-backend/src/localization/featureextractors/SwissTweetInteraction.py:44-49 | a user with tweets but no interactions makes aggregate extraction raise ZeroDivisionError, while individual extraction gives three zeros |
| SwissTweetInteraction.AggregateInteractionsGuarded | twitter-localization-backend/src/localization/featureextractors/SwissTweetInteraction.py:44-49 | the guarded share is 0 without interactions, agrees with the written one otherwise, and lies in [0, 1] |
| TweetInteractionBehavior.MentionIds | twitter-localization-backend/src/localization/featureextractors/TweetInteractionBehavior.py:31-40 | a tweet without entities or without user mentions adds no id; otherwise every mention's "id", in order, or the KeyError of the first mention without one |
| TweetInteractionBehavior.PresentId | twitter-localization-backend/src/localization/featureextractors/TweetInteractionBehavior.py:42-50 | a retweet or reply id is added exactly when the field is present and not None, and it is the field's value |
| TweetInteractionBehavior.CollectIds | twitter-localization-backend/src/localization/featureextractors/TweetInteractionBehavior.py:21-28 | each tweet adds at most one retweet id and one reply id |
| TweetInteractionBehavior.AsSets | twitter-localization-backend/src/localization/featureextractors/TweetInteractionBehavior.py:29 | the three returned sets are `set()` of the three id lists |
| TweetInteractionBehavior.ExtractMentionIds | twitter-localization-backend/src/localization/featureextractors/TweetInteractionBehavior.py:31-40 | the appending loop extends the list by exactly the tweet's mention ids, or raises what the first bad mention raises |
| TweetInteractionBehavior.FindInteractions | twitter-localization-backend/src/localization/featureextractors/TweetInteractionBehavior.py:20-29 | the loop over the tweets computes the de-duplicated interaction sets, or the first error |
| TweetInteractionBehavior.CollectIdsRaisedPrefix | twitter-localization-backend/src/localization/featureextractors/TweetInteractionBehavior.py:25-28 | once a prefix of the tweets raises, the whole walk raises the same error |
| TweetInteractionBehavior.CollectedIffPresent | twitter-localization-backend/src/localization/featureextractors/TweetInteractionBehavior.py:42-50 | an id is among the retweet (reply) ids iff some tweet carries it, not None, as its retweeted author (reply target) |
| TweetInteractionBehavior.ExtractFor | twitter-localization-backend/src/localization/featureextractors/TweetInteractionBehavior.py:10-16 | a user without "id" raises KeyError; a user without tweets gets three zeros |
| TweetInteractionBehavior.ExtractForWithTweets | twitter-localization-backend/src/localization/featureextractors/TweetInteractionBehavior.py:14-18 | with tweets, each ratio is the number of distinct partners of that kind over the number of tweets |
| TweetInteractionBehavior.RatioBounds | twitter-localization-backend/src/localization/featureextractors/TweetInteractionBehavior.py:14-18 | the retweet and reply ratios lie in [0, 1] (at most one of each per tweet) and the mention ratio is non-negative |
| TweetInteractionBehavior.MentionRatioCanExceedOne | twitter-localization-backend/src/localization/featureextractors/TweetInteractionBehavior.py:18 | one tweet mentioning two users gives a mention ratio of 2: the mention ratio is not bounded by 1 |
| TopHashtags.NormalizeAll | twitter-localization-backend/src/localization/featureextractors/TopHashtags.py:26-28 | every hashtag text is a string and is replaced by its normalised form, in order |
| TopHashtags.FindName | twitter-localization-backend/src/localization/featureextractors/TopHashtags.py:29 | `hashtags.get(h, 0)` finds the entry of h when there is one, and there is none exactly when h was not counted yet |
| TopHashtags.TallyCounts | twitter-localization-backend/src/localization/featureextractors/TopHashtags.py:24-29 | the counting dict holds each distinct hashtag once, in order of first occurrence, with its number of occurrences (at least 1), and nothing else |
| TopHashtags.TallySnoc | twitter-localization-backend/src/localization/featureextractors/TopHashtags.py:29 | counting one more hashtag bumps its entry, or appends it with count 1 |
| TopHashtags.BumpAll | twitter-localization-backend/src/localization/featureextractors/TopHashtags.py:27-29 | the inner loop extends the tally by one tweet's hashtags |
| TopHashtags.CountHashtags | twitter-localization-backend/src/localization/featureextractors/TopHashtags.py:24-29 | the nested loops compute the tally of all normalised hashtags, or the error of the first malformed tweet |
| TopHashtags.AllTagsRaisedPrefix | twitter-localization-backend/src/localization/featureextractors/TopHashtags.py:25-26 | once a prefix of the tweets is malformed, the whole walk raises that error |
| TopHashtags.InsertPermutes | twitter-localization-backend/src/localization/featureextractors/TopHashtags.py:30 | inserting into the ranking adds exactly that entry |
| TopHashtags.InsertSorted | twitter-localization-backend/src/localization/featureextractors/TopHashtags.py:30 | inserting into a ranking sorted by decreasing count keeps it sorted |
| TopHashtags.SortPermutesAndOrders | twitter-localization-backend/src/localization/featureextractors/TopHashtags.py:30 | `sorted(..., key=count, reverse=True)` is a permutation of the items, in decreasing count |
| TopHashtags.SortIsStable | twitter-localization-backend/src/localization/featureextractors/TopHashtags.py:30 | the sort is stable: entries of equal count keep their dict order |
| TopHashtags.SortKeepsDistinctNames | twitter-localization-backend/src/localization/featureextractors/TopHashtags.py:30 | sorting keeps the hashtags distinct |
| TopHashtags.TopN | twitter-localization-backend/src/localization/featureextractors/TopHashtags.py:31 | `ranking[0:n]` is a prefix of the ranking: n entries (or all) for n >= 0, and `len + n` (at least 0) for a negative n |
| TopHashtags.CalculateTopHashtags | twitter-localization-backend/src/localization/featureextractors/TopHashtags.py:23-34 | the method computes the top entries, with counts or as names only |
| TopHashtags.RankingProperties | twitter-localization-backend/src/localization/featureextractors/TopHashtags.py:24-30 | the ranking is sorted by decreasing count, names each hashtag of the tweets exactly once, and counts each one's occurrences |
| TopHashtags.TopProperties | twitter-localization-backend/src/localization/featureextractors/TopHashtags.py:30-31 | the top entries are sorted, distinct and correctly counted, and no hashtag left out has a higher count than one kept |
| TopHashtags.NamesAreProjection | twitter-localization-backend/src/localization/featureextractors/TopHashtags.py:32-34 | without counts the result is exactly the names of the with-counts result, in order |
| TopHashtags.ExtractFor | twitter-localization-backend/src/localization/featureextractors/TopHashtags.py:14-21 | a user without "id" raises KeyError; otherwise the top hashtag names of the user's own tweets |
| HashtagSimilarity.FetchCachedVector | twitter-localization-backend/src/localization/featureextractors/HashtagSimilarity.py:42-49 | no cached document for this key and vector length gives None; otherwise its "vector", or KeyError when it has none |
| HashtagSimilarity.ReferenceUsesEveryTrainUser | twitter-localization-backend/src/localization/featureextractors/HashtagSimilarity.py:51-54 | the reference tweets are exactly the stored tweets written by some user of the training set, Swiss or not |
| HashtagSimilarity.NamesJson | twitter-localization-backend/src/localization/featureextractors/HashtagSimilarity.py:37 | the stored vector is the list of the top hashtag names, in order |
| HashtagSimilarity.CacheObject | twitter-localization-backend/src/localization/featureextractors/HashtagSimilarity.py:34-39 | the cached object is found again by the lookup query for its key and vector length, and its "vector" holds the names |
| HashtagSimilarity.AsSet | twitter-localization-backend/src/localization/featureextractors/HashtagSimilarity.py:15 | `set()` of a cached list is the set of its items; of a scalar it raises TypeError |
| HashtagSimilarity.NameSet | twitter-localization-backend/src/localization/featureextractors/HashtagSimilarity.py:15 | the reference set holds exactly the computed names |
| HashtagSimilarity.NameSetSize | twitter-localization-backend/src/localization/featureextractors/HashtagSimilarity.py:15 | the set has no more elements than the list of names |
| HashtagSimilarity.Similarity | twitter-localization-backend/src/localization/featureextractors/HashtagSimilarity.py:30-32 | the similarity is the number of shared hashtags over the vector length; a zero length raises ZeroDivisionError; with at most `vector_length` user hashtags it lies in [0, 1] |
| HashtagSimilarity.HashtagSimilarity.constructor | twitter-localization-backend/src/localization/featureextractors/HashtagSimilarity.py:11-13 | the extractor keeps its vector length, cache flag, cache and intermediate-result key, with an empty reference set |
| HashtagSimilarity.HashtagSimilarity.InitReferenceVector | twitter-localization-backend/src/localization/featureextractors/HashtagSimilarity.py:14-23 | a cached vector, when asked for and present, becomes the reference set with the cache untouched; otherwise the training set's top hashtags do, and they are cached iff cache updates are allowed; every failure is passed on |
| HashtagSimilarity.HashtagSimilarity.ExtractFor | twitter-localization-backend/src/localization/featureextractors/HashtagSimilarity.py:25-28 | a user without "id" raises KeyError |
| HashtagSimilarity.SimilarityInUnitInterval | twitter-localization-backend/src/localization/featureextractors/HashtagSimilarity.py:25-32 | for a user with well-formed tweets the feature lies in [0, 1] for a positive vector length and raises ZeroDivisionError for length 0 |
| GeonamesException.CodeRanges | twitter-localization-backend/src/geonames/GeonamesException.py:3-26 | the rate-limit codes are exactly 18, 19 and 20, and the described codes exactly 10 to 25 |
| GeonamesException.RateLimitCodesDescribed | twitter-localization-backend/src/geonames/GeonamesException.py:3-26 | each rate-limit code's description is its scope followed by " limit of credits exceeded" |
| GeonamesException.Message | twitter-localization-backend/src/geonames/GeonamesException.py:28-32 | every message starts with "Geonames Exception: ", and an unknown code's with "Geonames Exception: undefined error code " |
| GeonamesException.MessageRoundTrip | twitter-localization-backend/src/geonames/GeonamesException.py:28-32 | the code can be read back from every message |
| GeonamesException.MessageInjective | twitter-localization-backend/src/geonames/GeonamesException.py:28-32 | different codes give different messages |
| GeonamesRateLimitException.NewRateLimitError | twitter-localization-backend/src/geonames/GeonamesRateLimitException.py:5-8 | construction succeeds iff the code is a rate-limit code (otherwise AssertionError), keeping the parent's message and the code's scope |
| GeonamesRateLimitException.ExactlyOneScope | twitter-localization-backend/src/geonames/GeonamesRateLimitException.py:10-17 | a rate-limit error is daily iff code 18, hourly iff 19, weekly iff 20, and exactly one of the three |
| GeonamesLocalDatabase.MatchName | twitter-localization-backend/src/geonames/GeonamesLocalDatabase.py:32-33 | the places found are exactly those whose name is the query |
| GeonamesLocalDatabase.MatchNameOrAlternateName | twitter-localization-backend/src/geonames/GeonamesLocalDatabase.py:35-41 | the places found are exactly those whose name or one of whose alternate names is the query |
| GeonamesLocalDatabase.LimitResult | twitter-localization-backend/src/geonames/GeonamesLocalDatabase.py:46-49 | with `first_match` the first result alone, otherwise all results |
| GeonamesLocalDatabase.QueryParts | twitter-localization-backend/src/geonames/GeonamesLocalDatabase.py:22 | the query's comma-separated parts, each stripped, in order |
| GeonamesLocalDatabase.StagesFor | twitter-localization-backend/src/geonames/GeonamesLocalDatabase.py:23-29 | each part is tried by name, then by name or alternate name, in order |
| GeonamesLocalDatabase.SearchPartsIsFirstNonEmpty | twitter-localization-backend/src/geonames/GeonamesLocalDatabase.py:23-30 | the loop over the parts returns the first non-empty stage's results, or None |
| GeonamesLocalDatabase.Search | twitter-localization-backend/src/geonames/GeonamesLocalDatabase.py:13-30 | no query or an empty one finds nothing; a hit is a single place exactly when `first_match` is set, and a list of results is never empty |
| GeonamesLocalDatabase.SearchIsStaged | twitter-localization-backend/src/geonames/GeonamesLocalDatabase.py:13-30 | the search tries the whole query by name, then by name or alternate name, then each part the same way, and returns the first stage with results |
| GeonamesLocalDatabase.FirstNonEmptyNone | twitter-localization-backend/src/geonames/GeonamesLocalDatabase.py:43-44 | the staged search finds nothing iff every stage's results are empty |
| GeonamesLocalDatabase.SearchSound | twitter-localization-backend/src/geonames/GeonamesLocalDatabase.py:13-30 | every place returned is a stored place named (or alternately named) as the query or one of its parts |
| GeonamesLocalDatabase.SearchNoneIff | twitter-localization-backend/src/geonames/GeonamesLocalDatabase.py:13-30 | a non-empty query finds nothing iff no stored place has the query or one of its parts as name or alternate name |
| GeonamesLocalDatabase.SearchFirstMatch | twitter-localization-backend/src/geonames/GeonamesLocalDatabase.py:46-49 | `first_match` does not change whether something is found, and then returns the first of the full results |
| GeonamesApi.StatusError | twitter-localization-backend/src/geonames/GeonamesApi.py:23-28 | a "status" answer always raises: a rate-limit code raises GeonamesRateLimitException, any other integer GeonamesException, each with the code's message; an unhashable value raises TypeError |
| GeonamesApi.AtMostZero | twitter-localization-backend/src/geonames/GeonamesApi.py:30 | `totalResultsCount <= 0` for a number (or bool); any other value raises TypeError |
| GeonamesApi.First | twitter-localization-backend/src/geonames/GeonamesApi.py:35 | `[0]` of a non-empty list is its first item; an empty list or string raises IndexError, a dict KeyError, a scalar TypeError |
| GeonamesApi.StatusRaises | twitter-localization-backend/src/geonames/GeonamesApi.py:23-28 | status codes 18, 19 and 20 raise the rate-limit exception, every other code the general one, with the code's message |
| GeonamesApi.StatusTakesPrecedence | twitter-localization-backend/src/geonames/GeonamesApi.py:23-28 | an answer with a "status" raises whatever else it contains |
| GeonamesApi.SearchOk | twitter-localization-backend/src/geonames/GeonamesApi.py:18-35 | a successful search had no "status" but a "totalResultsCount"; it finds nothing iff that count is at most 0, and otherwise returns the first of "geonames" |
| GeonamesApi.SearchAnswers | twitter-localization-backend/src/geonames/GeonamesApi.py:30-35 | a count of at most 0 gives None; a positive count gives the first place listed, or IndexError for an empty list |
| OfflineDataInserter.IntOf | twitter-localization-backend/src/geonames/OfflineDataInserter.py:104-105 | Python `int()`: an int is itself, a bool 0 or 1, a string its decimal value (or ValueError), a float truncated toward zero, anything else TypeError |
| OfflineDataInserter.ParseField | twitter-localization-backend/src/geonames/OfflineDataInserter.py:44-47 | `int()` of a tab field succeeds exactly for a decimal integer, surrounding whitespace allowed, and gives its value, else ValueError |
| OfflineDataInserter.ParseLineKeeps | twitter-localization-backend/src/geonames/OfflineDataInserter.py:38-56 | a kept line has at least 15 fields, field 7 starts with "PPL", fields 0 and 14 are integers, and the place maps the fields as listed; a line is skipped iff field 7 exists and does not start with "PPL" |
| OfflineDataInserter.LineRoundTrip | twitter-localization-backend/src/geonames/OfflineDataInserter.py:38-56 | joining fields with tabs and parsing the line gives back the place built from those fields (or a skip for a non-PPL code), and the alternate names split and rejoin to field 3 |
| OfflineDataInserter.PopulatedPlacesRaisedPrefix | twitter-localization-backend/src/geonames/OfflineDataInserter.py:37-57 | once a line raises, parsing the whole file raises that error |
| OfflineDataInserter.PopulatedPlacesConcat | twitter-localization-backend/src/geonames/OfflineDataInserter.py:37-57 | the places of two runs of lines are the places of each, in line order |
| OfflineDataInserter.OfflineDataInserter.ParsePopulatedPlaces | twitter-localization-backend/src/geonames/OfflineDataInserter.py:32-58 | the parsing loop computes the kept places in line order, or the first line's error |
| OfflineDataInserter.MergePlaceCases | twitter-localization-backend/src/geonames/OfflineDataInserter.py:23-30 | an unknown geonames id is inserted with a fresh ObjectId; a known place with alternate names is left alone; a known one without gets exactly the new alternate names |
| OfflineDataInserter.MergePlaceKeepsPlaces | twitter-localization-backend/src/geonames/OfflineDataInserter.py:23-30 | after merging, the place's id is present and every id present before still is |
| OfflineDataInserter.MergePlacesKeepsPlaces | twitter-localization-backend/src/geonames/OfflineDataInserter.py:21-30 | after merging a whole file, every parsed place's id is present and no place was lost |
| OfflineDataInserter.OfflineDataInserter.InsertFromFile | twitter-localization-backend/src/geonames/OfflineDataInserter.py:14-30 | the collection changes iff the file parses, and then becomes the merge of every parsed place in order |
| OfflineDataInserter.SameIdMeaning | twitter-localization-backend/src/geonames/OfflineDataInserter.py:83-84 | a tuple matches iff its field 0 parses to the place's id |
| OfflineDataInserter.FeatureCodeNone | twitter-localization-backend/src/geonames/OfflineDataInserter.py:82-89 | no feature code is found iff every tuple has a different, well-formed id |
| OfflineDataInserter.FeatureCodeFromFirstMatch | twitter-localization-backend/src/geonames/OfflineDataInserter.py:82-88 | the code found is field 7 of the first tuple whose id matches, all tuples before it having other ids |
| OfflineDataInserter.PrintName | twitter-localization-backend/src/geonames/OfflineDataInserter.py:84 | the message naming the place can be built exactly when the place has a string name |
| OfflineDataInserter.FeatureCodeNamedAtMatch | twitter-localization-backend/src/geonames/OfflineDataInserter.py:82-86 | a place that cannot be named fails with the message's exception at its first matching tuple |
| OfflineDataInserter.OfflineDataInserter.InsertFeatureCode | twitter-localization-backend/src/geonames/OfflineDataInserter.py:80-89 | the place is saved with the feature code of its first matching tuple; at that match a missing name raises KeyError and a non-string name TypeError before anything is saved; without a match, or on any error, the collection is unchanged and the error is `FeatureCode`'s |
| OfflineDataInserter.OfflineDataInserter.RemoveNonPpl | twitter-localization-backend/src/geonames/OfflineDataInserter.py:92-98 | the pass succeeds iff every Swiss feature code is a string, and then deletes exactly the Swiss places whose feature code does not start with "PPL", keeping the order of the rest; on the first non-string code (AttributeError) the deletions made for the places before it remain |
| OfflineDataInserter.RemovedBefore | twitter-localization-backend/src/geonames/OfflineDataInserter.py:93-98 | after the first i Swiss places the collection holds exactly the places not deleted so far |
| OfflineDataInserter.RemovedBeforeStep | twitter-localization-backend/src/geonames/OfflineDataInserter.py:95-98 | deleting a non-populated place by its `_id`, or keeping any other place, advances the collection to the next prefix state |
| OfflineDataInserter.RemovedBeforeDelete | twitter-localization-backend/src/geonames/OfflineDataInserter.py:96-98 | deleting a non-populated Swiss place by its `_id` keeps the ids unique and removes exactly that place from the collection |
| OfflineDataInserter.FeatureCodesAllStrings | twitter-localization-backend/src/geonames/OfflineDataInserter.py:93-96 | when every feature code on the cursor is a string, every Swiss place's feature code is one |
| OfflineDataInserter.StopsAtNonString | twitter-localization-backend/src/geonames/OfflineDataInserter.py:93-96 | a Swiss place whose feature code is not a string stops the removal, with the places before it handled |
| OfflineDataInserter.StringCodesNext | twitter-localization-backend/src/geonames/OfflineDataInserter.py:93-96 | one more place with a string feature code, or none, extends the run of handled places |
| OfflineDataInserter.RemovedAll | twitter-localization-backend/src/geonames/OfflineDataInserter.py:93-98 | after the whole cursor the collection is the stored places without the non-populated Swiss ones, in order |
| OfflineDataInserter.Converted | twitter-localization-backend/src/geonames/OfflineDataInserter.py:104-105 | conversion keeps every field but `geonames_id` and `population`, which become their `int()`; it fails iff one is missing or not convertible |
| OfflineDataInserter.OfflineDataInserter.ConvertStringsToInt | twitter-localization-backend/src/geonames/OfflineDataInserter.py:101-106 | the pass succeeds iff every place converts, and then replaces each place, in place, by its conversion; when place i cannot be converted, the places before it stay converted and saved and the rest are untouched |
| OfflineDataInserter.PlacesHaveNoId | twitter-localization-backend/src/geonames/OfflineDataInserter.py:43-56 | a parsed place carries no `_id`, so saving it inserts |
| UserManager.AllUsable | twitter-localization-backend/src/crawler/UserManager.py:439-442 | a result is usable iff every required field is present, not None and not "" |
| UserManager.RenamedKeys | twitter-localization-backend/src/crawler/UserManager.py:443-454 | the renamed document has exactly the new field names |
| UserManager.RenamedCopies | twitter-localization-backend/src/crawler/UserManager.py:443-454 | each new field holds the value of its source field, unchanged |
| UserManager.ParseRejects | twitter-localization-backend/src/crawler/UserManager.py:434-442 | parsing gives None iff there is no result or one of the ten required fields is missing, None or "" |
| UserManager.ParseCopies | twitter-localization-backend/src/crawler/UserManager.py:443-454 | a parsed place has exactly the ten place fields, each copied from its GeoNames field |
| UserManager.GetAttr | twitter-localization-backend/src/crawler/UserManager.py:493 | `getattr` succeeds iff the user has the field, and gives its value |
| UserManager.CollectedCopies | twitter-localization-backend/src/crawler/UserManager.py:491-493 | collecting the configured fields succeeds iff the user has them all (else AttributeError), and copies exactly those fields |
| UserManager.NormalizedFails | twitter-localization-backend/src/crawler/UserManager.py:483-503 | normalisation fails, with AttributeError, iff a configured field, time_zone, utc_offset or location is missing |
| UserManager.NormalizedShape | twitter-localization-backend/src/crawler/UserManager.py:491-503 | the normalised user holds the configured fields, user_place with exactly time_zone, utc_offset and location, type "standard" without a category and "influencer" plus influencer_category with one, and nothing else |
| UserManager.NormalizeUserForMongo | twitter-localization-backend/src/crawler/UserManager.py:483-503 | the field-copying loop computes the normalised user, or the first missing field's AttributeError |
| UserManager.CollectedRaisedPrefix | twitter-localization-backend/src/crawler/UserManager.py:492-493 | once a field is missing, the whole copy raises that error |
| UserManager.UncrawledMeaning | twitter-localization-backend/src/crawler/UserManager.py:144-157 | the uncrawled ids are exactly the follower ids no stored user has: a subset of the followers, disjoint from the stored ids |
| UserManager.UncrawledFailures | twitter-localization-backend/src/crawler/UserManager.py:148-157 | a follower list that is not an array makes the query fail; an unhashable follower id raises TypeError |
| UserManager.FetchUncrawledFollowerIds | twitter-localization-backend/src/crawler/UserManager.py:144-157 | the collecting loop computes the uncrawled ids, or the first error |
| UserManager.FlaggedMeaning | twitter-localization-backend/src/crawler/UserManager.py:367-376 | a user whose place is unknown stays as it was; otherwise is_swiss becomes whether the place's country code is "CH", and nothing else changes |
| UserManager.SetIsSwissForCursor | twitter-localization-backend/src/crawler/UserManager.py:361-376 | the pass succeeds iff every selected user can be looked up, and then replaces each document, in place, by its flagged form, with no document added; on an error at user i the users before it stay flagged and saved and the rest are untouched (`StoppedAt`) |
| UserManager.FlaggedPrefix | twitter-localization-backend/src/crawler/UserManager.py:367-376 | after the first i users of the loop the collection holds those users flagged, in place, and the rest unchanged, with no document added |
| UserManager.SaveFlagged | twitter-localization-backend/src/crawler/UserManager.py:372-376 | saving a flagged user replaces its document in place |
| UserManager.UserManager.SetIsSwissProperty | twitter-localization-backend/src/crawler/UserManager.py:236-245 | both the users and the test-set collections are flagged, each document in place; the places are unchanged; an error in the users pass leaves that pass's prefix saved and the test set untouched, an error in the test-set pass leaves the users fully flagged and the test set's prefix saved |
| UserManager.StoredPlaceFound | twitter-localization-backend/src/crawler/UserManager.py:456-458 | after storing a place it can be found by its geonames id, and no place was lost |
| UserManager.ParsedHasNoId | twitter-localization-backend/src/crawler/UserManager.py:443-454 | a parsed place has a geonames id and no _id, so storing it inserts |
| UserManager.AddGeonamesBeforeSearch | twitter-localization-backend/src/crawler/UserManager.py:403-410 | no user_place fails the assertion; an empty or None location gives (False, None); a user whose geonames id is already stored gives (True, None); nothing changes unless a place was added |
| UserManager.AddGeonamesSearchOutcome | twitter-localization-backend/src/crawler/UserManager.py:411-429 | after the search: a rate-limit error waits for the next hour, any other GeoNames error is returned, no usable result gives (False, None), and a usable one gives (True, None) |
| UserManager.AddGeonamesStores | twitter-localization-backend/src/crawler/UserManager.py:417-419 | every stored place is kept and, when a place was added, the user's geonames id can be found among the places |
| UserManager.UserManager.AddGeonamesInformation | twitter-localization-backend/src/crawler/UserManager.py:392-429 | the outcome, the updated user and the new place collection are those of the step; the user collections are unchanged |
| UserManager.UserManager.constructor | twitter-localization-backend/src/crawler/UserManager.py:27-31 | a new manager has empty collections and the configured user fields |
| UserManager.UpdatedUsersValid | twitter-localization-backend/src/crawler/UserManager.py:465-471 | an update keeps the collection's ids unique |
| UserManager.UpdateFails | twitter-localization-backend/src/crawler/UserManager.py:465-467 | the update fails iff normalisation fails or the user has no screen name, with the normalisation's error |
| UserManager.UpdateReusesId | twitter-localization-backend/src/crawler/UserManager.py:466-471 | an existing user with the same screen name is replaced in place under its own _id; otherwise the user is inserted with a fresh _id; either way it is then found by screen name |
| UserManager.UserManager.UpdateUserInMongo | twitter-localization-backend/src/crawler/UserManager.py:465-471 | the users collection becomes the updated one iff the update succeeds, and is otherwise unchanged |
| InfluencerListManager.Tag | twitter-localization-backend/src/crawler/InfluencerListManager.py:67-70 | each list entry is paired with its list's name, in list order |
| InfluencerListManager.SyncEntriesStopped | twitter-localization-backend/src/crawler/InfluencerListManager.py:68-75 | after an error no further entry is processed |
| InfluencerListManager.SyncEntriesAppend | twitter-localization-backend/src/crawler/InfluencerListManager.py:54-57 | syncing two runs of entries one after the other is syncing them together |
| InfluencerListManager.SyncEntryOk | twitter-localization-backend/src/crawler/InfluencerListManager.py:68-69 | a synced entry has a screen name, and exactly that name is appended to the names on lists |
| InfluencerListManager.SyncEntriesNames | twitter-localization-backend/src/crawler/InfluencerListManager.py:54-57 | every screen name on every list is appended to the names on lists, in list order |
| InfluencerListManager.SavedEntryShape | twitter-localization-backend/src/crawler/InfluencerListManager.py:70-87 | the saved document is the list entry with category set to the list name; a new screen name gets crawl_status "new", an existing one keeps its _id and crawl_status |
| InfluencerListManager.SavedEntryFails | twitter-localization-backend/src/crawler/InfluencerListManager.py:69-86 | saving an entry fails iff it has no screen name or the stored entry with that name has no crawl_status |
| InfluencerListManager.SyncEntriesValid | twitter-localization-backend/src/crawler/InfluencerListManager.py:67-87 | syncing keeps the collection's ids unique |
| InfluencerListManager.SyncEntryFound | twitter-localization-backend/src/crawler/InfluencerListManager.py:71-87 | after syncing an entry, looking up its screen name finds the saved document |
| InfluencerListManager.SyncEntryKeepsOthers | twitter-localization-backend/src/crawler/InfluencerListManager.py:71-87 | syncing an entry does not change what any other screen name finds |
| InfluencerListManager.LastCategoryWins | twitter-localization-backend/src/crawler/InfluencerListManager.py:54-57 | a name on several lists ends with the category of the last list processed |
| InfluencerListManager.SyncListsIsSyncEntries | twitter-localization-backend/src/crawler/InfluencerListManager.py:54-57 | when every list can be fetched, syncing list by list equals syncing all their tagged entries in one run |
| InfluencerListManager.SyncListsNames | twitter-localization-backend/src/crawler/InfluencerListManager.py:54-57 | a successful sync of all lists has seen every screen name of every list, list after list and in list order |
| InfluencerListManager.SyncListsLastCategoryWins | twitter-localization-backend/src/crawler/InfluencerListManager.py:54-57 | across all configured lists, a screen name ends with the category of the last list that has it |
| InfluencerListManager.DeleteNotOnLists | twitter-localization-backend/src/crawler/InfluencerListManager.py:89-90 | clean-up deletes exactly one document, the first whose screen name is on no list, when there is one, and otherwise nothing |
| InfluencerListManager.DeleteKeepsListed | twitter-localization-backend/src/crawler/InfluencerListManager.py:89-90 | clean-up never deletes a document whose screen name is on a list and adds nothing |
| InfluencerListManager.SyncListsNext | twitter-localization-backend/src/crawler/InfluencerListManager.py:54-57 | each list is fetched in turn: a fetch error stops the sync, a fetched list is synced entry by entry |
| InfluencerListManager.InfluencerListManager.SyncList | twitter-localization-backend/src/crawler/InfluencerListManager.py:67-75 | the loop over a list's entries leaves the collection, the names on lists and the status as the entry-by-entry sync |
| InfluencerListManager.InfluencerListManager.SyncOne | twitter-localization-backend/src/crawler/InfluencerListManager.py:68-75 | one iteration over a list entry moves the collection and the names on lists exactly as one step of the list sync: a missing screen name raises KeyError, otherwise the name is recorded and the entry is inserted or merged |
| InfluencerListManager.InfluencerListManager.InsertNewEntry | twitter-localization-backend/src/crawler/InfluencerListManager.py:80-82 | the collection becomes the old one with the entry saved, its crawl status set to "new" |
| InfluencerListManager.InfluencerListManager.UpdateExistingEntry | twitter-localization-backend/src/crawler/InfluencerListManager.py:84-87 | with a stored crawl status, the list entry is saved with the stored `_id` and crawl status; without one, KeyError is raised and the collection is unchanged |
| InfluencerListManager.SyncEntryNew | twitter-localization-backend/src/crawler/InfluencerListManager.py:68-82 | a sync step on an unknown screen name records the name and saves the entry with its category and crawl status "new" |
| InfluencerListManager.SyncEntryExisting | twitter-localization-backend/src/crawler/InfluencerListManager.py:68-87 | a sync step on a stored screen name records the name and either saves the merged entry or raises KeyError when the stored entry has no crawl status |
| InfluencerListManager.InfluencerListManager.AddOrUpdate | twitter-localization-backend/src/crawler/InfluencerListManager.py:53-58 | the loop over the list names leaves the collection, names and status as the list-by-list sync |
| InfluencerListManager.InfluencerListManager.DeleteEntriesNotInList | twitter-localization-backend/src/crawler/InfluencerListManager.py:89-90 | the collection loses the first document whose screen name is on no list |
| InfluencerListManager.InfluencerListManager.SyncAllLists | twitter-localization-backend/src/crawler/InfluencerListManager.py:42-51 | all lists are synced from an empty name list, then, if that succeeded, one document on no list is deleted; the ids stay unique |
| InfluencerListManager.SyncEntriesTail | twitter-localization-backend/src/crawler/InfluencerListManager.py:68-75 | once an entry fails, the rest of the list is not processed |
| InfluencerListManager.SyncListsTail | twitter-localization-backend/src/crawler/InfluencerListManager.py:54-57 | once a list fails, the remaining lists are not processed |
| DuplicatesRemover.FirstWithId | twitter-localization-backend/src/cleanup/DuplicatesRemover.py:27-28 | the first document in find order with a given Twitter id, or none when no document has it |
| DuplicatesRemover.ObjectIds | twitter-localization-backend/src/cleanup/DuplicatesRemover.py:28 | the ObjectIds of the found documents, in find order |
| DuplicatesRemover.SameIdSameDoc | twitter-localization-backend/src/cleanup/DuplicatesRemover.py:32 | with unique ObjectIds, removing by ObjectId removes exactly the documents named |
| DuplicatesRemover.RemovedIffLater | twitter-localization-backend/src/cleanup/DuplicatesRemover.py:27-32 | a document is removed for an id iff it has that Twitter id and is not the first one found |
| DuplicatesRemover.FoundUnaffected | twitter-localization-backend/src/cleanup/DuplicatesRemover.py:25-32 | removals for other ids do not change which documents are found for this id |
| DuplicatesRemover.RemoveStep | twitter-localization-backend/src/cleanup/DuplicatesRemover.py:25-32 | one more duplicate group handled removes exactly that id's later documents |
| DuplicatesRemover.KeptAfterAll | twitter-localization-backend/src/cleanup/DuplicatesRemover.py:21-32 | after every duplicated id is handled, what is left is each id's first document, in order |
| DuplicatesRemover.KeepFirstOnce | twitter-localization-backend/src/cleanup/DuplicatesRemover.py:21-32 | afterwards each Twitter id that occurred occurs exactly once, and no id is lost: occurrences − 1 are removed per id |
| DuplicatesRemover.KeepFirstWhich | twitter-localization-backend/src/cleanup/DuplicatesRemover.py:21-32 | a document stays iff it is the first with its Twitter id; in particular documents with a unique id are never touched |
| DuplicatesRemover.DuplicatesRemover.constructor | twitter-localization-backend/src/cleanup/DuplicatesRemover.py:7-12 | the remover works on the given users collection |
| DuplicatesRemover.DuplicatesRemover.RemoveDuplicateUsers | twitter-localization-backend/src/cleanup/DuplicatesRemover.py:14-33 | the loop over the duplicate groups leaves exactly the first document of each Twitter id, in order, with unique ObjectIds |
| KnowledgeGraph.EscapedRoundTrip | twitter-localization-backend/src/knowledgegraph/KnowledgeGraph.py:156-157 | undoubling the backslashes of an escaped name gives back the name |
| KnowledgeGraph.EscapedLength | twitter-localization-backend/src/knowledgegraph/KnowledgeGraph.py:156-157 | escaping adds exactly one character per backslash |
| KnowledgeGraph.EscapedKeepsOthers | twitter-localization-backend/src/knowledgegraph/KnowledgeGraph.py:156-157 | escaping keeps every other character, in order |
| KnowledgeGraph.NormalizedShape | twitter-localization-backend/src/knowledgegraph/KnowledgeGraph.py:152-159 | the graph record has exactly mongo_id (`str` of _id), twitter_id, the escaped name and screen name, the layer's value and the type |
| KnowledgeGraph.NormalizedFails | twitter-localization-backend/src/knowledgegraph/KnowledgeGraph.py:152-159 | normalisation succeeds iff the user has _id, id, string name and screen name, and type; a missing _id or id raises KeyError, a non-string name AttributeError |
| KnowledgeGraph.LayersDistinct | twitter-localization-backend/src/knowledgegraph/KnowledgeGraph.py:152-159 | the static and the training layer are told apart in the graph |
| KnowledgeGraph.LocalizationForUser | twitter-localization-backend/src/knowledgegraph/KnowledgeGraph.py:75-80 | the binary result is true iff the place's country_id is Switzerland's GeoNames id; otherwise the place's geonames_id |
| KnowledgeGraph.FinalDecision | twitter-localization-backend/src/knowledgegraph/KnowledgeGraph.py:103-108 | the final decision is (located in Switzerland, the edge's confidence) |
| KnowledgeGraph.ModelResult | twitter-localization-backend/src/knowledgegraph/KnowledgeGraph.py:93-97 | a model's result is the user's twitter_id, the edge's confidence, and whether the place is in Switzerland |
| KnowledgeGraph.SwissReadingsAgree | twitter-localization-backend/src/knowledgegraph/KnowledgeGraph.py:75-108 | the three readings of "located in Switzerland" agree |
| KnowledgeGraph.StaticRecordsSelected | twitter-localization-backend/src/knowledgegraph/KnowledgeGraph.py:113-118 | every record inserted by the static pass is in the static layer and normalises a user that was not yet in the graph |
| KnowledgeGraph.StaticRecordsStep | twitter-localization-backend/src/knowledgegraph/KnowledgeGraph.py:117-118 | each selected user adds its record, in collection order |
| KnowledgeGraph.MarkedAll | twitter-localization-backend/src/knowledgegraph/KnowledgeGraph.py:117-120 | after the pass every selected user normalises, and each document is its former self with in_graph set when it was selected |
| KnowledgeGraph.NothingLeftToInsert | twitter-localization-backend/src/knowledgegraph/KnowledgeGraph.py:113-120 | after the pass no user is selected again, so a second pass inserts nothing |
| KnowledgeGraph.KnowledgeGraph.constructor | twitter-localization-backend/src/knowledgegraph/KnowledgeGraph.py:11-18 | the graph starts empty over the given users collection |
| KnowledgeGraph.KnowledgeGraph.InsertUser | twitter-localization-backend/src/knowledgegraph/KnowledgeGraph.py:149-150 | the user's training-layer record is appended iff it normalises; otherwise the error is raised and the graph is unchanged |
| KnowledgeGraph.KnowledgeGraph.InsertStaticUsers | twitter-localization-backend/src/knowledgegraph/KnowledgeGraph.py:111-124 | the pass succeeds iff every selected user normalises; then each selected user is marked in_graph in place and its static record appended, in collection order; on an error at user i the users before it stay marked and their records stay in the graph, the rest untouched |
| TwitterApiUtil.CeilMinutes | twitter-localization-backend/src/twitter/twitter_api_util.py:58 | `math.ceil(a / 60)` for whole seconds: the least m with a <= 60m |
| TwitterApiUtil.CeilMinutesReal | twitter-localization-backend/src/twitter/twitter_api_util.py:58 | `math.ceil(x / 60)` for a float reset: the least m with x <= 60m |
| TwitterApiUtil.CeilMinutesSign | twitter-localization-backend/src/twitter/twitter_api_util.py:58 | the minutes left are at most 0 iff the reset time has passed, and 0 exactly within the last minute before it |
| TwitterApiUtil.CeilMinutesExact | twitter-localization-backend/src/twitter/twitter_api_util.py:58 | a whole number of minutes is not rounded |
| TwitterApiUtil.ResetInMinutes | twitter-localization-backend/src/twitter/twitter_api_util.py:58 | an int or float reset gives the rounded-up minutes until it; any other value raises TypeError |
| TwitterApiUtil.ParseRateLimitShape | twitter-localization-backend/src/twitter/twitter_api_util.py:49-63 | a well-formed node gives exactly limit and remaining copied unchanged plus reset_in_minutes, the rounded-up minutes until the reset |
| TwitterApiUtil.ParseRateLimitFails | twitter-localization-backend/src/twitter/twitter_api_util.py:56-58 | parsing succeeds iff the node is a dict with limit, remaining and a numeric reset; without limit it raises KeyError |
| TwitterApiUtil.PackageSegment | twitter-localization-backend/src/twitter/twitter_api_util.py:80 | the package is the segment between the first and the second "/" |
| TwitterApiUtil.RateLimitInfo | twitter-localization-backend/src/twitter/twitter_api_util.py:66-82 | the path is stripped; an empty one raises IndexError, one not starting with "/" fails the assertion, any other is looked up under its package |
| TwitterApiUtil.RateLimitInfoStrips | twitter-localization-backend/src/twitter/twitter_api_util.py:78-82 | surrounding whitespace does not change the endpoint looked up |
| TwitterApiUtil.StripPadded | twitter-localization-backend/src/twitter/twitter_api_util.py:78 | `strip()` removes exactly the surrounding whitespace |
| TwitterApiUtil.RelevantRateLimitsAreEndpoints | twitter-localization-backend/src/twitter/twitter_api_util.py:16-34 | the relevant report succeeds iff the three endpoints parse, and holds exactly "search", "show_user" and "rate_limit_status" with their parsed limits |
| TwitterApiUtil.SearchPath | twitter-localization-backend/src/twitter/twitter_api_util.py:27 | "/search/tweets" is looked up under the "search" package |
| TwitterApiUtil.ShowUserPath | twitter-localization-backend/src/twitter/twitter_api_util.py:28 | "/users/show/:id" is looked up under the "users" package |
| TwitterApiUtil.RateLimitStatusPath | twitter-localization-backend/src/twitter/twitter_api_util.py:29 | "/application/rate_limit_status" is looked up under the "application" package |
| TwitterApiUtil.RateLimitResetIsInfo | twitter-localization-backend/src/twitter/twitter_api_util.py:85-94 | the reset is exactly the endpoint's reset_in_minutes, and fails iff the info fails, with the same error |
| User.DictSet | twitter-localization-backend/src/model/User.py:13-14 | an assignment keeps an existing key in place with the new value, or appends a new key; distinct keys stay distinct |
| User.FilledDistinct | twitter-localization-backend/src/model/User.py:10-14 | with distinct keys, assigning each property in turn gives exactly the node's properties in the node's order |
| User.Pairs | twitter-localization-backend/src/model/User.py:22-24 | each property prints as key "=" str(value), in property order |
| User.UserStringSmall | twitter-localization-backend/src/model/User.py:20-25 | no properties print as "User()", one as "User(k=v)" |
| User.UserStringWrapped | twitter-localization-backend/src/model/User.py:25 | the printed form is wrapped in "User(" and ")" |
| User.User.constructor | twitter-localization-backend/src/model/User.py:16-18 | a new user has node id -1 and no properties |
| User.User.Repr | twitter-localization-backend/src/model/User.py:27-28 | `repr` is `str` |
| User.ParseFromGraphNode | twitter-localization-backend/src/model/User.py:3-14 | a new user with the node's id and the node's properties assigned in turn; with distinct keys exactly the node's properties |
| Constants.CrawlStatusValuesDistinct | twitter-localization-backend/src/model/constants.py:4-11 | the seven crawl statuses have seven different stored values |
| Constants.UserTypeValuesDistinct | twitter-localization-backend/src/model/constants.py:14-16 | "standard" and "influencer" are different stored values |

## Left out

- Concurrency: threads and locks are not modelled as such. Each worker body is one atomic method and each lock is a held/free flag. The 2-second acquire in `buildmetamodel` succeeds exactly when the lock is free, since no other thread can release it in between. Interleavings are not modelled.
- Flask plumbing is left out because it is framework code: routing, JSON serialisation of responses, the demo echo routes and the `/statistics` route.
- Storage: MongoDB and Neo4j access is abstracted. Collections are `Mongo.Store` values. Cursors are walked in collection order. Neo4j query results are represented by the nodes and records passed in, so `.single()` and record indexing are not modelled.
- Mongo queries are simplified. Query matching is field equality on the model's `Json` values. Array-membership matching, the aggregation `$sort` and projections are not modelled.
- Equality is structural on `Json` values everywhere: in Mongo matching, in Python `in` tests and in `set()` (`Common.SetOf`, used by the interaction extractors and hashtag similarity). Python's numeric equality and hashing, under which `1`, `1.0` and `True` are one element, is not modelled.
- The Twitter network client (`TwitterApiBinding`) is left out because it is network I/O with sleeps and `exit(1)`. So are the crawling loops in `UserManager` (`fetch_*`, `collect_*`, `update_influencers_in_database`) and `ensure_fetch_twitter_user`, which passes the builtin `id` to `get_friend_ids` at crawler/UserManager.py:293.
- UserManager.UserManager.AddGeonamesInformation: at crawler/UserManager.py:421 the source tests the bound method `ex.is_hourly` without calling it. So every rate-limit error takes the waiting branch, and the model does the same. The model stops at that branch (outcome `RetryAfterHourlyWait`), because the sleep and the recursive retry depend on the clock and the network.
- HTTP requests and URL encoding in the GeoNames client, file reads and writes, and clock reads are parameters, because they are I/O.
- `random.shuffle` is a parameter: any function from the list to a list. Configuration values are parameters, and so are `GEOID_SWITZERLAND` and the localization constants.
- The hashtag normaliser (`unidecode` plus lower-casing) is a parameter function, because it is a foreign library.
- SpaCy-based extractors, the sklearn classifier, the metamodels and the Mongo-count extractors (`SwissFriendsRatio`, `SwissInfluencersFollowedRatio`) are not part of this model. They are glue around foreign libraries or thin count queries.
- Floating point is modelled as exact `real` arithmetic: ratios, confidences, `math.ceil` of a float and timestamps in seconds. Rounding, NaN and infinities are not represented.
- SingleFeatureBinaryThreshold.SingleFeatureBinaryThreshold.TrainFields: requires that the training rows hold both classes, like `Train` below, for the same reason.
- SingleFeatureBinaryThreshold.SingleFeatureBinaryThreshold.Train: requires that the training rows hold both classes. The source's behaviour outside that case is not modelled: with one class missing, numpy produces a NaN average, and an empty training set raises ZeroDivisionError at localization/classifiers/SingleFeatureBinaryThreshold.py:32.
- MetamodelTest's `_evaluate_confidence` min/max/mean statistics and the `test()` orchestration (printing, timing, calls to `classify`) are left out; the confusion matrix, the metrics and the confidence performance index are modelled.
- `str()` is modelled for None, bools, ints, strings and ObjectIds. A float, list or dict renders as the empty string in `User`, `KnowledgeGraph` and status messages, because Python's float and container formatting is not modelled.
- `int()` of a string accepts surrounding whitespace as Python does, then an optional sign and ASCII decimal digits. Python's `_` digit separators and non-ASCII digits are not modelled.
- Metamodel.Lower: `str.lower()` is modelled on ASCII letters only; non-ASCII case mapping is left out. The names it is applied to are the ASCII literals of the metamodel classes.
- ApiContext.ApiContext.constructor: the metamodels directory is read once and fixed for the context's lifetime. The source lists it again on each build and localize request (api/Router.py:54 and 75), while statuses and locks exist only for the names present at construction (api/ApiContext.py:16-23). A module file added later would pass the catalog check and then raise KeyError on the lock lookup at api/Router.py:56. That path is not modelled.
- UserManager.FetchUncrawledFollowerIds: the source turns a set into a list, whose order is unspecified. The contract states the members and the absence of duplicates, not an order.
- Exception messages are reproduced only in part. A `KeyError` carries the missing key. An `AttributeError` or `TypeError` keeps its exception name, and its message is empty or a short description.
- `InfluencerListManager`'s sleeps and progress printing, and `twitter_api_util.print_relevant_rate_limits`, are output only and are left out.
- Layers.py is not part of this model; the two layer values it defines enter as the distinct constants "static" and "training".
- `add_follows_rel_for_influencers` and the KnowledgeGraph methods whose bodies only call the Neo4j binding are left out: their effect lives in the database.
- OfflineDataInserter's `add_geonames_feature` reads a file and loops over it; only its per-place step `_insert_feature_code` is modelled.
- `timing.get_millis_timestamp` reads the clock; the millisecond value is a parameter of `Metamodel.InstanceId`.

## Findings

| source | as written | input that shows it | evidently intended | confidence | as-written member | corrected member |
|---|---|---|---|---|---|---|
| twitter-localization-backend/src/util/collections.py:4 | the last chunk is `target_list[n*c:-1]`, which stops before the final element | `[1, 2, 3]` with chunk size 2 gives `[[1, 2], []]`: the 3 is lost | the last chunk runs to the end of the list, so the chunks concatenate back to the input | not executed | Collections.DropsLastElement | Collections.SplitIntoChunksRoundTrip |
| twitter-localization-backend/src/localization/featureextractors/SwissTweetInteraction.py:45-49 | the aggregate share divides by the total number of interactions without a guard | a user with one tweet that has no mentions, no retweet and no reply raises ZeroDivisionError | a user without interactions gets share 0, as individual mode does with `max(len, 1)` | not executed | SwissTweetInteraction.AggregateDividesByZero | SwissTweetInteraction.AggregateInteractionsGuarded |

# mqtt2prometheus: a configuration that validates gives consistent metrics

mqtt2prometheus turns MQTT messages into Prometheus metrics by rules from a configuration.
`Config.Validate` predicts, for every metric family, the label names, the help text and the kind its
samples will have, and refuses a configuration in which two uses of a family disagree. The rules are
compiled and evaluated by other code, on other label maps, and the samples land in a store keyed by
a flattened string, written by one concurrent consumer per source. This project models all three
layers and proves that they agree. Under a configuration Validate accepts, in every run of the router
and at every moment:

- the families of every snapshot agree with themselves, provided the sources cannot overwrite each
  other's series, and a whole scrape is good when moreover no rule takes the name of one of the
  program's own metrics; NUL-free heartbeat names, which Validate does not demand, ensure the first;
- each series shows the writes filed under its identity, provided no series can get two kinds, and
  each metric name with labels shows its own writes as long as no other name and labels share its
  identity, which NUL-free label values ensure; counters are exact reset-corrected totals in exact
  arithmetic, and sums of float additions otherwise;
- messages are lost only where the program counts them as dropped or leaves them in a queue at Stop.

And of the configurations it refuses: the problems reported are exactly the defects there are.

## How the model is laid out

| file | subject |
|---|---|
| `Text.dfy` | byte-wise order, sorted lists of a set, sorting, join and split |
| `Library.dfy` | what is taken from Go: regular expressions, JSON decoding, number formatting, rounding |
| `Config.dfy`, `Labels.dfy`, `Validate.dfy` | package config: data, templates and label names, the validating pass |
| `Acceptance.dfy` | what an accepted configuration is, and that Validate decides it |
| `Uses.dfy` | which metrics a configuration uses, place by place |
| `Report.dfy`, `Defects.dfy` | the list of problems as a sum of parts, and the defects it names, one by one |
| `Payload.dfy`, `Rules.dfy` | package rules: the memoised payload, label and value extraction, rules |
| `RuleLaws.dfy` | what labels, values and rules come to, from their declarations |
| `Store.dfy`, `StoreLaws.dfy` | package store, and what the store means |
| `Clashes.dfy` | which metrics can share a series, and the exact condition on names for families to agree |
| `Source.dfy`, `Topics.dfy` | compiled sources and what a message does; owned topics against MQTT filters |
| `SourceLaws.dfy` | what a source does, from its declaration, and which values its writes carry |
| `Soundness.dfy` | from acceptance to consistent stores |
| `Router.dfy`, `RouterLaws.dfy`, `RouterObject.dfy` | the router as atomic steps, laws of every run, the router as an object |
| `Scrape.dfy` | the program's own families gathered with the snapshot |
| `Discovery.dfy` | the emitter and the discovery of topic prefixes |
| `Limits.dfy`, `PayloadLimits.dfy` | concrete configurations and runs that meet, and that miss, the premises of the theorems |

Code that loops or updates fields is a method or a class, proved against a function of its inputs or
of the old state; the theorems are lemmas about those functions. A `char` stands for one byte of a Go
string. A compiled regular expression is a value with group names and a match function; nothing is
assumed of it but that group 0 is unnamed, named groups are distinct, and a match reports one string
per group. JSON decoding, number parsing and formatting are arbitrary functions. Numbers are reals,
and every float addition or multiplication is the exact result put through a function `round`; NaN
and the infinities are outside the model. The concrete runs of `Limits.dfy` and `PayloadLimits.dfy` are
stated for every library that agrees with Go on the few strings they use. Map iteration takes any key next, and sorting promises some
ordered permutation, so no result depends on either. Time is passed in.

## Findings

- `last_updated_metric` of a source is the one metric name Validate does not check against a pattern.
  With a NUL in it the name can spell the identity of another series and overwrite its help text:
  `Limits.NulHeartbeatBreaksAFamily` is an accepted configuration and a run of one message after which
  a family disagrees with itself. Two exact conditions:
  - on names alone, so that Validate could check it: `Clashes.HarmlessClashes`, no two uses of
    different metrics that can spell one identity differ in help or kind. Over all label values
    families agree if and only if it holds (`Soundness.AcceptedFamiliesAgreeExactly`), and whether two
    uses can spell one identity is decided from their names (`Clashes.ClashIsDecided`);
  - on the writes the sources can really make: `Soundness.NeverOverwritten`. Over those, families agree
    if and only if it holds (`Soundness.PossibleFamiliesAgreeExactly`). It is the premise of the
    theorems, and weaker: `Limits.ClashMayBeOutOfReach` has constant labels that never spell the clash.

  NUL-free heartbeat names meet both (`Soundness.CleanHeartbeatsSuffice`), and a NUL need not break
  either (`Limits.NulHeartbeatMayBeHarmless`).
- Validate accepts a rule or heartbeat with the name of one of the program's own metrics, and one
  message then makes every scrape disagree with itself (`Scrape.OwnNameIsAccepted`). Together with
  harmless clashes, apart from those names is the exact condition for scrapes
  (`Scrape.ScrapesGatherExactly`).
- A JSON label value may contain a NUL. Two label maps can then have one identity, and the gauge of one
  shows the value of the other: `PayloadLimits.NulValuesShareASeries`, under an accepted configuration
  without a clash. A name and labels show their own writes when their identity is not shared
  (`RouterLaws.EveryKeyShowsItsWrites`), and an identity collects exactly its own writes if and only if
  it is not shared (`Soundness.KeyHistory`).
- docs/configuration.md says a counter that drops is a restart. A drop to a negative value lowers the
  exported counter: `PayloadLimits.NegativeDropLowersACounter`, in a run. In exact arithmetic a
  counter never falls over a run if and only if no reading is both a drop and negative
  (`StoreLaws.CounterNeverFallsExactly`); with rounding that still suffices
  (`RouterLaws.CountersNeverFall`).
- Validate lets a rule's metric have the name of its source's heartbeat, so a Set under a heartbeat's
  name need not be a time: `Limits.HeartbeatNameMayBeAMetric`. Under a name that is no rule's metric it
  always is, in every run (`RouterLaws.LoggedHeartbeats`).
- The router owns less than the broker delivers in two cases: the parent level of a filter ending in
  `/#`, which the filter matches (`Topics.OwnsCoversTheFilter`, exact, and
  `Topics.ParentIsMatchedNotOwned`), and every shared subscription
  (`Topics.SharedSubscriptionOwnsNothing`). Such messages are not counted as dropped. It owns more
  than the filter matches unless the filter is a prefix of whole levels followed by `#` or `+/#`
  (`Topics.OwnsOnlyTheFilterExactly`): a source of filter `a/b` owns `a/bc`.
- A prefix that meets a full buffer in `discover` is never announced later: `Discovery.PrefixIsLost`.
  The output is complete exactly when that never happened (`Discovery.SoloOutputIsFirstSeen` for one
  observer, `Discovery.NoPrefixIsLostExactly` for any number).
- The snapshot's order is determined exactly when no two samples tie
  (`RouterLaws.EverySnapshotIsDetermined`). Validation and NUL-free label values exclude ties; without
  either they occur (`Limits.DifferentLabelNamesTie`, `PayloadLimits.NulValuesTie`).

## Model

| member | source | states |
|---|---|---|
| RouterLaws.ValidatedScrapesNeverDisagree | internal/config/validate.go:266-336 | in every run of the router under an accepted configuration, at every moment, samples of a snapshot that share a name agree on label names, help and kind, heartbeats included, and no two samples are the same series, provided the sources cannot overwrite each other's series |
| RouterLaws.EverySeriesShowsItsWrites | internal/store/store.go:50-83 | in every run under an accepted configuration in which no series can get two kinds, each series shows the writes filed under its identity: a gauge the last value as a float64, a counter the last reading plus those before each drop, added in floats, which in exact arithmetic is its first value plus all reset-corrected increments |
| RouterLaws.EveryKeyShowsItsWrites | internal/store/store.go:50-83 | under any accepted configuration a metric name with labels shows its own writes when its identity is not shared, which it never is by NUL-free writes |
| RouterLaws.CountersNeverFall | internal/store/store.go:76-83 | between any two moments of such a run a counter's exported value does not fall, rounding included, while no reading of it is both a drop and negative |
| RouterLaws.EverySnapshotIsDetermined | internal/store/store.go:85-109 | in every run under an accepted configuration the snapshot is a function of the store, whatever the map order and the unstable sort do, exactly when no samples tie, and none do when names and label values are NUL-free |
| RouterLaws.InterleavingDoesNotMatter | internal/app/source.go:69-114 | with disjoint NUL-free metric names, at every moment of any interleaving, the store is the one made by the Sets of one source after another, each source having made those its messages ask for up to the ones still pending |
| RouterLaws.AcceptedIsTakenThenQueued | internal/app/router.go:39-57 | over every run, a source's accepted messages are those its consumer took, in order, then the queue, which never exceeds 1024; all are owned |
| RouterLaws.OffersAreAcceptedOrDropped | internal/app/router.go:39-57 | before Stop, the owned deliveries of a source are its accepted messages, in order, plus the refused ones |
| RouterLaws.CountersAreRight | internal/app/router.go:48-55 | at every moment the received counter of a source plus its messages sent and not yet counted is its accepted messages, and the same for dropped and refused messages |
| RouterLaws.CountersAreExact | internal/app/router.go:39-57 | whenever no Dispatch is under way, so always after Stop, the received and dropped counters are exactly the accepted and the refused messages |
| RouterLaws.ErrorsAreRight | internal/app/router.go:112-123 | at every moment the error counters and the problems still to count are together one error, by source and reason, for every problem of every message taken |
| RouterLaws.ErrorsAreExact | internal/app/router.go:112-123 | whenever no consumer is busy, so always once Stop has returned, the error counters are exact |
| RouterLaws.AcceptedNamesAreDistinct | internal/config/validate.go:27-31 | accepted configurations give every source a counter of its own |
| RouterLaws.StopLosesOnlyTheQueue | internal/app/router.go:87-110 | once Stop has returned every message a consumer took has made all its writes; only queued messages are lost |
| RouterLaws.StopReturns | internal/app/router.go:87-110 | from every reachable state with the feeds detached and the consumers cancelled, steps the consumers take on their own end all of them, and no message is taken on the way |
| RouterLaws.StoppedIsFinal | internal/app/router.go:87-110 | after Stop no further delivery changes store, queues or counters |
| RouterLaws.NothingEndsUnasked | internal/app/router.go:87-110 | consumers are cancelled exactly by a cancellation, the feeds are detached exactly by a Stop that finds no Dispatch under way, and a consumer has returned exactly when it was cancelled and idle at some exit |
| RouterLaws.MessagesAreHandledInOrder | internal/app/router.go:112-123 | at every moment what is left of the message in hand is its last Sets and its last problems, and all of its problems while a Set is left |
| RouterLaws.RunWritesArePossible | internal/app/router.go:101-113 | the store of a run is exactly the result of its logged Sets, each asked for by a message its source took |
| RouterLaws.LoggedIsDelivered | internal/app/router.go:101-113 | every Set of a run is one of those its feed's messages ask for |
| RouterLaws.LoggedHeartbeats | internal/app/router.go:101-123 | every Set of a run belongs to a message its feed took: under a name that is no metric_name of the source it is a gauge with the time that message was taken, under one that is no heartbeat name the number a rule read from it |
| RouterLaws.HeartbeatsShowDeliveryTimes | internal/app/source.go:97-111 | in every run under an accepted configuration that keeps kinds, a series written only under names that are no metric_name shows the time a message was taken, as a float64 |
| Router.RunKeepsState | internal/app/router.go:39-123 | every run keeps the queue, history, counter and store invariants |
| Router.StepKeepsState | internal/app/router.go:39-123 | every atomic step keeps them |
| RouterObject.LiveRouter.NewRouter | internal/app/router.go:35-37 | a new router has no feeds |
| RouterObject.LiveRouter.Start | internal/app/router.go:59-85 | one empty bounded queue per source, all attached |
| RouterObject.LiveRouter.Dispatch | internal/app/router.go:39-57 | Dispatch is the run that offers the message to every attached feed in order |
| RouterObject.LiveRouter.Consume | internal/app/router.go:101-110 | one turn of consume is the exit step or one whole message handled, chosen as the select may |
| RouterObject.LiveRouter.Handle | internal/app/router.go:112-123 | handle makes the source's writes and counts each problem by source and reason |
| RouterObject.LiveRouter.Stop | internal/app/router.go:87-99 | Stop detaches the feeds and cancels the consumers, or only detaches when never started |
| RouterObject.RunOfHandling | internal/app/router.go:106-123 | the steps of one uninterrupted message add up to its writes in order and its error counts |
| RouterObject.RunInTurn | internal/app/router.go:101-123 | any owned messages can be delivered and handled in turn, making exactly the Sets they ask for |
| RouterObject.RunOfCounts | internal/app/router.go:119-122 | counting a message's problems in a row adds each by source and reason |
| Soundness.FamiliesAgreeInEveryStore | internal/config/validate.go:266-336 | for any sequence of writes the compiled sources can make, all series of a metric agree on label names, help and kind, provided no source can overwrite another's series |
| Soundness.ScrapesAreConsistent | internal/exporter/collector.go:19-33 | the same for the samples a scrape lists, with no duplicate series |
| Soundness.AcceptedFamiliesAgreeExactly | internal/config/validate.go:266-336 | for every accepted configuration, over all label values, families agree if and only if no clash by name differs in help or kind |
| Soundness.PossibleFamiliesAgreeExactly | internal/config/validate.go:266-336 | for every accepted configuration, over the writes its sources can make, families agree if and only if no possible write overwrites a series of another metric that has a second series |
| Soundness.HarmlessNeverOverwrites | internal/store/store.go:134-147 | harmless clashes rule such writes out |
| Soundness.KindsNeverChangeExactly | internal/store/store.go:63-73 | no series ever changes kind, whatever the sources write, exactly when no two possible writes give one series two kinds |
| Soundness.HarmlessKindsAreKept | internal/store/store.go:63-73 | clashes of one kind rule that out |
| Clashes.FamiliesAgreeExactly | internal/store/store.go:50-74 | the same for any uses that agree name by name |
| Clashes.ClashIsDecided | internal/store/store.go:134-147 | whether some label values give two metrics one identity is decided from their names and label names |
| Clashes.SpelledHasValues | internal/store/store.go:134-147 | a string the decision accepts is an identity of the metric for some label values |
| Clashes.IdentityIsSpelled | internal/store/store.go:134-147 | every identity of the metric is accepted |
| Clashes.NamesApartNeverClash | internal/store/store.go:134-147 | metrics whose names differ before the first NUL cannot clash |
| Clashes.KindsNeverChange | internal/store/store.go:63-73 | when all writes to each series carry one help and kind, no series changes kind |
| Clashes.HarmlessGivesOneShape | internal/store/store.go:63-73 | checked writes with harmless clashes are so |
| Clashes.CleanGivesOneShape | internal/store/store.go:63-73 | NUL-free checked writes are so without any condition |
| Soundness.SourceWritesAreChecked | internal/app/source.go:69-114 | every write of a compiled source has the name, label names, help and kind of a use the validator compared |
| Soundness.RuleWritesAreChecked | internal/app/source.go:95-99 | a rule's sample and heartbeat have the shapes predicted for that rule |
| Soundness.HeartbeatIsChecked | internal/app/source.go:102-111 | a source's heartbeat has the shape predicted for it |
| Soundness.PredictedLabels | internal/rules/rule.go:39-59 | the label names the validator predicts are those the compiled rule uses, also when rule labels override source labels |
| Soundness.AcceptedConfigCompiles | internal/app/source.go:26-53 | after Validate compileSources cannot fail, the global QoS is set, every QoS is at most 2, and every index the rules use is in bounds |
| Soundness.CompiledSourcesAre | internal/app/source.go:26-53 | the compiled sources of an accepted configuration are, in order, the compiled form of the declared ones |
| Soundness.TemplatesAreBound | internal/rules/rule.go:69-107 | on a match every automatic label and every template reference has a captured value |
| Soundness.CleanHeartbeatsNeverClash | internal/config/validate.go:117-125 | accepted names and NUL-free source heartbeats cannot clash |
| Soundness.CleanHeartbeatsSuffice | internal/config/validate.go:117-125 | under an accepted configuration with NUL-free source heartbeats nothing is overwritten and no series gets two kinds |
| Soundness.SeriesExports | internal/store/store.go:63-83 | what every series shows after any possible writes |
| Soundness.KeyExports | internal/store/store.go:63-83 | what a name with labels shows when its identity is not shared |
| Soundness.CleanIsUnshared | internal/store/store.go:134-147 | no identity is shared by NUL-free writes |
| Soundness.CleanStoresHaveNoTies | internal/store/store.go:85-109 | after possible NUL-free writes no two samples tie |
| Soundness.KeyHistory | internal/store/store.go:50-61 | the writes filed under an identity are those with its name and labels exactly when no other write has that identity |
| Acceptance.ValidateDecidesAcceptance | internal/config/validate.go:16-41 | Validate reports nothing exactly when every field is well formed, source names differ, and all uses of every family in all sources agree pairwise on label names, help and kind |
| Acceptance.FirstShapeDecides | internal/config/validate.go:300-336 | comparing with the first recorded shape finds a problem exactly when some two uses differ |
| Acceptance.JoinedNamesAreFaithful | internal/config/validate.go:277 | label name lists joined by spaces are equal only if the lists are |
| Acceptance.ShapesAreFaithful | internal/config/validate.go:277-290 | agreement of recorded shapes is agreement of label lists, help and kind |
| Acceptance.SourcesClean | internal/config/validate.go:24-34 | the pass over the sources adds no problem exactly when they are well formed, named apart and consistent |
| Acceptance.SourceClean | internal/config/validate.go:90-114 | Source.validate accepts exactly the well-formed sources |
| Acceptance.RuleClean | internal/config/validate.go:116-140 | Rule.validate accepts exactly the well-formed rules |
| Acceptance.MatchClean | internal/config/validate.go:142-172 | validateMatch accepts exactly compiling expressions whose named groups are label names, and returns those groups |
| Acceptance.LabelsClean | internal/config/validate.go:174-199 | validateLabels accepts exactly valid names that clash with no capture and refer to captures only |
| Acceptance.LabelClean | internal/config/validate.go:201-232 | Label.validate accepts exactly well-formed labels |
| Acceptance.RecordingIgnoresProblems | internal/config/validate.go:33 | what the shared map records does not depend on the problems found so far |
| Defects.ValidateReportsTheDefects | internal/config/validate.go:16-41 | a problem is in the list if and only if the configuration has that defect at that place: a field, label, expression, value or rule that breaks its own check, a source name used before with the path of its first user, or a use of a metric whose labels, help or kind differ from the first use of that name |
| Defects.SourceReported | internal/config/validate.go:90-114 | the problems a source adds are its own defects, those of its labels and those of each rule |
| Defects.RuleReported | internal/config/validate.go:116-140 | the problems a rule adds are its own defects and those of its expression, value and labels |
| Defects.LabelReported | internal/config/validate.go:201-232 | the problems a label adds are its defects |
| Defects.ValueReported | internal/config/validate.go:234-264 | the problems a value adds are its defects |
| Report.ProblemsAreTheReport | internal/config/validate.go:16-41 | the list is the process problems, then for each source its own, its duplicate name and its inconsistent metrics, each part the same whatever came before it |
| Report.SourceAppends | internal/config/validate.go:90-114 | a source appends a list that does not depend on the problems before it |
| Report.RuleAppends | internal/config/validate.go:116-140 | so does a rule |
| Report.RecordingAppends | internal/config/validate.go:266-309 | so does the comparison of metrics, and what is recorded for a name is its first use |
| Report.MoreSourcesOnlyAppend | internal/config/validate.go:24-34 | one more source leaves the problems of the others as they are, in front |
| Uses.UsesAreDeclared | internal/config/validate.go:266-294 | the compared uses are those the files declare, in the order of the files: each rule that compiles, then its heartbeat, and after the rules the heartbeat of the source |
| Uses.OneUse | internal/config/validate.go:274-291 | a place has one use, with the sorted label names that some label map declares or some unreferenced named group gives |
| Validate.Validate | internal/config/validate.go:16-41 | the whole list of problems, in order |
| Validate.ValidateProcess | internal/config/validate.go:43-88 | the problems of the process fields |
| Validate.ValidateSource | internal/config/validate.go:90-114 | the problems of a source |
| Validate.ValidateRule | internal/config/validate.go:116-140 | the problems of a rule |
| Validate.ValidateMatch | internal/config/validate.go:142-172 | the capture names and the problems of a match expression |
| Validate.ValidateLabels | internal/config/validate.go:174-199 | the problems of a label map, by sorted name |
| Validate.ValidateLabel | internal/config/validate.go:201-232 | the problems of a label |
| Validate.ValidateMapValues | internal/config/validate.go:225-229 | one problem for each empty map value, whatever the iteration order |
| Validate.ValidateValue | internal/config/validate.go:234-264 | the problems of a value |
| Validate.ShapeTable.ValidateMetricConsistency | internal/config/validate.go:266-294 | the shared map and the problems after recording all uses of a source |
| Validate.ShapeTable.Record | internal/config/validate.go:300-336 | the first shape is kept, later ones are compared with it |
| Labels.PrintOfScan | internal/config/labels.go:8 | printing the pieces of a template gives it back, and the split is leftmost |
| Labels.ScanOfPrint | internal/config/labels.go:8 | the split is the only leftmost one |
| Labels.RefAtFindsTheMatch | internal/config/labels.go:8 | the scanner finds a reference at a position exactly when the pattern matches there |
| Labels.TemplateRefs | internal/config/labels.go:10-19 | exactly the reference list, in order |
| Labels.RefsAreIdentifiers | internal/config/labels.go:10-19 | the references are the reference pieces, all valid label names |
| Labels.ExpansionIsPiecewise | internal/config/labels.go:21-25 | inserted text is never scanned again |
| Labels.ExpansionDependsOnRefs | internal/config/labels.go:21-25 | expansion depends on the values of the referenced names only |
| Labels.SelfExpansion | internal/config/labels.go:21-25 | everything outside the references is kept |
| Labels.LabelNames | internal/config/labels.go:27-55 | the list of declared names and captures no template consumes, in the order of the first differing byte |
| Labels.LabelNamesExactly | internal/config/labels.go:27-55 | a name is a label name exactly when some label map declares it, or it is a capture no template refers to |
| Labels.NamePatterns | internal/config/validate.go:350-351 | the two name patterns, by character codes |
| Labels.CaptureNames | internal/config/labels.go:57-67 | the named groups in order |
| Labels.PredictionMatchesMerge | internal/rules/rule.go:39-58 | labels predicted from two maps equal labels of the merged map when the source's refer to nothing |
| Payloads.Payload.Parse | internal/rules/payload.go:46-57 | the decoded body, decoded at most once |
| Payloads.Payload.Walk | internal/rules/payload.go:19-44 | the value at the path in a freshly decoded body |
| Payloads.WalkOfConcat | internal/rules/payload.go:25-37 | walking a path is walking its parts in turn |
| Payloads.WalkFollowsKeys | internal/rules/payload.go:25-37 | a walk finds a value if and only if the keys of the path lead to it from object to object and it is not null |
| Rules.ResolveLabel | internal/rules/label.go:36-62 | a label resolved on the shared payload is the one of a body decoded on its own |
| RuleLaws.LabelHasValue | internal/rules/label.go:36-75 | a declared label has a value if and only if it reads a text, the expanded template or the string, number or truth value at the path, and with a map that text is a key with this value, without one the text is the value |
| RuleLaws.LabelIsAbsent | internal/rules/label.go:36-62 | it is absent if and only if the path is, or the text read is no key of its map |
| RuleLaws.LabelFails | internal/rules/label.go:51-75 | it fails if and only if the body is not JSON or the value at the path is an object or array |
| RuleLaws.MappedLabelsStayInTheMap | internal/rules/label.go:42-48 | each label of a produced sample that is declared with a map has one of the values of the map |
| Rules.CompileLabels | internal/rules/label.go:82-96 | sorted names and an extractor for each label, whatever the map order |
| Rules.ResolveAll | internal/rules/label.go:98-115 | labels resolved in order until one fails or is absent |
| Rules.ResolvedNames | internal/rules/label.go:98-115 | a resolved map has exactly the asked names |
| Rules.ResolutionStops | internal/rules/rule.go:101-119 | after the first failing or absent label the others change nothing |
| RuleLaws.FirstMissingDecides | internal/rules/rule.go:98-122 | the first name that fails or is absent decides: its error, with its name, or a skipped sample |
| Rules.Extract | internal/rules/value.go:57-85 | the value read from the shared payload is the one of a body decoded on its own |
| RuleLaws.ReadsAsNumber | internal/rules/value.go:57-129 | a declared value reads as a number if and only if it is one before scaling: the JSON number, 1 or 0 for true or false, or of a text, cut to the first group of the regex, the value in the map or the parsed number; times the scale, rounded |
| RuleLaws.ReadsAsNothing | internal/rules/value.go:57-129 | it is skipped if and only if the path is absent or the text is no key of the map |
| RuleLaws.ReadsAsError | internal/rules/value.go:57-129 | it fails if and only if the body is not JSON, the regex does not match, or what is left is no number, each with its own error |
| RuleLaws.RegexReadsItsGroup | internal/rules/value.go:104-112 | with a regex a raw value reads as its first group reads without one, so bodies with equal first groups read alike |
| Rules.Compile | internal/rules/rule.go:28-61 | the compiled rule, from the merged labels |
| RuleLaws.CompiledFields | internal/rules/rule.go:28-61 | a rule compiles if and only if both expressions do, to its declared fields; the match expression is reported first |
| Rules.CapturedKeys | internal/rules/rule.go:69-75 | the captured values are those of the named groups |
| RuleLaws.CapturedText | internal/rules/rule.go:69-75 | each named group has the text it matched |
| Rules.Apply | internal/rules/rule.go:63-96 | the outcome on a shared payload is the rule's outcome on its own |
| RuleLaws.OutcomeOf | internal/rules/rule.go:63-96 | without a match nothing; else the error of the value, then that of the labels, a skip when either is absent, else a sample with both |
| Rules.ProducedLabels | internal/rules/rule.go:98-122 | a produced sample has exactly the rule's label names |
| Rules.ProducedValues | internal/rules/rule.go:39-122 | each label of a produced sample has the value of the rule's declaration of that name, failing that of the source's, failing that of the captured group |
| Rules.ResolvedValues | internal/rules/label.go:98-115 | each name of a resolved map has the value of its own extractor, or the captured text |
| Sources.CompileSources | internal/app/source.go:26-53 | the compiled sources, or the first rule that does not compile |
| SourceLaws.SourceFields | internal/app/source.go:29-38 | a compiled source has the declared fields, its own quality of service and broker before the global ones |
| SourceLaws.RulesCompileInOrder | internal/app/source.go:40-47 | rules compile in order up to the first that does not, reported with its index and which expression failed |
| SourceLaws.SourcesCompileInOrder | internal/app/source.go:26-53 | so do sources, reported with the path of the file |
| Sources.TopicPrefix | internal/app/source.go:55-63 | the longest wildcard-free prefix of the filter |
| Sources.Apply | internal/app/source.go:69-114 | with one shared payload, exactly the writes and problems of evaluating each rule on its own, in order, and the source heartbeat |
| SourceLaws.RuleDoes | internal/app/source.go:77-100 | a declared rule matches when its expression does; a produced sample is written under metric_name with the number read, then under last_updated_metric with the time, both with its labels |
| SourceLaws.SourceDoes | internal/app/source.go:69-114 | beyond its rules a source writes its own heartbeat, with the time, or reports its error, exactly when some rule matched |
| SourceLaws.HeartbeatShowsTheTime | internal/app/source.go:97-99 | after a message that a rule turns into a sample, the heartbeat of the rule with the labels of the sample holds the time, and shows it rounded as long as the series was only a gauge, unless a later write of the message covers it |
| SourceLaws.SeriesReceivesTheReading | internal/app/source.go:95 | and the series of the metric with those labels has received the number read |
| SourceLaws.WritesAreSamplesOrHeartbeats | internal/app/source.go:95-111 | every write is a sample with the number its rule read from the message, or a heartbeat with the time |
| SourceLaws.LastWriteStays | internal/store/store.go:50-74 | a series holds value, kind and help of the last write to it |
| SourceLaws.ReasonIsOfTheRoot | internal/app/source.go:142-153 | the reason counted for an error is that of the error it wraps, one reason for each kind |
| Sources.RemovingARule | internal/app/source.go:77-100 | whatever one rule does, the writes and problems of the others are the same without it |
| Sources.EffectOfConcat | internal/app/source.go:77-100 | a split of the rule list splits the effect |
| Sources.MetricNames | internal/app/source.go:124-140 | the metric names of a source |
| Sources.MetricNamesExactly | internal/app/source.go:124-140 | a metric name is that of a rule, of the heartbeat of a rule or of the heartbeat of the source |
| Sources.SourceWritesItsMetrics | internal/app/source.go:124-140 | a source writes none but its metric names |
| Topics.OwnsCoversTheFilter | internal/app/source.go:55-67 | of the topics a filter matches, a source owns all except exactly the topic whose name with /# is the filter |
| Topics.ParentIsMatchedNotOwned | internal/app/source.go:55-67 | a filter ending in /# matches its parent topic, which no source with it owns |
| Topics.OwnsOnlyTheFilterExactly | internal/app/source.go:55-67 | a source owns only topics its filter matches exactly when the filter is a prefix of whole levels followed by # or +/# |
| Topics.SharedSubscriptionOwnsNothing | internal/app/source.go:55-67 | a shared subscription's source owns no ordinary topic |
| SeriesStore.Store.Set | internal/store/store.go:50-74 | the contents after Set, every other series unchanged |
| SeriesStore.Series.ObserveCounter | internal/store/store.go:76-83 | a drop carries the last value into the offset |
| SeriesStore.Store.Snapshot | internal/store/store.go:85-109 | every entry once, by name and then by NUL-joined values, each in the order of the first differing byte |
| SeriesStore.OrderedIsInOrder | internal/store/store.go:100-106 | sorted samples go up by name, then by NUL-joined values: at the first difference the earlier has the smaller byte or has ended |
| Text.LessIsFirstDifference | internal/store/store.go:100-106 | the order of strings is that of the first differing byte, a proper prefix before the longer string |
| SeriesStore.SampleLessIsStrictWeakOrder | internal/store/store.go:100-106 | the comparator is a strict weak order |
| SeriesStore.Store.Len | internal/store/store.go:111-116 | the number of series |
| SeriesStore.Flatten | internal/store/store.go:118-132 | the sorted names and their values |
| SeriesStore.Identity | internal/store/store.go:134-147 | the NUL-separated identity |
| StoreLaws.IdOfInjective | internal/store/store.go:118-147 | for NUL-free names and values the key determines metric name and labels |
| StoreLaws.FamilyOfIdentity | internal/store/store.go:134-147 | the part of an identity before its first NUL is that of the metric name |
| StoreLaws.StoreStaysWellKeyed | internal/store/store.go:57-61 | each entry's name, label names and values spell its own key |
| StoreLaws.PutRefinesPlainPut | internal/store/store.go:50-74 | one Set on the store is one Set on a map keyed by name and labels |
| StoreLaws.StoreIsThePlainMap | internal/store/store.go:50-74 | after any NUL-free writes the store is that plain map |
| StoreLaws.LenOfPlainMap | internal/store/store.go:111-116 | Len counts the keys of the plain map |
| StoreLaws.SamplesOfPlainMap | internal/store/store.go:91-98 | the snapshot lists the plain map, one sample a key |
| StoreLaws.HistoryDecides | internal/store/store.go:57-74 | a series exists and has its state by the writes to it alone |
| StoreLaws.CounterExportsTotal | internal/store/store.go:76-83 | a counter shows its first value plus all reset-corrected increments, across any number of resets |
| StoreLaws.CounterExportsReadings | internal/store/store.go:76-83 | rounding included, a counter shows its last reading plus those before each drop |
| StoreLaws.CounterNeverFallsExactly | internal/store/store.go:76-83 | in exact arithmetic a counter never falls over a run if and only if no reading is both a drop and negative |
| StoreLaws.CounterNeverDecreases | internal/store/store.go:76-83 | with every addition rounded, a counter never falls between any two moments while no reading is both a drop and negative |
| StoreLaws.GaugeExportsLastValue | internal/store/store.go:72-73 | a series written only as a gauge shows its last value as a float64 |
| StoreLaws.SnapshotKeysDiffer | internal/store/store.go:85-109 | no two samples of a snapshot share a key |
| StoreLaws.SnapshotIsDetermined | internal/store/store.go:100-106 | without ties the snapshot is determined |
| StoreLaws.SnapshotIsUniqueExactly | internal/store/store.go:100-106 | a store has one snapshot exactly when no two samples tie |
| StoreLaws.TieLeavesAChoice | internal/store/store.go:100-106 | with a tie there is a second snapshot of the same contents |
| StoreLaws.AgreeingFamiliesHaveNoTies | internal/store/store.go:100-106 | families that agree and NUL-free values exclude ties |
| StoreLaws.FamiliesAreIndependent | internal/store/store.go:50-74 | only the order of writes within each metric matters |
| Discovery.EveryRunIsOrderly | internal/app/listen.go:44-78 | over every interleaving nothing is sent on or closed after a close, full is closed exactly when a positive limit is reached, at most that many lines are sent, the reader gets them in order, and every prefix seen is sent, claimed or discarded: one of these, once |
| Discovery.NoPrefixIsLostExactly | internal/app/discover.go:26-47 | with any number of observers every observed prefix is sent or waits to be emitted, exactly when none was emitted while the emitter was closed, at its limit or full |
| Discovery.SoloOutputIsFirstSeen | internal/app/discover.go:26-47 | with one observer the lines are the distinct prefixes in the order first seen before the close, cut to the limit, exactly when no new prefix met a full buffer before that |
| Discovery.PrefixIsLost | internal/app/listen.go:52-57 | without a reader, of one more topic than the buffer holds the last prefix is lost |
| Discovery.PrefixIsStable | internal/app/discover.go:65-72 | a prefix has at most the asked levels and is its own prefix |
| Discovery.PrefixIsTheStart | internal/app/discover.go:65-72 | the prefix is the topic up to the slash that ends its last asked level, or the whole topic when it has no such slash, and nothing else is |
| Scrape.ValidatedScrapesGather | internal/exporter/self.go:17-56 | in every run, at every moment, the program's own families and the snapshot together agree and give no series twice, provided nothing is overwritten and no rule takes an own name |
| Scrape.ScrapesGatherExactly | internal/exporter/collector.go:19-33 | over all label values and all own samples that holds if and only if the clashes are harmless and no use has an own name |
| Scrape.OwnNameIsAccepted | internal/exporter/self.go:47-50 | an accepted configuration with the name of an own metric and a run of one message after which scrapes disagree |
| Discovery.EmitterObject.EmitLine | internal/app/listen.go:44-62 | emit, without misuse of its channels |
| Discovery.EmitterObject.CloseEmitter | internal/app/listen.go:68-78 | close, any number of times |
| Discovery.DiscoveryObject.Known | internal/app/discover.go:36-47 | a prefix is known exactly when remembered, and is remembered after |
| Discovery.DiscoveryObject.ObserveTopic | internal/app/discover.go:26-34 | observe claims and emits a new prefix |
| Limits.NulHeartbeatBreaksAFamily | internal/config/validate.go:288-291 | an accepted configuration with a NUL in a source's last_updated_metric and a run of one message after which a family disagrees with itself |
| Limits.NulHeartbeatMayBeHarmless | internal/config/validate.go:288-291 | an accepted configuration with a NUL in a heartbeat's name whose clashes are harmless |
| Limits.ClashMayBeOutOfReach | internal/config/validate.go:288-291 | an accepted configuration that clashes by name and never overwrites anything, as its labels are other constants |
| Limits.HeartbeatNameMayBeAMetric | internal/config/validate.go:274-291 | an accepted configuration and a run of one message whose Sets under the name of the heartbeat are first the number read and then the time |
| PayloadLimits.PremisesOnTheLibrary | internal/rules/payload.go:46-57 | what the concrete runs ask of the library can all hold |
| PayloadLimits.NulValuesShareASeries | internal/store/store.go:134-147 | an accepted configuration without a clash and a run of two messages whose JSON label values hold NULs: they share a series and the first labels show the second value |
| PayloadLimits.NulValuesTie | internal/store/store.go:100-106 | such a run after which two samples tie |
| PayloadLimits.NegativeDropLowersACounter | internal/store/store.go:76-83 | a run of two messages under an accepted configuration whose negative drop lowers a counter |
| Limits.PremisesAreMet | internal/config/validate.go:16-41 | the premises of the theorems are met by a run: one message under an accepted configuration makes three NUL-free Sets |
| Limits.DifferentLabelNamesTie | internal/store/store.go:100-106 | unvalidated label names of one metric can tie in the snapshot |
| Limits.OverriddenReferenceSplitsThePrediction | internal/config/validate.go:277 | without validation an overridden reference makes prediction and compiled labels differ |

## Left out

- RouterObject.LiveRouter.Start: models the first Start of a router on an empty store; a router is started once in the program.
- RouterObject.LiveRouter.Stop: does the critical section and the cancellation; waiting for the consumers is the exit steps of `Router` and `RouterLaws.Stopped`.
- RouterObject.LiveRouter.Consume: handles a message without interruption, as one goroutine sees it; that other consumers' Sets come between is in the steps of `Router`.
- Discovery.DiscoveryObject.ObserveTopic: covers one observer; concurrent observers are the steps of `Discovery`.
- RouterLaws.InterleavingDoesNotMatter: sources that share a metric are outside it, and so are metric names with a NUL.
- RouterLaws.ValidatedScrapesNeverDisagree: its premise `NeverOverwritten` is exact for the possible writes in any order; that a run of the router can bring every such order about is not shown.
- StoreLaws.CounterNeverFallsExactly: is about exact arithmetic; with rounding a small negative drop can be absorbed, so there only the direction of `StoreLaws.CounterNeverDecreases` holds.
- internal/broker, internal/app/http.go, internal/app/healthcheck.go, cmd: network clients, the HTTP server and wrappers around client libraries.
- internal/exporter: what the own metrics show, beyond the counters of the router; of the registry only that it wants agreeing families and no series twice.
- internal/config/load.go: file reading, globbing, YAML decoding and environment expansion.
- internal/app/command.go, internal/app/verify.go, internal/app/capture.go: flag parsing, reports and line escaping.
- internal/app/app.go: process wiring and readiness flags.
- The wording of problem messages: a problem keeps its place and what it says, as a tag.
- Logging, the wall clock, and `Router.Subscriptions`.
- The internals of the regular expression engine, the JSON decoder and number parsing, and IEEE 754 beyond a rounding function; NaN and the infinities.
- Section 4.7.2 of MQTT Version 5.0 (topics beginning with `$`): it only removes matches, so `Topics.OwnsCoversTheFilter` covers more than it would, and a filter that begins with a wildcard owns those topics besides.
- Locks: each critical section is one step; data races inside one are not modelled.

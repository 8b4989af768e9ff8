# OpticTrace, modelled and proved in Dafny

OpticTrace decides which parts of HTTP traffic may be recorded, and then records, exports and
analyses the governed result. This project models the parts in which a mistake would be hardest to
see, and proves what each is for, over every input, every run or every reachable state:

- **JSON paths.** One path grammar (a literal key, `*`, `**`, arrays transparent) is interpreted by
  three separate walkers: masking, metering, first-string lookup. `Json.Addresses` says once and
  declaratively what a path addresses; each walker is proved against it. Masking exists three times:
  as a reference (`Redaction.MaskAt`, masking a set of locations), as the recursive walker
  (`Redaction.Redact`), and on the heap with updates in place (`RedactionInPlace`); all agree.
- **Rules.** Glob matching, matching of criteria with missing knowledge, the order-sensitive merge of
  rules into a policy, the two passes of the proxy, and the policy diff of the pull-request review.
- **Specs from traffic and back.** `Infer` folds schemas over bodies, `Check` lints a spec against
  traffic, and `Check(Infer(records), records)` is characterised exactly.
- **Delivery.** The exporter worker and the log sink are step machines in which callers, ticks,
  deliveries and closes interleave freely; the classes beside them step exactly as the machines do
  and keep their invariants, so order, counts and drain hold of every valid object.
- **Checksums.** Verhoeff, Luhn (Annex B of ISO/IEC 7812-1) and IBAN (ISO/IEC 7064, MOD 97-10) with
  the errors they detect.
- **The in-memory store.** Trimming, compaction in place, paging, aggregation, and the agreement of
  erasure with the usage report.

Go visits map entries in an unspecified order. Where that could show, the model picks an arbitrary
next entry (`var k :| k in todo`), so the contracts hold under every order.

Some properties one would expect turn out to hold only under a condition. The code is modelled as it
is; the exact condition is proved, and an input on which the property fails:

- Metering counts each addressed number once exactly for the paths with at most one `**`, or with a
  useless `**` at the end (`Meters.MeteringExactIff`); any other path counts some location twice
  (`Meters.TwoDescentsOvercount`).
- An inferred schema covers its own traffic unless some field occurs only inside arrays that share a
  position with an object with fields: `walkFields` does not look at elements where there are
  properties (`FieldPaths.InferenceCoversIff`; failing input in `FieldPaths.ClashLosesFields`).
  `Check(Infer(records), records)` is empty if and only if the traffic is covered in this sense and every
  method used on a path is used there in upper case too (`SpecCheck.LoopClosesIff`; failing inputs in
  `SpecCheck.ClashIsReported` and `SpecCheck.LowerCaseIsReported`).
- A request-body label reads the document governed by the first pass of the policy. It gets nothing but
  the placeholder if and only if the first-pass policy redacts every location its path addresses
  (`Proxy.BodyLabelCoveredIff`); redaction that only the second pass knows of misses it
  (`Proxy.LateRedactionMissesLabel`).
- The type inferred at a position is independent of the order of the traffic if and only if the types
  seen there all agree (integer with number included), or clash pairwise and are even in number:
  "mixed" and "unknown" are both the empty type, although the comment on `mergeSchemas` speaks of
  widening (`SchemaTypes.TypeIsStableIff`; failing input in `SchemaTypes.TypesDependOnOrder`).
- The review report is exact if and only if no two noted changes are confused by their keys: one's
  method and route go on with a `|` and x where the other's end and its description makes up for it, or
  methods and routes read alike though they are divided differently
  (`Review.ReportExactUnlessOverlap`). Two engines and two requests on which a blocking change goes
  unlisted are in `Review.CollisionHidesBlocking`.
- A log line handed to `Handle` after close is neither delivered nor counted; the sink's counters
  balance if and only if there is none (`LogSink.EveryRunConserves`; failing run in
  `LogSink.LateLineVanishes`).
- Purging the literal value `(unattributed)` removes as many records as the usage report shows in that
  bucket if and only if every record carries the label (`MemStore.PurgeOfBucketNameIff`; failing input
  in `MemStore.BucketIsNotPurged`).

`dafny verify dfyconfig.toml` checks the whole project.

## Model

| member | source | states |
|---|---|---|
| Json.NoHigherHeight | internal/engine/redact.go:188-195 | A node with no new children and none deeper than before is itself no deeper: the measure under which the `**` case, which recurses on an already rewritten node, terminates |
| Redaction.Redact | internal/engine/redact.go:181-223 | The walker, in the code's order of masking and descending; objects keep their key set and no document gets deeper |
| Redaction.RedactIsMasking | internal/engine/redact.go:172-223 | Walking a path is masking exactly the shallowest locations the path addresses, and nothing else |
| Redaction.RedactionIsExact | internal/engine/redact.go:172-223 | Location by location: it survives unless it lies below an addressed one, reads the placeholder if addressed, and otherwise keeps its scalar, key set or array length |
| Redaction.MaskTwice | internal/engine/redact.go:98-100 | Masking by A and then by B is masking by the union of A and B |
| Redaction.MaskAtLocation | internal/engine/redact.go:172-180 | What masking any set of locations does at every location of every document |
| Redaction.RedactAllIsMasking | internal/engine/redact.go:98-100 | Applying a list of paths one after the other masks the union of what they address |
| Redaction.RedactionListsAreSets | internal/engine/redact.go:86-105 | Two lists with the same members, in any order and with any repetition, redact every document alike |
| Redaction.RedactTwice | internal/engine/redact.go:86-105 | Two lists compose to their concatenation, commute, and redaction is idempotent |
| Redaction.MorePathsHideMore | internal/engine/engine.go:424 | A longer list never unmasks: what it leaves readable the shorter list leaves readable too, with the original outline |
| RedactionInPlace.RedactPath | internal/engine/redact.go:181-223 | On the heap, with overwriting in place, the walker leaves the document `Redact` describes, touches only the document's own nodes, and returns the root it was given |
| RedactionInPlace.RedactObject | internal/engine/redact.go:186-213 | The object case, whose `**` arm masks the node in place, discards the result and then rewrites every child |
| RedactionInPlace.RedactEveryField | internal/engine/redact.go:192-205 | The loops over map entries, in any order, give every child its replacement exactly once |
| RedactionInPlace.RedactEveryElement | internal/engine/redact.go:214-218 | The loop over array slots redacts every element under the unconsumed path |
| RedactionInPlace.RedactField | internal/engine/redact.go:206-212 | One key is overwritten by the placeholder or its redacted child; all other fields keep their documents |
| RedactionInPlace.RedactDocument | internal/engine/redact.go:94-100 | The loop over the policy's paths leaves on the heap the document masked at everything any of them addresses |
| Labels.FirstString | internal/engine/redact.go:232-289 | The lookup returns a result some iteration order allows |
| Labels.ReturnedIsAddressed | internal/engine/redact.go:225-289 | Under every order, a returned value stands at a location the path addresses |
| Labels.NoneMeansNothing | internal/engine/redact.go:232-289 | Under every order, returning nothing means no addressed location holds a string, number or boolean |
| Labels.NoneIff | internal/engine/redact.go:232-289 | Nothing can be returned exactly when no addressed location holds a string, number or boolean |
| Labels.PlainReturnsFirst | internal/engine/redact.go:274-287 | Along a path without wildcards the value returned is the first in array order |
| Labels.PlainIsDeterministic | internal/engine/redact.go:232-289 | So a label without wildcards does not depend on the map order |
| Labels.AnyDepthFromHereFirst | internal/engine/redact.go:252-265 | What the rest of a path after `**` finds from an object on goes before what lies deeper |
| Labels.FoundTextIs | internal/engine/redact.go:232-248 | Strings are returned as they are, numbers in their format, booleans as `true` and `false`, nothing else |
| Labels.LabelsRevealNothing | internal/proxy/proxy.go:336-353 | A label read from a document is the placeholder or the original value of a location that no path of the list which governed that document addresses or covers |
| Labels.RedactedLabelIsPlaceholder | internal/proxy/proxy.go:336-353 | A label whose own path is in the list which governed the document yields the placeholder or nothing |
| Labels.LabelCoveredIff | internal/proxy/proxy.go:336-353 | A label yields only the placeholder or nothing, on every document and under every map order, if and only if every location its path addresses is redacted by that list or lies below one that is |
| Meters.WaysAreAddresses | internal/engine/redact.go:136-170 | The walker reaches a location at least once exactly when the path addresses it |
| Meters.NumberLocationsAre | internal/engine/redact.go:137-142 | The locations summed over are exactly those that hold a number |
| Meters.SumNumeric | internal/engine/redact.go:136-170 | Whatever the map order, the sum grows by each number times the ways the path reaches it, and `found` is set exactly when an addressed number exists |
| Meters.SumChildren | internal/engine/redact.go:151-168 | The loops over children, in any order, add each child's total under the path carried down |
| Meters.OneDescentOneWay | internal/engine/redact.go:147-154 | With at most one `**` no location is reached in two ways |
| Meters.TwoDescentsOvercount | internal/engine/redact.go:147-154 | With two `**` that are followed by something, some location is reached in two ways |
| Meters.AtMostOnceIsExact | internal/engine/redact.go:111-170 | For paths with at most one `**` the total is the sum of the addressed numbers, each once |
| Meters.MeteringExactIff | internal/engine/redact.go:136-170 | A path is metered exactly on every document if and only if it has at most one `**` or ends in one |
| Meters.ExtractMeter | internal/engine/redact.go:119-128 | A meter fed by several paths is the sum of the exact sums of those paths, reported exactly when one of them addresses a number |
| Glob.MatchIsDivision | internal/engine/engine.go:532-558 | A match exists exactly when the segments divide into consecutive blocks, one per pattern element: one accepted segment, or anything for `**` |
| Glob.RepeatedAnyCollapses | internal/engine/engine.go:539-549 | `**` directly repeated, anywhere in a pattern, matches what one `**` matches |
| Engine.Evaluate | internal/engine/engine.go:352-443 | One pass over the rules gives the merge of exactly the matching rules in their order; which rules these are is `Engine.FiresIff`, what the merge is the `Engine.Merge…` rows |
| Engine.FiresIff | internal/engine/engine.go:364-514 | A rule fires if and only if the request has one of its methods, its path matches the glob, every header criterion accepts the value of that header, every query criterion that of that parameter (empty when absent), every body criterion what it finds in a known body, and its operation matches a known one |
| Engine.HeadersIrrelevant | internal/engine/engine.go:487-495 | A rule without header criteria fires alike whatever the headers, known or not |
| Engine.QueryIrrelevant | internal/engine/engine.go:496-503 | A rule without query criteria fires alike whatever the query |
| Engine.FiringRulesAreNamed | internal/engine/engine.go:364-443 | The rules that fire are a subsequence of the rule list, and the policy names exactly them, in this order |
| Engine.MatchingDistributes | internal/engine/engine.go:364-383 | Whether a rule fires does not depend on the rules before and after it |
| Engine.LastSet | internal/engine/engine.go:382-393 | The value of the last rule that sets one, and none exactly when no rule does |
| Engine.MergeAccumulates | internal/engine/engine.go:394-424 | A field is captured exactly if the default captures it and no matching rule restricts it; a header, query parameter or path is redacted exactly if some matching rule says so |
| Engine.MergeLastWins | internal/engine/engine.go:381-432 | Route pattern, sample rate, tail-keeping settings and each label come from the last matching rule that sets them |
| Engine.MergeCollectsPaths | internal/engine/engine.go:418-440 | A meter sums over the paths that matching rules give it, one for each such rule and in their order, and the redacted paths are those of the rules, concatenated |
| Engine.MoreRulesOnlyTighten | internal/engine/engine.go:394-424 | Adding rules anywhere opens no capture and shrinks no redaction |
| Engine.InsertedRuleOnlyTightens | internal/engine/engine.go:363-443 | A rule inserted anywhere in any rule list only tightens the policy of any request |
| Engine.ReorderedRulesAgree | internal/engine/engine.go:363-443 | Permuting the rules changes neither capture nor redaction sets nor the redaction of any document |
| Engine.KnowingMoreMatchesMore | internal/engine/engine.go:482-514 | Extra knowledge about a request (headers, query, operation, body) matches a supersequence of the rules matched without it |
| Engine.SecondPassOnlyTightens | internal/proxy/proxy.go:258-275 | Under one engine the second-pass policy opens no capture, loses no redaction, fires every rule the first pass fired, and hides every body location the first hides |
| Engine.BodyRulePaths | internal/engine/engine.go:294-315 | The listed globs are exactly those of rules with a body criterion or a `json:` label |
| Engine.NeedsRequestBody | internal/proxy/proxy.go:116-129 | A path needs its body exactly when one of the stored globs matches it; when they are those of a rule list, exactly when some body-reading rule of it matches |
| Engine.GlobsDecide | internal/engine/engine.go:294-315 | The globs of a rule list match a path exactly when some body-reading rule of it does |
| Engine.SkippingTheBodyIsSafe | internal/proxy/proxy.go:116-129 | When none matches, the policy is the same for every possible body, and contains no `json:` label |
| Engine.BodyReaderWaitsOrLabels | internal/engine/engine.go:294-315 | The converse: a rule that counts as body-reading does not fire without the body, or leaves a `json:` label |
| Engine.LabelHasRule | internal/engine/engine.go:425-432 | Every label of a merged policy is that of one of its rules |
| Proxy.LimitedBuffer.constructor | internal/proxy/proxy.go:516-523 | An empty buffer with the given limit |
| Proxy.LimitedBuffer.Write | internal/proxy/proxy.go:525-537 | After any writes the buffer is the longest allowed prefix of the stream, the total is the stream's length, truncation is flagged exactly when something is missing, and every write reports full success |
| Proxy.ResolvePolicy | internal/proxy/proxy.go:187-275 | The body is looked at exactly when it claims to be JSON, parses, and the path is GraphQL or one of the stored globs matches it; what decides the second pass is that body masked under the first-pass policy; the policy in force is that of the engine and the headers then there, is no looser than the first when these know no less, and a body that no rule reads could not have mattered |
| Proxy.ResolvedIsTighter | internal/proxy/proxy.go:258-275 | With one engine throughout, whatever is learnt opens no capture and uncovers no body location |
| Proxy.UnreadBodyIsIrrelevant | internal/proxy/proxy.go:116-129 | For every possible body the policy is the one resolved without it, and asks for nothing in it |
| Proxy.RedactedFieldDecidesNothing | internal/proxy/proxy.go:265-268 | A body criterion on a field the first policy redacts finds the placeholder or nothing, so it cannot route around the redaction |
| Proxy.BodyLabelCoveredIff | internal/proxy/proxy.go:265-268 | A request-body label reveals nothing of any body if and only if the first-pass policy redacts every location its path addresses |
| Proxy.LateRedactionMissesLabel | internal/proxy/proxy.go:265-275 | One rule decided by a body criterion: the policy in force redacts a field, and its label on that field still gets the value |
| Review.DiffPolicies | internal/review/review.go:274-373 | The aggregation over all records holds one entry per key that some record notes, showing the first change noted under it and counting exactly the records that note it; what a record notes is `Review.DifferencesAre` |
| Review.DiffOne | internal/review/review.go:294-355 | One record evaluated under both engines adds its changes, each counted once |
| Review.DifferencesAre | internal/review/review.go:299-354 | Kind by kind: capture starts or stops, a header or query parameter captured by head loses its redaction, a dotted path, label or meter is in one policy and not in the other; each is noted exactly then |
| Review.SeveritiesAre | internal/review/review.go:299-354 | Lost redaction blocks, new capture and lost labels and meters warn, tightening informs |
| Review.TextsAre | internal/review/review.go:321-354 | The wording of each description with a subject |
| Review.CaptureTextsAre | internal/review/review.go:300-318 | The wording of capture changes |
| Review.TextInjective | internal/review/review.go:300-355 | The description text determines the kind of difference and its subject |
| Review.ReportExactIff | internal/review/review.go:277-373 | Every noted change is listed with its exact count, and nothing else, if and only if no two noted changes share a key |
| Review.NoPipesUnambiguous | internal/review/review.go:284-292 | Keys are unambiguous whenever methods and routes contain no `\|` |
| Review.KeysCollideIff | internal/review/review.go:284-292 | Two different changes share a key exactly when they say the same of methods and routes that read alike, or one's method and route are the other's, `\|` and x, and the other description is x, `\|` and its own |
| Review.ReportExactUnlessOverlap | internal/review/review.go:277-373 | Every noted change is listed with its exact count, and nothing else, if and only if no two noted changes are confused in one of these ways |
| Review.SecondRecord | internal/review/review.go:331-337 | For the two engines and requests below, head stops redacting the path for the second request, a blocking change |
| Review.CollisionHidesBlocking | internal/review/review.go:284-292 | For two engines and two requests, with any path and any name, the report consists of one informational entry with two requests: the blocking change of the second is counted there and listed nowhere |
| Review.EntryMeans | internal/review/review.go:277-373 | In a report whose keys are unambiguous, an entry of any kind with count n is listed exactly when n > 0 records of that method and head route have the difference between what base and what head does to them |
| Review.SelfDiffIsEmpty | internal/review/review.go:277-373 | An engine compared with itself reports nothing |
| Review.JoinInjective | internal/review/review.go:375-381 | The dotted text of a split path determines the path |
| Review.JoinIs | internal/review/review.go:375-381 | The dotted text of a concatenation is the two texts with a dot between them |
| Review.NoBlockingKeepsHeadersAndQuery | internal/review/review.go:321-330 | A report whose keys are unambiguous, without blocking entries, means head redacts every header and query parameter base redacts, on every record whose headers or query head captures |
| Review.NoBlockingMeansNoLoss | internal/review/review.go:331-337 | A report whose keys are unambiguous, without an entry about a path that stops being redacted, means head hides every body location base hides, on every record |
| Schemas.MergeAt | internal/spec/infer.go:292-346 | Merging two schemas merges them position by position |
| Schemas.ValueRemembers | internal/spec/infer.go:250-290 | The schema of one value records, at every position down to the depth limit, exactly the keys, objects and arrays seen there |
| Schemas.FoldRemembers | internal/spec/infer.go:295-346 | Over any sequence of bodies, at every position, the properties are the union and `required` the intersection of the keys observed there; a non-object empties `required` |
| Schemas.FoldOrderIndependent | internal/spec/infer.go:295-346 | Neither depends on the order of the bodies or on repetition |
| Schemas.FoldRemembersScalars | internal/spec/infer.go:250-346 | Over any sequence of bodies a position is nullable exactly if null was seen there, and its example is a value seen there: a number, or a string neither empty nor the placeholder |
| Schemas.ExampleIsFirst | internal/spec/infer.go:292-319 | The example is that of the first body, and within it the first array element, to have one |
| SchemaTypes.TypeOfValueIs | internal/spec/infer.go:250-290 | The type of each kind of value; a number is an integer exactly if it has no fraction and is below 10^15 in magnitude |
| SchemaTypes.OrderIndependentIff | internal/spec/infer.go:304-315 | The merge of a sequence of types is the same in every order if and only if the known types agree, or clash pairwise and are even in number |
| SchemaTypes.InferredTypeIs | internal/spec/infer.go:295-315 | The inferred type at a position is the merge, in order, of the types the bodies show there |
| SchemaTypes.TypeIsStableIff | internal/spec/infer.go:295-315 | No order of the bodies changes the inferred type at a position if and only if the types they show there agree, or clash pairwise and are even in number |
| SchemaTypes.TypesDependOnOrder | internal/spec/infer.go:304-315 | A field seen once as a string and twice as a boolean is inferred as "boolean" in one order and without a type in another |
| FieldPaths.WalkFields | internal/spec/model.go:143-169 | The walk over a schema adds exactly its field paths to the output set |
| FieldPaths.WalkProperties | internal/spec/model.go:157-164 | The loop over properties, in any order, adds each one's path and everything below it |
| FieldPaths.WalkJsonFields | internal/spec/check.go:162-200 | The in-place walk over a body adds exactly its field paths |
| FieldPaths.FieldTextIs | internal/spec/check.go:173-200 | The text of a field is the names on the way to it, joined by dots; empty names before the first other one are lost |
| FieldPaths.ResolveFollows | internal/spec/model.go:92-106 | Local references are followed while there is one that leads somewhere, ten at most |
| FieldPaths.ObservedFieldsAre | internal/spec/check.go:173-200 | The field paths of the bodies are the dotted texts of the fields they show within the depth limit |
| FieldPaths.InferredFieldsAre | internal/spec/model.go:151-169 | The field paths of the inferred schema are those shown at a position no object with fields obscures, with the same depth limit |
| FieldPaths.InferenceCoversIff | internal/spec/model.go:156-168 | The inferred schema documents every observed field if and only if no field path occurs solely behind an obscured array |
| FieldPaths.NoClashCovers | internal/spec/model.go:151-169 | In particular when no position is both an object with fields and an array |
| FieldPaths.ClashLosesFields | internal/spec/model.go:156-168 | A concrete clash loses a field |
| SpecCheck.Inferrer.constructor | internal/spec/infer.go:48-50 | No operations yet |
| SpecCheck.Inferrer.Add | internal/spec/infer.go:52-87 | One record changes the aggregate of its own template and lower-case method, and no other: its request count, query parameter counts and schemas |
| SpecCheck.Inferrer.Spec | internal/spec/infer.go:89-161 | There is an operation exactly where there is an aggregate; it has the aggregate's query parameters and request schema and every response seen, and a bodiless `default` response exactly when none was seen |
| SpecCheck.Inferrer.SpecPath | internal/spec/infer.go:107-159 | The loop over the methods of a path finishes each aggregate once |
| SpecCheck.FinishDocuments | internal/spec/infer.go:136-157 | No operation is left without a response, and none is invented when one was seen |
| SpecCheck.Infer | internal/spec/infer.go:16-27 | The spec of the fold over all records |
| SpecCheck.RequestAggregateIs | internal/spec/infer.go:75-77 | An operation's request schema is the fold of exactly its records' request bodies |
| SpecCheck.ResponseAggregateIs | internal/spec/infer.go:78-87 | Its response schema for a status is the fold of exactly its records' bodies of that status |
| SpecCheck.StatusesAre | internal/spec/infer.go:78-87 | A status is listed exactly if a record of the operation has a body under it, or has it without a body and it is not zero |
| SpecCheck.ItoaIsDecimal | internal/spec/infer.go:78-82 | A status is written as its decimal numeral |
| SpecCheck.OperationsAre | internal/spec/infer.go:53-64 | The spec has an operation exactly for the templates and methods that occur |
| SpecCheck.QueryParametersAre | internal/spec/infer.go:116-135 | An operation lists exactly the query parameters that some request carried, and requires exactly those that every request carried |
| SpecCheck.MatchPath | internal/spec/model.go:171-209 | The path itself when present, otherwise some matching template, and none only when none matches |
| SpecCheck.TemplateMatchesInstances | internal/spec/model.go:194-209 | A template matches everything it stands for, each segment in braces replaced by anything, and no other path without parameters of its own |
| SpecCheck.ParametersMatchAnything | internal/spec/model.go:194-209 | A path that shows a parameter in braces or after a colon matches whatever the template has there |
| SpecCheck.CollectUsage | internal/spec/check.go:48-68 | The usage map holds exactly the observed endpoints, each with exactly the request fields and successful response fields its records carry |
| SpecCheck.CheckEndpoints | internal/spec/check.go:70-112 | The loop over endpoints, in any order, reports exactly what each gives against a template `MatchPath` allows for it |
| SpecCheck.Check | internal/spec/check.go:32-145 | For some choice of matching templates, one per observed endpoint, every kind of finding is there exactly when due: a request field that requests carry and the operation of the picked template lacks; a response field that successful responses carry and it lacks, if it documents any; neither below a field that is itself used and missing; an endpoint whose template has no such operation; an operation no observed path of its method matches |
| SpecCheck.FindingsMean | internal/spec/check.go:70-139 | The same of every set of findings that some order of the loops can give |
| SpecCheck.BreakingIff | internal/spec/check.go:147-155 | A report has a breaking finding exactly if some record uses an endpoint, or sends a request field, that the spec lacks |
| SpecCheck.ReportedIs | internal/spec/check.go:202-228 | A field is reported exactly if it is used, missing, and has no parent that is used and missing too |
| SpecCheck.ParentIs | internal/spec/check.go:230-236 | The parent is what precedes the last dot |
| SpecCheck.ReportedEmpty | internal/spec/check.go:202-236 | Hiding the children of missing parents never hides everything: no field finding exactly when all used fields are documented |
| SpecCheck.NothingUnusedIff | internal/spec/check.go:114-139 | No operation inferred from the traffic is reported as unused if and only if every method used on a path is used there in upper case too |
| SpecCheck.EndpointsCleanIff | internal/spec/check.go:70-112 | No observed endpoint has a finding against its own inferred spec if and only if every field occurs somewhere unobscured |
| SpecCheck.LoopClosesIff | internal/spec/check.go:32-145 | Checking an inferred spec against its own traffic gives no finding of any severity if and only if every field occurs somewhere unobscured and every method used on a path is used there in upper case too, whatever templates are picked |
| SpecCheck.LoopClosesWithoutClash | internal/spec/check.go:32-145 | When no position is seen as both an object with fields and an array, upper case decides alone, and with upper-case methods there is no finding |
| SpecCheck.ClashIsReported | internal/spec/check.go:32-145 | An object and an array of objects posted to one path: their own inferred spec does not pass, whatever the routing |
| SpecCheck.LowerCaseIsReported | internal/spec/check.go:114-139 | One request by a lower-case method: its own inferred spec does not pass |
| ExportWorker.NextKeepsInv | internal/export/export.go:200-304 | Every step of callers and worker keeps order, counts, batch limits and the shutdown stages |
| ExportWorker.EveryRunConserves | internal/export/export.go:139-304 | In every state of every run, offered = delivered + failed + both drop counters + queued + batched; the exporter has been handed a prefix of what was accepted, in order, in batches of 1 to the batch size |
| ExportWorker.AcceptedAreAdmitted | internal/export/export.go:171-182 | Over every run, what is accepted is, in order, exactly the enqueued records that found fewer queued than the capacity; the others are what is dropped |
| ExportWorker.AcceptedLinesAreAdmitted | internal/export/export.go:139-158 | The same for log lines, of exporters that take them |
| ExportWorker.RoomForAll | internal/export/export.go:171-182 | If every enqueue of a run found room, everything offered was accepted and nothing dropped |
| ExportWorker.CountersAreAnswers | internal/export/export.go:206-255 | Over every run, `delivered` has grown by the sizes of the batches the exporter took, and `failed` by those it refused |
| ExportWorker.TickFlushes | internal/export/export.go:299-301 | A tick hands over both batches, whatever their size |
| ExportWorker.EndOfLogsFlushes | internal/export/export.go:287-294 | When the log channel ends its batch is handed over, and it is no longer selected |
| ExportWorker.ReceivingFlushesWhenFull | internal/export/export.go:283-298 | A received record or line joins the batch, which is flushed exactly when it has reached the batch size |
| ExportWorker.ReturnedMeansDrained | internal/export/export.go:247-267 | A worker that has returned has handed over everything accepted, once and in order, before a single final `Close` |
| ExportWorker.NeverStuck | internal/export/export.go:243-321 | After shutdown a worker that has not returned always has a step to take besides a tick |
| ExportWorker.StepsAreUsedUp | internal/export/export.go:243-304 | Each such step brings the end of the drain closer |
| ExportWorker.DrainIsBounded | internal/export/export.go:243-304 | Every run of the worker after shutdown is bounded, up to the ticks in it |
| ExportWorker.ReachableNext | internal/export/export.go:200-304 | What a step leads to from a state some run reaches is again reached by a run |
| ExportWorker.ReachableInv | internal/export/export.go:200-304 | Order, counts, batch limits and shutdown stages hold in every state that some run reaches |
| ExportDispatcher.Worker.constructor | internal/export/export.go:108-127 | A new worker is in the initial state |
| ExportDispatcher.Worker.Accounts | internal/export/export.go:139-304 | Of every valid worker object: offered = delivered + failed + drops + queued + batched, and handed over, batched and queued make up what was accepted, in order |
| ExportDispatcher.Worker.ReturnedMeansHandedOver | internal/export/export.go:247-267 | A valid worker that has returned has handed over all it accepted, once and in order, and then closed its exporter once |
| ExportDispatcher.Worker.Offer | internal/export/export.go:171-182 | One non-blocking send: with fewer queued than the capacity the record is queued at the end and accepted, nothing dropped; otherwise the queue stays and one more is dropped |
| ExportDispatcher.Worker.OfferLog | internal/export/export.go:139-158 | The same for a log line; an exporter that takes none keeps everything as it was |
| ExportDispatcher.Worker.Flush | internal/export/export.go:206-228 | The batch is handed over whole and counted by its outcome; an empty one is not handed over |
| ExportDispatcher.Worker.FlushLines | internal/export/export.go:231-255 | The same for log lines |
| ExportDispatcher.Worker.Step | internal/export/export.go:261-304 | Each `select` arm, drain round or flush is the step of the state machine |
| ExportDispatcher.Dispatcher.EnqueueAll | internal/export/export.go:171-182 | Every worker is offered the record once, whatever happens at the others |
| ExportDispatcher.Dispatcher.EnqueueAppLogAll | internal/export/export.go:137-158 | Every worker is offered the line once |
| ExportDispatcher.Worker.CloseChannels | internal/export/export.go:307-312 | The steps `CloseLogs`, for exporters that take log lines, and `CloseQueue` |
| ExportDispatcher.Dispatcher.CloseChannels | internal/export/export.go:306-313 | Every worker takes those steps, and all stay valid |
| ExportDispatcher.Dispatcher.StepOne | internal/export/export.go:124-127 | A step of one worker leaves all others as they are |
| ExportDispatcher.Dispatcher.ReturnedMeansHandedOver | internal/export/export.go:306-321 | When all workers of a valid dispatcher have returned, every exporter has got all that its worker accepted, and each worker's counters add up to what it was offered |
| LogSink.NextKeepsInv | applog.go:185-283 | Every critical section and every delivery keeps queue bound, order and counts |
| LogSink.EveryRunConserves | applog.go:154-283 | In every state of every run the queue keeps its bound and the counters, queue and batch in flight account for everything offered, if and only if no line came after close |
| LogSink.CountersMean | applog.go:154-263 | Over every run, accepted is, in order, exactly what came while the queue had room (by `Handle` or before close), dropped counts the rest, and sent and failed the sizes of the batches by their outcome |
| LogSink.FlushTakesAll | applog.go:200-207 | A flush takes the whole queue, in order |
| LogSink.NothingStranded | applog.go:192-283 | Once the worker has finished, everything accepted was posted in order and the queue stays empty whatever callers do |
| LogSink.LateLineVanishes | applog.go:154-165 | The run of a close and one line to `Handle`: one line offered, all counters zero, nothing queued |
| LogSink.StopIsHeeded | applog.go:185-198 | Over every run after the stop signal, callers and ticks included, the worker takes at most three steps besides ticks, and until it has finished the next one is possible |
| LogSink.StoppedWorkerDrains | applog.go:185-277 | Over every run to the stop and on: once the worker has used up those steps it has finished and everything accepted was posted |
| LogSink.Sink.constructor | applog.go:98-116 | An open sink with an empty queue and zero counters |
| LogSink.Sink.Accounts | applog.go:185-283 | Of every valid sink object: the queue keeps its bound, and the counters, queue, batch in flight and ignored lines make up every call |
| LogSink.Sink.FinishedMeansPosted | applog.go:192-227 | When the worker of a valid sink has finished, everything accepted was posted in order and counted |
| LogSink.Sink.EnqueuePayload | applog.go:248-263 | A full or closed sink drops and counts |
| LogSink.Sink.HandleLine | applog.go:154-165 | A closed sink ignores the line, uncounted |
| LogSink.Sink.CloseSink | applog.go:265-277 | Marks closed and signals once; a second call changes nothing |
| LogSink.Sink.TakeBatch | applog.go:200-207 | The whole queue becomes the batch in flight |
| LogSink.Sink.Count | applog.go:209-234 | The batch is counted as sent or failed, whole |
| Checksums.LuhnValid | internal/scan/detect.go:158-195 | Accepts exactly the texts with 13 to 19 digits, not all equal, whose weighted sum is a multiple of ten; in closed form `Checksums.LuhnOkIs` |
| Checksums.LuhnOkIs | internal/scan/detect.go:158-195 | 13 to 19 digits, not all equal, and a multiple of ten as the sum, from the right in pairs, of a digit as it is and both decimal digits of the double of the next |
| Checksums.LuhnSumIs | internal/scan/detect.go:180-194 | The weighted sum is this sum by pairs, at every length |
| Checksums.CheckDigitCountsOnce | internal/scan/detect.go:180-194 | Raising the check digit by one raises the sum by one |
| Checksums.CheckDigitUnique | internal/scan/detect.go:158-195 | Every payload of 12 to 18 digits has one check digit, and no other is accepted |
| Checksums.KnownCardAccepted | internal/scan/detect.go:158-195 | The text of a four and fifteen ones is accepted |
| Checksums.AllDigitsRead | internal/scan/detect.go:161-167 | A text of digits is read digit by digit |
| Checksums.LuhnSingleChange | internal/scan/detect.go:180-194 | Changing any one digit of a valid number is rejected |
| Checksums.LuhnSwapIff | internal/scan/detect.go:180-194 | Swapping unequal neighbours goes undetected exactly when they are 0 and 9 |
| Checksums.LuhnMistypedRejected | internal/scan/detect.go:158-195 | The same on the scanned text: one digit character mistyped is rejected |
| Checksums.LuhnExchangedIff | internal/scan/detect.go:158-195 | The same on the scanned text: two neighbouring digits exchanged, whatever is printed between them, pass exactly when they are 0 and 9 |
| Checksums.IbanPlausible | internal/scan/detect.go:197-219 | The streaming remainder is the remainder of the whole expanded number: accepts exactly when that number is 1 modulo 97 |
| Checksums.IbanOkIs | internal/scan/detect.go:197-219 | 15 to 34 letters and digits that leave one modulo 97, read as one decimal number after moving the first four to the end and spelling each letter with its two digits from 10 on |
| Checksums.CheckDigitsAreLast | internal/scan/detect.go:203-217 | The two check digits come last in the number that is checked, after the country |
| Checksums.CheckDigitsDecide | internal/scan/detect.go:197-219 | Other check digits in a valid IBAN pass exactly if they differ by a multiple of 97 |
| Checksums.KnownIbanAccepted | internal/scan/detect.go:197-219 | A published IBAN is accepted |
| Checksums.SubstitutionChangesRemainder | internal/scan/detect.go:204-217 | Replacing a character by another of its kind changes the remainder, at any length |
| Checksums.IbanSubstitutionRejected | internal/scan/detect.go:197-219 | Every digit-for-digit or letter-for-letter substitution in a valid IBAN is rejected |
| Checksums.SwapRemainder | internal/scan/detect.go:204-217 | Exchanging two neighbours leaves the remainder exactly when they are equal, or 1 and B, 2 and M, or 3 and X, at any length |
| Checksums.IbanSwapIff | internal/scan/detect.go:197-219 | In a valid IBAN, exchanging two unequal neighbours on one side of the cut after the fourth character passes exactly for those pairs |
| Checksums.IbanMistypedRejected | internal/scan/detect.go:197-219 | The substitution on the scanned text, with blanks and in either case |
| Checksums.IbanExchangedIff | internal/scan/detect.go:197-219 | The exchange on the scanned text, with at most blanks between the two |
| Verhoeff.TableIsGroup | internal/scan/custom.go:127-138 | The table is the multiplication of the symmetry group of the pentagon |
| Verhoeff.PermutationStep | internal/scan/custom.go:140-151 | Each row of the permutation table is the first row applied once more, around the wrap modulo 8 |
| Verhoeff.VerhoeffValid | internal/scan/custom.go:100-125 | Accepts exactly digits with blanks and dashes, at least two of them, whose checksum from the right is zero |
| Verhoeff.FoldIsProduct | internal/scan/custom.go:104-125 | The checksum is the group product, from the right, of the digits, the one at position i permuted i times by the first permutation |
| Verhoeff.CheckDigitUnique | internal/scan/custom.go:104-125 | Every payload has one check digit, the inverse of the product of the others, and no other is accepted |
| Verhoeff.KnownNumberAccepted | internal/scan/custom.go:104-125 | The check digit of 236 is 3 |
| Verhoeff.SingleChangeDetected | internal/scan/custom.go:104-125 | Changing any one digit of a valid number is detected, at every length |
| Verhoeff.SwapDetected | internal/scan/custom.go:104-125 | Swapping any two unequal neighbours is detected, at every position |
| Verhoeff.MistypedDigitRejected | internal/scan/custom.go:104-125 | The same on the text: one digit character mistyped |
| Verhoeff.ExchangedDigitsRejected | internal/scan/custom.go:104-125 | The same on the text: two neighbouring digits exchanged, with separators between them or not |
| MemStore.Store.constructor | examples/memstore/memstore.go:45-46 | An empty store |
| MemStore.Store.Save | examples/memstore/memstore.go:48-59 | A copy under a fresh id is appended and the oldest are trimmed; ids stay strictly increasing |
| MemStore.Store.Query | examples/memstore/memstore.go:103-127 | The requested page of the matching records, newest first, with the number of all matches; a negative offset panics |
| MemStore.PageIs | examples/memstore/memstore.go:103-127 | A page runs from newest to oldest, and a match is on it exactly if the number of newer matches is at least the offset and below offset and page size: the limit, or 50 unless that is from 1 to 500 |
| MemStore.Store.Compact | examples/memstore/memstore.go:455-496 | The compaction in place keeps exactly the survivors, in order, and reports how many went |
| MemStore.Store.Prune | examples/memstore/memstore.go:441-453 | The newest rows stay |
| MemStore.Store.PruneBefore | examples/memstore/memstore.go:455-472 | Exactly the records at or after the cutoff stay, in order; a zero cutoff removes nothing |
| MemStore.Store.Purge | examples/memstore/memstore.go:474-496 | Exactly the records with that label value before the bound go (a zero bound is none), the others stay in order; an empty label or value is refused and changes nothing |
| MemStore.Store.UsageByLabel | examples/memstore/memstore.go:405-439 | Exactly the consumers in the window, each with what its records add up to |
| MemStore.UsageIs | examples/memstore/memstore.go:405-439 | Every number reported for a consumer is a sum over the records in the window that carry it as label value, or, for the bucket name, none: requests, those with status 500 and up, bytes each way, duration, and each meter some record carries |
| MemStore.Store.Since | examples/memstore/memstore.go:147-156 | The records at or after the given time, in order |
| MemStore.PurgeAgainstUsage | cli/cli.go:195-218 | The exact relation between what a purge removes and what the usage report showed, bucket name and window included |
| MemStore.PurgeMatchesUsageIff | cli/cli.go:195-218 | For a real consumer the two agree if and only if no record of it predates the report |
| MemStore.PurgeOfBucketNameIff | examples/memstore/memstore.go:405-496 | For the bucket name they agree if and only if every record carries the label |
| MemStore.BucketIsNotPurged | examples/memstore/memstore.go:405-496 | One record without the label: the report shows one request under the bucket name, purging that name removes none |
| MemStore.PurgeSparesOthers | examples/memstore/memstore.go:474-496 | A purge leaves every other consumer's totals unchanged |
| MemStore.ErasedIsNotFound | examples/memstore/memstore.go:474-496 | After a purge without a time bound no query for the erased value finds anything |

## Left out

- JSON parsing and serialising: documents are parsed values; a body that is not JSON is an absent document.
- Number formatting in `FirstString` is a parameter; regular expressions, the shell matcher for one segment, path templating and the splitting of paths at `/` are parameters too.
- Rounding: meter values, durations and the numbers of documents are exact reals.
- Aliasing: the heap walker assumes that decoding built a tree, as it does.
- Engine.KnowingMoreMatchesMore: what a body criterion finds is any function of rule, criterion and document, so one criterion read twice under different map orders is not modelled.
- Whether a `**` at the very end addresses anything: it does not, in the code and in the model; configurations that use it are not rejected here.
- Header and query sanitising, sampling, tail sampling (`KeepBody`) and what is finally stored; header names are taken as already canonical.
- Review: how a stored record becomes request attributes, the coverage report, and the sorting of report entries.
- Review.DiffOne: the loops over the two policies are one set of differences, which is then noted in any order.
- Review.EntryMeans: speaks of reports whose keys are unambiguous; an entry can stand for another change otherwise (`Review.CollisionHidesBlocking`).
- Review.NoBlockingKeepsHeadersAndQuery: the same.
- Review.NoBlockingMeansNoLoss: speaks of reports whose keys are unambiguous, since it fails otherwise (`Review.CollisionHidesBlocking`), and of JSON paths that come from splitting a text at dots, as all configured paths do.
- Absent and empty maps are not distinguished where the code gives them the same meaning.
- SpecCheck.Check: findings carry no counts, dates, messages or order, and an entry for a status that is null in the document (the code then falls back to another response) is not modelled.
- SpecCheck.Inferrer.Spec: path parameters, summaries and operation ids are not modelled.
- Specs: summaries, operation ids, tags, enums, formats and the text emitter; the sorted `required` list is a set.
- SpecCheck.LoopClosesIff: methods contain no blank, at which `Check` divides its keys, and change case as ASCII does.
- SpecCheck.NothingUnusedIff: the same.
- SpecCheck.LoopClosesWithoutClash: the same.
- ExportWorker.EveryRunConserves: a send on a closed channel, which panics, is not a step, so callers are taken to have stopped when `Shutdown` closes the channels; a hand-over to the exporter and the counting of its outcome are one step; timeouts, the 20-second limit of `Shutdown`, metrics and logging are not modelled, nor is an unbuffered queue.
- LogSink.EveryRunConserves: the outcome of a post is arbitrary; HTTP itself and the 5-second limit of `close` are not modelled.
- Checksums.IbanSwapIff: says nothing of exchanging the fourth and fifth characters, which are not neighbours in the number that is checked.
- MemStore.Store.Query: the filter is an arbitrary predicate.
- Statistics, percentiles, single-record lookup, recent-record iteration and the order of the usage list of the store; locking, as each operation holds the lock throughout.
- SQL and ClickHouse stores, the admin interface, authentication, code generators, detectors other than the checksums, mock data and the AI client: their behaviour lies in other systems or in one branch.

# Verified model of the queue, the generators and the service errors

A Dafny model of the parts of the framework whose behaviour is hard to see from any one
function, with proofs about every run and every input.

**The work queue** (`QueueTypes`, `Backoff`, `QueueProtocol`, `QueueSafety`, `QueueCancel`,
`QueueSpacing`, `QueueOthers`, `QueueService`, `QueueStranded`, `QueueExecutor`, `QueueSums`,
`QueueBudget`, `QueueFields`). Any number of workers share one document store; every
find-and-update and every update is one atomic step. `QueueProtocol` is the step system: claims,
claims whose reply is lost, finishes whose update is lost, crashes, cancels, data updates and
forced statuses, in any order. `QueueSafety`, `QueueCancel`, `QueueSpacing`, `QueueStranded` and
`QueueBudget` prove what all runs keep. `QueueService` holds the repository and the service as
objects with their claim loop and dequeue loop; their contracts say that they take only protocol
steps, whatever other callers do between their operations (`QueueOthers`), and, left undisturbed,
settle exactly the first `limit` ready items in claim order. `QueueExecutor` adds the executor's
outcome table and the drain argument. `QueueFields` spells the claim order and the outcomes out on
the fields of documents.

**The MongoDB model generator** (`MongoParser`, `MongoPaths`, `MongoShapes`, `MongoGenerator`,
`MongoPackage`, `MongoKeys`, `MongoExamples`). Field extraction is a recursive walk guarded by the
set of structs on the path; the generator declares each nested type once, through a map shared by
all models of a package. Proved: the walk ends on every struct map; tags and names give exactly
these keys; its result splits into a key-free outline and keys assigned from the
top; a nested field has exactly the fields of its struct's own model if and only if no struct
above it can be reached back from it; and so when the one kept declaration fits a use, and when a
whole package type-checks.

**The Bruno request generator** (`Text`, `TextFacts`, `BruParams`, `BruEndpoint`, `BruMatching`,
`BruFields`, `BruEnv`, `BruEnvPlaces`, `BruEnvVars`, `BruEnvFields`). A printer and a line parser
with a round trip; a matcher characterised segment by segment; an environment file editor with
completeness, idempotence, survival of the old lines, and an exact count of the lines that define
a name.

**Smaller parts**: chains of service errors (`ServiceErrors`), alias resolution through prioritised
registries (`TypeRegistry`), and the verifier's suggested service field names (`Acronym`,
`AcronymNames`).

Where code and expectation differ, the code is modelled and the difference is a result:

- Retry delays lose their cap once the exponential leaves the 64-bit range
  (`Backoff.BackoffExactIff`, `Backoff.BackoffOverflowEscapesCap`).
- A cancel is permanent exactly when no call holds the item (`QueueCancel.CancelSticksIffNotHeld`);
  a status forced back to a claimable one can split an item between two workers exactly when some
  call holds it (`QueueCancel.ForcedSplitIffHeld`); attempts are bounded exactly when callbacks may
  not acknowledge with `pending` (`QueueCancel.AttemptsHoldIff`).
- An item whose holder crashes, whose final update is lost, or whose claim's reply is lost is never
  claimed again, and the queue still reads empty (`QueueStranded.AbandonedIsStranded`).
- A nested type's declaration is generated from its first use and embeds a field of that use's Go
  type, so it fits another use only if both have the same pointer depth
  (`MongoGenerator.DeclarationFitsIff`, `MongoExamples.PointerUseMisfits`).
- A use inside a cycle of different structs lacks fields its struct has elsewhere
  (`MongoShapes.OwnFieldsIff`, `MongoExamples.CyclicUsesDisagree`,
  `MongoExamples.CyclicDeclarationMisfits`); a struct that only refers to
  itself is fine (`MongoExamples.SelfReferenceIsUntangled`). Structs X and XModel in one file share
  a type name (`MongoExamples.ModelPairDisagrees`).
- Generating a model and another one that nests it declares its type twice
  (`MongoGenerator.TargetClashIff`, `MongoExamples.NestedTargetClashes`).
- A registered sentinel at the root overrides a service error's own code
  (`ServiceErrors.CodeKeptIff`, `ServiceErrors.SentinelOverridesCode`), and a message survives a
  remake exactly when the chain has a root cause (`ServiceErrors.MessageKeptIff`).
- A variable inside a one-line `vars { ... }` block does not count as present, so the sync adds it
  again and the name stands on two lines (`BruEnvPlaces.ReAddedIff`,
  `BruEnvPlaces.OneLineBlockDoubles`). A file with several blocks gets each absent name several
  times (`BruEnvPlaces.DefinedOnceIff`, `BruEnvPlaces.TwoBlocksDouble`).
- A rendered url that ends in an opening brace cannot be read back
  (`BruEndpoint.ParsesBackIff`, `BruEndpoint.BraceSegmentLost`).
- Different routes can share a path parameter's variable (`BruFields.SharedVariableIff`,
  `BruFields.RoutesShareVariable`).

Verify with `dafny verify dfyconfig.toml`.

## Model

| member | source | states |
|---|---|---|
| `QueueSafety.ClaimsNeverRepeat` | framework/queue/repository.go:67-102 | In every run whatever, including forced statuses: the claims of one item carry strictly increasing attempt numbers, a stored `attempts` is the number of claims made, and only stored items are ever claimed. |
| `QueueSafety.NumbersIncrease` | framework/queue/repository.go:76-81 | Two claims of one item never carry the same attempt number. |
| `QueueSafety.StepKeepsLog` | framework/queue/repository.go:57-106 | Every step keeps attempt numbers equal to claim counts. |
| `QueueSafety.StepKeepsHeld` | framework/queue/service.go:128-193 | Every step but forcing a held item claimable keeps: at most one holder per item, and what a holder has agrees with the store on tag and attempts and cannot be claimed. |
| `QueueSafety.AtMostOneHolder` | framework/queue/service.go:149-190 | The same in every reachable state of every such run. |
| `QueueSafety.StepKeepsAttempts` | framework/queue/service.go:171-183 | Without `pending` acknowledgements or forced claimable statuses each step keeps: pending means never claimed, retry means claimed with attempts to spare, no item above max(1, maxAttempts). |
| `QueueSafety.AttemptsBounded` | framework/queue/service.go:171-183 | In every such run no item is claimed more than max(1, maxAttempts) times, counted over the claims themselves. |
| `QueueSafety.ReachableDelayExact` | framework/queue/service.go:171-181 | Every retry decided in a reachable state reschedules at `at` plus the integer min(maxBackoff, base * 2^(attempts-1)), or fails the item at maxAttempts. |
| `QueueCancel.StepKeepsLocked` | framework/queue/repository.go:43-55 | No step, other than forcing that item's status, claims an unclaimable item nobody holds; its status stays or becomes canceled. |
| `QueueCancel.RunKeepsLocked` | framework/queue/service.go:250-274 | The same over whole runs. |
| `QueueCancel.CancelSticksIffNotHeld` | framework/queue/service.go:250-274 | From any state, a cancel is permanent in every continuation if and only if no call holds the item at that moment. |
| `QueueCancel.ForcedSplitIffHeld` | framework/queue/service.go:284-290 | Forcing a claimable status makes a second holder possible in some continuation if and only if some call holds the item at that moment. |
| `QueueCancel.ForcedPendingSplitsHolder` | framework/queue/service.go:284-290 | A concrete run from the empty queue that ends with one item held by two calls. |
| `QueueCancel.ClaimUntil` | framework/queue/repository.go:67-103 | A call with room for everything ready reaches every ready item, disturbing no other call. |
| `QueueCancel.PendingAckUnbounded` | framework/queue/service.go:187-189 | For every n and every configuration there is a run in which a callback acknowledging only `pending` has its item claimed n times. |
| `QueueCancel.AttemptsHoldIff` | framework/queue/service.go:171-189 | For every set of statuses callbacks may acknowledge with, the bound on attempts holds in all runs if and only if `pending` is not in the set. |
| `QueueStranded.NeverClaimedIff` | framework/queue/repository.go:43-55 | A stored item is never claimed again in any continuation if and only if its status cannot be claimed and no call holds it. |
| `QueueStranded.AbandonedIsStranded` | framework/queue/service.go:149-190 | After a holder's crash, a lost final update or a lost claim reply the item is never claimed again and does not keep the queue from reading empty. |
| `QueueSpacing.ReclaimIsLate` | framework/queue/repository.go:43-55 | An item that was claimed before is ready again only once one backoff has passed since its latest claim. |
| `QueueSpacing.StepKeepsSpacing` | framework/queue/service.go:180-181 | Each step keeps consecutive claims at least the earlier one's backoff apart, and retry items scheduled by their latest claim. |
| `QueueSpacing.ClaimsAreSpaced` | framework/queue/service.go:81-93 | In every run the k-th claim's `at` is at least the first claim's `at` plus all backoffs in between; no clock is assumed monotone. |
| `QueueSpacing.ExponentialSpacing` | framework/queue/service.go:81-93 | While the cap is not reached that gap is at least base * (2^(k-1) - 1). |
| `QueueSpacing.CappedSpacing` | framework/queue/service.go:81-93 | Past the cap too, it is at least the sum of min(maxBackoff, base * 2^(j-1)), as long as the exponentials fit 64 bits or overflow reaches the cap. |
| `Backoff.RetryBackoff` | framework/queue/service.go:81-93 | From the first attempt on a delay never exceeds the cap. |
| `Backoff.ExactScaling` | framework/queue/service.go:86-92 | For a base of at most 2^53 the trip through float64 is exact: the delay is the integer exponential converted to a 64-bit duration and capped. |
| `Backoff.Float64Nearest` | framework/queue/service.go:86-92 | For every base the float64 it is converted to is a nearest multiple of the smallest power of two that leaves at most 53 bits, an even multiple if two are equally near. |
| `Backoff.ZeroBase` | framework/queue/service.go:86-92 | A base of zero gives no delay up to the 1024th attempt; from the next on the factor is infinite and the platform's overflow value, capped, takes over. |
| `Backoff.BackoffExactIff` | framework/queue/service.go:86-92 | The delay is min(maxBackoff, base * 2^(attempts-1)) if and only if that exponential fits 64 bits or the platform's overflow value reaches the cap. |
| `Backoff.BackoffMonotone` | framework/queue/service.go:81-93 | Delays grow with attempts as long as they fit. |
| `Backoff.BackoffOverflowEscapesCap` | framework/queue/service.go:81-93 | With a two-second base and ten-minute cap the 34th retry can be scheduled in the far past. |
| `Backoff.SumBackoffClosed` | framework/queue/service.go:81-93 | The delays before the k-th claim add up to base * (2^(k-1) - 1) while uncapped. |
| `Backoff.SumBackoffCapped` | framework/queue/service.go:81-93 | They add up to the capped exponentials as long as those fit 64 bits or overflow reaches the cap. |
| `QueueTypes.FirstExists` | framework/queue/repository.go:20-24 | The claim order picks a first element from every nonempty set of documents. |
| `QueueTypes.First` | framework/queue/repository.go:67-90 | The document a sorted find-one picks: none exactly when nothing is ready, otherwise one that comes before every other ready document. |
| `QueueTypes.ReadyAfterClaim` | framework/queue/repository.go:76-81 | A claim takes its own document out of the ready set and no other. |
| `QueueService.TopClaimedUnique` | framework/queue/repository.go:57-106 | The description of a claim loop's result (leading ready items in order, the rest later, the count, the store) admits one list and one store. |
| `QueueFields.ClaimsAreOrdered` | framework/queue/repository.go:20-24 | The documents an undisturbed claim loop returns have non-increasing priority; equal priorities are in order of creation, equal creation times in order of id. |
| `QueueFields.UnclaimedComeLater` | framework/queue/repository.go:67-103 | A due document it leaves has no higher priority than any it returns, and among equals was not created earlier nor has a smaller id; it is left only when the limit is reached, and unchanged. |
| `QueueFields.ClaimedWereDue` | framework/queue/repository.go:43-81 | Every document it returns was of the tag, pending or in retry, and unscheduled or due; it comes back and is stored as dequeued, stamped, one attempt up, with every other field as it was. |
| `QueueFields.HigherPriorityFirst` | framework/queue/repository.go:20-24 | Of a document of priority 1 and one of priority 5 a claim of one takes the second. |
| `QueueService.LeadingExtend` | framework/queue/repository.go:67-103 | One more find-and-update extends the leading ready items of the original store by the next one. |
| `QueueService.Repository.constructor` | framework/queue/repository.go:30-32 | The store starts empty. |
| `QueueService.Repository.InsertItem` | framework/queue/repository.go:34-41 | Adds one document under a fresh id and returns the id; on an error returns none, with the insert done or not. |
| `QueueService.Repository.FindOneAndUpdate` | framework/queue/repository.go:74-90 | Claims the first ready document and returns it as updated, or changes nothing when none is ready. |
| `QueueOthers.ClaimPoint` | framework/queue/repository.go:67-103 | One find-and-update, after any steps of others: what it meets, and its three ways on as protocol steps. |
| `QueueOthers.FinishPoint` | framework/queue/service.go:149-190 | The same for one final update. |
| `QueueProtocol.ForeignKeepsCall` | framework/queue/repository.go:57-106 | No step of others changes what a call holds. |
| `QueueService.Repository.ClaimReadyItems` | framework/queue/repository.go:57-106 | Whatever others do between its operations and whatever errors occur, it takes only protocol steps of its call, makes at most `limit` claims, ends holding exactly the items it returns, each freshly claimed at the given time, and an error drops the call; undisturbed, it returns exactly the first min(limit, ready) items in claim order, each claimed in the store, all else unchanged. |
| `QueueFields.CallsKeepTheirLimits` | framework/queue/repository.go:57-103 | In every run whatever no call ever holds more items than its limit. |
| `QueueService.Repository.UpdateStatus` | framework/queue/repository.go:227-242 | Sets status and time, and the message unless empty; nothing else; nothing at all for an unknown id or a lost update. |
| `QueueService.Repository.RescheduleItem` | framework/queue/repository.go:244-268 | Puts one item in retry with its new schedule, and the message unless empty; nothing else, under each fault. |
| `QueueService.Repository.UpdateManyStatus` | framework/queue/repository.go:270-285 | The status update on every listed stored id and on no other; on an error, on any part of them. |
| `QueueService.Repository.CountByStatuses` | framework/queue/repository.go:307-323 | The number of documents of the tag in the given statuses. |
| `QueueService.SettleNext` | framework/queue/service.go:149-190 | Finishing the next claimed item extends the settled prefix and disturbs no other document. |
| `QueueService.SettledItem` | framework/queue/service.go:128-193 | A settled item in terms of the store before the call alone. |
| `QueueFields.RetryLeaves` | framework/queue/service.go:171-183 | A retry acknowledged below the limit on attempts sets status, time and schedule and nothing else; from the limit on the item fails with the fixed message. |
| `QueueFields.FailureLeaves` | framework/queue/service.go:149-170 | A transformer or callback error fails the item and stores the error text unless that is empty; every other field is as claimed. |
| `QueueFields.AckLeaves` | framework/queue/service.go:186-189 | Any other acknowledged status is stored as it is, with its time and nothing else. |
| `QueueService.Service.constructor` | framework/queue/service.go:52-75 | Keeps the repository, tag, limit and retry settings. |
| `QueueService.Service.Enqueue` | framework/queue/service.go:95-117 | One protocol step that stores a document with the caller's data, schedule and priority under the service's tag, pending and never claimed; on an error no id is returned, with the step taken or not. |
| `QueueService.Service.Dequeue` | framework/queue/service.go:128-193 | Under any faults and any steps of others between its operations the call takes only protocol steps, claims at most the given limit (the service's if none is given) of items due at the given time (the current one if none is given), and is gone afterwards; undisturbed it claims exactly the smaller of that limit and the number of due items, and without faults the store is the pointwise settlement of the first of them and nothing else changes. |
| `QueueService.Service.FinishItems` | framework/queue/service.go:149-190 | The loop over the claimed items: one finish step per item, in order, among any steps of others; undisturbed, each item settled once. |
| `QueueService.Service.FinishItem` | framework/queue/service.go:149-190 | The loop body's branches issue exactly the decided update, whose errors are ignored. |
| `QueueService.Service.Cancel` | framework/queue/service.go:250-261 | One protocol cancel of one id, whatever its status. |
| `QueueService.Service.BulkCancel` | framework/queue/service.go:263-274 | One protocol cancel of all ids; on an error, of any part of them. |
| `QueueService.Service.IsEmpty` | framework/queue/service.go:346-357 | True exactly when nothing of the tag is pending or in retry, or the store fails. |
| `QueueExecutor.Executor.constructor` | framework/queue/executor.go:41-65 | Starts without handlers. |
| `QueueExecutor.Executor.Register` | framework/queue/executor.go:67-69 | Sets one action's handler and keeps the others. |
| `QueueExecutor.Executor.Tick` | framework/queue/executor.go:98-109 | One dequeue with the service's defaults and the handlers as callback: protocol steps only, among any steps of others, and undisturbed the pointwise settlement. |
| `QueueExecutor.PollOutcomes` | framework/queue/executor.go:114-135 | After an undisturbed poll a claimed item is completed iff it transforms and its handler succeeds, in retry iff its handler fails retryably with attempts to spare, failed otherwise; everything else is unchanged. |
| `QueueFields.ExecutorOutcomes` | framework/queue/executor.go:114-135 | A missing handler, a handler that succeeds and one that fails lead to exactly these outcomes, with exactly these stored texts. |
| `QueueExecutor.ExecutorNeverAcksPending` | framework/queue/executor.go:114-135 | The executor never acknowledges with `pending` or `dequeued`. |
| `QueueExecutor.PollProgress` | framework/queue/service.go:128-193 | A poll that finds anything waiting strictly lowers the number of claims still possible. |
| `QueueExecutor.QueueDrains` | framework/queue/service.go:346-357 | With no new work the queue is empty after at most that many polls past the schedules of its waiting items, whatever the handlers do. |
| `QueueExecutor.ReachableCanDrain` | framework/queue/service.go:171-183 | Every state reachable without `pending` acknowledgements meets the drain's starting condition. |
| `QueueBudget.StepLeft` | framework/queue/service.go:149-190 | No step leaves an item more claims than it had, and a claim uses one up. |
| `QueueBudget.ClaimsWithinBudget` | framework/queue/service.go:128-193 | With no new work, from any state that meets the invariants, all workers together make at most as many claims of a tag's items as those waiting or held have left, under crashes, lost replies and updates, and cancels. |
| `QueueBudget.BudgetIsRemaining` | framework/queue/service.go:346-357 | With nothing of the tag in any call's hands that bound is the number a drain counts. |
| `QueueBudget.ReachableIsSteady` | framework/queue/service.go:171-183 | Every state reachable without `pending` acknowledgements meets the invariants. |
| `MongoParser.Shrinks` | framework/cmd/mongogen/parser/parser.go:191-206 | Each descent leaves fewer unvisited structs, so the walk ends on cyclic files too. |
| `MongoParser.ExtractFields` | framework/cmd/mongogen/parser/parser.go:157-285 | The loop over declarations computes the recursive walk. |
| `MongoParser.ExtractOne` | framework/cmd/mongogen/parser/parser.go:171-222 | One declaration: embedded structs in place, known embeds synthesized, named fields one by one. |
| `MongoParser.ExtractNamed` | framework/cmd/mongogen/parser/parser.go:223-282 | The loop over a declaration's names. |
| `MongoParser.ExtractField` | framework/cmd/mongogen/parser/parser.go:224-281 | One name: skipped, or one field with its full key and the fields of its struct unless that is on the path. |
| `MongoParser.ExtractIsKeyedOutline` | framework/cmd/mongogen/parser/parser.go:157-285 | Extraction factors into an outline that ignores the parent key and an assignment of keys from the top. |
| `MongoParser.KeysAreRooted` | framework/cmd/mongogen/parser/parser.go:231-234 | On every struct map each field is synthesized or comes from a declaration of the walked struct or one it embeds, with that declaration's Go type and with its parent's key, a dot and the key its own tag or name gives; and so on below. |
| `MongoKeys.TaggedField` | framework/cmd/mongogen/parser/parser.go:287-299 | A declared field whose tag is a key, with or without a comma and options behind it, is extracted under that key, after the parent's key and a dot if there is a parent. |
| `MongoKeys.UntaggedField` | framework/cmd/mongogen/parser/parser.go:287-301 | With no tag, or one that starts with a comma, it is extracted under its name in snake case. |
| `MongoKeys.DashedField` | framework/cmd/mongogen/parser/parser.go:287-292 | A tag that is a dash drops every name of its declaration. |
| `MongoKeys.ChildField` | framework/cmd/mongogen/parser/parser.go:227-255 | A field of a declared struct off the path holds that struct's fields, each keyed by its parent's key, a dot and its own. |
| `MongoKeys.KeysHoldNoCommas` | framework/cmd/mongogen/parser/parser.go:287-301 | On every struct map no key at any depth holds a comma, as long as snake-case names and the parent key hold none. |
| `MongoKeys.KnownEmbeds` | framework/cmd/mongogen/parser/parser.go:422-442 | The two framework types, embedded plainly or through a package, yield these fields with these keys and types. |
| `MongoKeys.NamedTypes` | framework/cmd/mongogen/parser/parser.go:314-326 | A named type is qualified exactly when the target package is a different one and the type is not built in, for the whole list of built-in types. |
| `MongoPaths.VisitedIrrelevant` | framework/cmd/mongogen/parser/parser.go:191-206 | Two visited sets that agree on everything within reach give the same result, on every file. |
| `MongoPaths.CountMono` | framework/cmd/mongogen/parser/parser.go:191-206 | Visiting more structs never adds fields. |
| `MongoPaths.OnPathNotEmpty` | framework/cmd/mongogen/parser/parser.go:171-282 | A struct on the walk's path yields fields as long as those after it on the path are not visited. |
| `MongoPaths.TangleLess` | framework/cmd/mongogen/parser/parser.go:239-255 | Visiting a struct within reach takes fields away. |
| `MongoPaths.OwnOutlineIff` | framework/cmd/mongogen/parser/parser.go:239-255 | A use met on a path has its struct's own outline if no struct of the path is within reach of it, and strictly fewer fields otherwise. |
| `MongoPaths.NoMutualIsUntangled` | framework/cmd/mongogen/parser/parser.go:191-206 | No path is tangled in a file where no two different structs reach each other. |
| `MongoPaths.RankedIsNoMutual` | framework/cmd/mongogen/parser/parser.go:191-206 | It is enough that every reference leads to its own struct or to one of lower rank. |
| `MongoShapes.ShapeIgnoresKey` | framework/cmd/mongogen/parser/parser.go:227-285 | Two extractions of one outline under different keys differ in keys only. |
| `MongoShapes.ModelNameInjective` | framework/cmd/mongogen/parser/parser.go:258-269 | Without a pair X and XModel, generated type names tell structs apart. |
| `MongoShapes.DepthDecides` | framework/cmd/mongogen/parser/parser.go:303-312 | Types naming one struct render alike iff their pointer depths agree. |
| `MongoShapes.UseInFields` | framework/cmd/mongogen/parser/parser.go:239-269 | Every nested field of a model is met on some path and holds what its struct yields there. |
| `MongoShapes.PathInFields` | framework/cmd/mongogen/parser/parser.go:239-269 | Every path on which the walk finds fields ends in such a nested field. |
| `MongoShapes.OwnFieldsIff` | framework/cmd/mongogen/parser/parser.go:239-255 | A nested field has, keys aside, the fields of its struct's own model if and only if no struct above it can be reached back from its struct. |
| `MongoShapes.EveryUseOwnIff` | framework/cmd/mongogen/parser/parser.go:157-285 | All nested fields of the targets' models have their struct's own fields if and only if no path on which the walk finds fields is tangled. |
| `MongoShapes.NestedUsesAgreeIff` | framework/cmd/mongogen/parser/parser.go:239-269 | Any two uses of one type name, in any two models, are met on returned paths of one struct, and each holds what the struct yields there; if one path is untangled the uses agree iff the other is too; paths with the same structs within reach agree anyway; Go types agree iff pointer depths do. |
| `MongoShapes.NestedUsesAgree` | framework/cmd/mongogen/parser/parser.go:239-269 | On a file where no path from the targets is tangled, all uses of one type name agree. |
| `MongoGenerator.SeenNames.constructor` | framework/cmd/mongogen/generator/generator.go:91-100 | A fresh map has seen no name. |
| `MongoGenerator.CollectNestedTypes` | framework/cmd/mongogen/generator/generator.go:188-209 | The recursive loop over the shared map yields the post-order collection and leaves the map as that collection does. |
| `MongoGenerator.StampFieldPkg` | framework/cmd/mongogen/generator/generator.go:177-186 | A fresh tree equal to the old one but for the package at every depth. |
| `MongoGenerator.CollectSpec` | framework/cmd/mongogen/generator/generator.go:188-209 | Exactly the referenced names not seen before are declared, once each, never before the types their own fields refer to, and each from some field of the trees. |
| `MongoGenerator.CollectAppend` | framework/cmd/mongogen/generator/generator.go:102-138 | Collecting two field lists one after the other through one map is collecting their concatenation. |
| `MongoGenerator.GenerateAllIsCollect` | framework/cmd/mongogen/generator/generator.go:102-138 | A package sharing one map declares what a single field list of all its models would. |
| `MongoGenerator.GenerateModels` | framework/cmd/mongogen/generator/generator.go:102-138 | The model-by-model calls with one shared map emit those declarations, in that order. |
| `MongoGenerator.UseTells` | framework/cmd/mongogen/generator/generator.go:177-209 | A nested field of a package has its struct's own fields iff the path it is met on is untangled. |
| `MongoGenerator.PackageUse` | framework/cmd/mongogen/generator/generator.go:177-209 | Every nested field of a package is the stamped form of a use met on the returned path. |
| `MongoGenerator.DeclarationFitsIff` | framework/cmd/mongogen/generator/generator.go:188-206 | Every nested use finds exactly one declaration of its name, made from another use of the struct, each with the path it is met on; if the declared one's path is untangled it fits iff the use's path is untangled too and the pointer depths agree; if only the use's path is untangled it does not fit. |
| `MongoGenerator.OneDeclarationFits` | framework/cmd/mongogen/generator/generator.go:188-206 | Where no path is tangled, self-referring structs included, the one declaration has every use's fields and fits iff the pointer depths agree. |
| `MongoPackage.AllMatchIff` | framework/cmd/mongogen/generator/templates.go:110-130 | In any field list, every use matches its declaration one level deep, as the templates check it, iff all uses of a name agree in Go type and in their fields at every depth. |
| `MongoPackage.ModelsRegular` | framework/cmd/mongogen/generator/generator.go:177-186 | The stamped fields of a package have the shape that result asks for. |
| `MongoPackage.DeclarationsQualified` | framework/cmd/mongogen/generator/generator.go:188-206 | Every declaration of a package carries the package's qualifier and the field type of its Go type, and so does every field below it at any depth. |
| `MongoPackage.SharedDeclarationIsQualified` | framework/cmd/mongogen/generator/generator.go:197-203 | In shared mode the declaration a nested use needs is there and is qualified with the framework's package. |
| `MongoPackage.PackageMatchesIff` | framework/cmd/mongogen/generator/templates.go:110-130 | So for every package, with no condition on its file. |
| `MongoPackage.PackageCompilesIff` | framework/cmd/mongogen/generator/templates.go:110-130 | Where no path is tangled, the package's literals type-check, and leave no key out, iff all uses of a name go through equally many pointers. |
| `MongoGenerator.TargetClashIff` | framework/cmd/mongogen/parser/parser.go:258-269 | A target's own type name is declared a second time iff the walk from some target meets a named field of a struct with that generated name and finds fields in it. |
| `MongoExamples.NestedTargetClashes` | framework/cmd/mongogen/parser/parser.go:127-133 | OrderModel nesting UserModel, both generated: UserModel is declared again. |
| `MongoExamples.ModelPairDisagrees` | framework/cmd/mongogen/parser/parser.go:258-269 | Structs X and XModel: two fields of one model use one type name for different field sets. |
| `MongoExamples.TangledUsesMayAgree` | framework/cmd/mongogen/parser/parser.go:191-206 | Two uses on tangled paths with different structs above them that still hold the same fields. |
| `MongoExamples.SelfReferenceIsUntangled` | framework/cmd/mongogen/parser/parser.go:191-206 | A struct that refers to itself is on no tangled path. |
| `MongoExamples.PointerUseMisfits` | framework/cmd/mongogen/generator/generator.go:188-206 | A struct nested by value and through a pointer: the kept declaration does not fit the second use. |
| `MongoExamples.CyclicUsesDisagree` | framework/cmd/mongogen/parser/parser.go:191-206 | On a cyclic file two models use one type name for different field sets. |
| `MongoExamples.DeclaredByFirst` | framework/cmd/mongogen/generator/generator.go:188-206 | A name the first model uses is declared from the first model. |
| `MongoExamples.CyclicDeclarationMisfits` | framework/cmd/mongogen/generator/generator.go:188-206 | On that file, generating A and then C, the declaration made for A does not fit C's use. |
| `BruParams.ExtractPathParams` | framework/cmd/brunogen/generator/bru.go:521-537 | Every parameter of the route appears, each name once, named by its first occurrence. |
| `BruParams.EnvVarIsName` | framework/cmd/brunogen/generator/bru.go:539-573 | A parameter's variable is a nonempty word of capitals, digits and underscores. |
| `BruFields.RootVariable` | framework/cmd/brunogen/generator/bru.go:539-553 | With no static segment before it a parameter's variable is ROOT_ and its own part. |
| `BruFields.VariableAfterTwo` | framework/cmd/brunogen/generator/bru.go:555-572 | After two static segments the variable is their parts and the parameter's, one of the two left out if it repeats the other. |
| `BruFields.RedundantIff` | framework/cmd/brunogen/generator/bru.go:575-588 | A part repeats how another begins iff, case aside, it is a prefix of it, or its stem with S is, or its stem with IES where the other goes on with Y. |
| `BruFields.SharedVariableIff` | framework/cmd/brunogen/generator/bru.go:539-573 | Two routes of one unrepeated static segment share the variable of a parameter iff their segments have the same part. |
| `BruFields.RoutesShareVariable` | framework/cmd/brunogen/generator/bru.go:555-570 | Routes under `users` and under `user` with a parameter `user_id` share its variable. |
| `BruEndpoint.RenderRoute` | framework/cmd/brunogen/generator/bru.go:426-490 | The builder writes the blocks of the request file in order. |
| `BruFields.RenderedLines` | framework/cmd/brunogen/generator/bru.go:426-490 | The lines of the file for every route: which blocks appear when, and which name, variable and text stand where in them. |
| `BruFields.BlocksAreMethods` | framework/cmd/brunogen/generator/bru.go:218-238 | The seven methods in any letter case, and no other name, open a block whose url is read. |
| `BruEndpoint.ParseBruEndpoint` | framework/cmd/brunogen/generator/bru.go:215-249 | The scanning loop with its block flag computes the recursive reading. |
| `BruEndpoint.NormalizeURLPath` | framework/cmd/brunogen/generator/bru.go:251-279 | The loop that removes template variables, then cutting, parsing and stripping the base. |
| `BruEndpoint.MatchEndpoint` | framework/cmd/brunogen/generator/bru.go:293-320 | True iff the methods agree and the normalised paths are equal or agree segment by segment but for parameters. |
| `BruMatching.MatchesIff` | framework/cmd/brunogen/generator/bru.go:293-320 | For two lists of plain segments, the route of the first is matched by the request under the base variable with the second iff the methods agree up to case, the lists are equally long, and at each position one of the two is a parameter or both are equal up to case. |
| `BruMatching.OtherNameMatches` | framework/cmd/brunogen/generator/bru.go:309-319 | A parameter matches one of any other name. |
| `BruMatching.AbsoluteMatchesIff` | framework/cmd/brunogen/generator/bru.go:270-277 | An absolute url whose path lies under the base path matches a route under the same condition on what follows the base. |
| `BruMatching.RenamedIsRecognised` | framework/cmd/brunogen/generator/bru.go:281-320 | The file rendered for a route is still recognised as the route once that route's parameters have other names. |
| `BruEndpoint.ReadUrlEndsNoBrace` | framework/cmd/brunogen/generator/bru.go:215-249 | No file is ever read as an endpoint whose url ends in an opening brace. |
| `BruEndpoint.ParsesBack` | framework/cmd/brunogen/generator/bru.go:426-451 | A rendered file reads back as the route's method and url, whatever blocks follow. |
| `BruEndpoint.ParsesBackIff` | framework/cmd/brunogen/generator/bru.go:215-249 | For a one-line url it does so iff the url does not end in an opening brace. |
| `BruEndpoint.BraceSegmentLost` | framework/cmd/brunogen/generator/bru.go:426-451 | A route whose last segment is an opening brace is not read back. |
| `BruEndpoint.StripsLeading` | framework/cmd/brunogen/generator/bru.go:259-268 | A leading template variable is the first one removed. |
| `BruEndpoint.CutUrl` | framework/cmd/brunogen/generator/bru.go:252-255 | Trimmed and cut at its query, a rendered url is its base in front of the trimmed, cut path. |
| `BruEndpoint.RoundTrip` | framework/cmd/brunogen/generator/bru.go:251-320 | For every route, base path and URL parser the endpoint read back from the rendered file is recognised as that route. |
| `BruEnv.ContainsEnvVar` | framework/cmd/brunogen/generator/bru.go:733-742 | True iff some scanned line defines the name. |
| `BruEnv.AddMissingEnvVars` | framework/cmd/brunogen/generator/bru.go:667-731 | The whole edit, with its three results: untouched, rewritten, or a block appended. |
| `BruEnvFields.BlockGetsNames` | framework/cmd/brunogen/generator/bru.go:683-714 | A file with one block gets the absent names as lines right before its closing brace, in the order asked for; every other line stays where it is. |
| `BruEnvFields.FileGetsBlock` | framework/cmd/brunogen/generator/bru.go:716-728 | A file without one gets a block of them at its end, after a newline of its own if the text does not end in one. |
| `BruEnvFields.WholeBlock` | framework/cmd/brunogen/generator/bru.go:685-703 | A line that is a whole block of at least eight bytes becomes an opening line, its trimmed content unless empty, the names and a closing line; a shorter one only opens a block. |
| `BruEnvFields.PresentIff` | framework/cmd/brunogen/generator/bru.go:733-742 | A name counts as present iff some line, white space aside, is the name or goes on after it with a colon or a space. |
| `BruEnv.RewriteLines` | framework/cmd/brunogen/generator/bru.go:683-714 | The loop with its two flags computes the recursive rewriting. |
| `BruEnv.RewriteOne` | framework/cmd/brunogen/generator/bru.go:684-713 | The branches of the loop body. |
| `BruEnv.RewriteDefines` | framework/cmd/brunogen/generator/bru.go:683-714 | Rewriting keeps every definition and, where it inserts, adds every missing one. |
| `BruEnv.SyncCompletes` | framework/cmd/brunogen/generator/bru.go:667-731 | Every requested name is contained afterwards, a second run changes nothing, and all lines but one-line vars blocks survive in order. |
| `BruEnv.ChangedIffMissing` | framework/cmd/brunogen/generator/bru.go:667-676 | The change flag is set iff some name was absent; unset, the text is untouched. |
| `BruEnv.OneLineExpands` | framework/cmd/brunogen/generator/bru.go:685-697 | A one-line vars block counts as defining nothing before it is expanded, and carries the new lines after. |
| `BruEnvPlaces.RewriteCount` | framework/cmd/brunogen/generator/bru.go:683-714 | A rewrite defines a name on the lines that did, once more at every place it inserts, and once for every one-line block that assigned it. |
| `BruEnvPlaces.SyncCount` | framework/cmd/brunogen/generator/bru.go:667-731 | So for the whole sync, in each of its three results: exactly how many lines define a name. |
| `BruEnvPlaces.ReAddedIff` | framework/cmd/brunogen/generator/bru.go:683-697 | The sync inserts a name the file already assigns iff it is requested, no line defines it and a one-line block assigns it; it then stands on at least two lines. |
| `BruEnvPlaces.DefinedOnceIff` | framework/cmd/brunogen/generator/bru.go:667-731 | A requested name that was absent is afterwards defined exactly once iff the file had at most one place to put it and no one-line block assigning it. |
| `BruEnvPlaces.TwoBlocksDouble` | framework/cmd/brunogen/generator/bru.go:683-714 | A file with two vars blocks gets an absent name in both. |
| `BruEnvPlaces.OneLineBlockDoubles` | framework/cmd/brunogen/generator/bru.go:685-697 | A file that is one block `vars { FOO: x }` comes back with two lines defining FOO, for every name and value. |
| `BruEnvPlaces.InsertedInside` | framework/cmd/brunogen/generator/bru.go:683-714 | An absent name is put on a line of its own after an opening line, with no closing line in between, unless a one-line block holds just a closing brace. |
| `BruEnvVars.CollectPathParamEnvVars` | framework/cmd/brunogen/generator/bru.go:590-604 | The variables of all routes' parameters, each once, sorted. |
| `BruEnvVars.PlaceholdersDefined` | framework/cmd/brunogen/generator/bru.go:590-604 | After the sync every path parameter placeholder passes the sync's own presence test; one that was absent stands inside a vars block. |
| `ServiceErrors.IsRoot` | framework/api/service/errors/errors.go:202-207 | An error matches a sentinel iff that sentinel is its root cause. |
| `ServiceErrors.ServiceError.constructor` | framework/api/service/errors/errors.go:30-64 | Status and violations from the outermost inner service error, message from the root cause, stack from the text. |
| `ServiceErrors.ServiceError.WithStatusCode` | framework/api/service/errors/errors.go:66-73 | Sets the status and nothing else. |
| `ServiceErrors.ServiceError.Wrap` | framework/api/service/errors/errors.go:75-93 | Wraps the cause, or the stack, or the message, or starts one; the stack becomes the new text. |
| `ServiceErrors.ServiceError.AddError` | framework/api/service/errors/errors.go:111-132 | Sets one field's violation and keeps all else. |
| `ServiceErrors.ServiceError.Error` | framework/api/service/errors/errors.go:138-152 | The text of the whole chain. |
| `ServiceErrors.ServiceErrorCodeFor` | framework/api/service/errors/errors.go:202-215 | Whatever order the registry is walked in, the code is the same one. |
| `ServiceErrors.InternalByDefault` | framework/api/service/errors/errors.go:202-215 | No error, and any that is no registered sentinel, has the internal error's code. |
| `ServiceErrors.StepKeeps` | framework/api/service/errors/errors.go:75-93 | One wrap of any of the three kinds keeps code, status, violations and root, and puts its context in front. |
| `ServiceErrors.ChainKeeps` | framework/api/service/errors/errors.go:30-64 | So does every chain of them, from any root: the text is the contexts, outermost first, then the root's text. |
| `ServiceErrors.CodeKeptIff` | framework/api/service/errors/errors.go:202-219 | A service error's own code survives a remake iff no registered sentinel at its root says otherwise. |
| `ServiceErrors.SentinelOverridesCode` | framework/api/service/errors/errors.go:202-219 | Made with one code around a sentinel registered for another, and remade: the registered code wins. |
| `ServiceErrors.RootAfter` | framework/api/service/errors/errors.go:75-93 | The root cause of a new service error after any chain: its cause's own; or its message, if it had no cause and the first step wraps in place; otherwise none. |
| `ServiceErrors.MessageKeptIff` | framework/api/service/errors/errors.go:46-54 | Its message survives any chain and a remake iff the chain has a root cause; otherwise the remade message is the whole text. |
| `TypeRegistry.Lookup` | framework/cmd/brunogen/parser/registry.go:110-120 | The first registry in turn that holds the name answers; none does exactly when none holds it; so asking them in turn is looking up their left-biased merge. |
| `TypeRegistry.CycleReachesNothing` | framework/cmd/brunogen/parser/registry.go:104-108 | A walk that returns to a name never reaches a struct. |
| `TypeRegistry.ReachesOnce` | framework/cmd/brunogen/parser/registry.go:102-133 | There is one struct to reach, at one distance. |
| `TypeRegistry.ResolveStruct` | framework/cmd/brunogen/parser/registry.go:102-133 | A struct is returned iff following aliases in the merge reaches it within seven hops. |
| `Acronym.IsSubsequence` | framework/cmd/verify/rules/rules.go:1540-1550 | The greedy loop answers whether one string is a subsequence of the other, case folded. |
| `Acronym.SubsequenceIff` | framework/cmd/verify/rules/rules.go:1540-1550 | That holds iff strictly increasing positions spell it. |
| `Acronym.ComputeAcronym` | framework/cmd/verify/rules/rules.go:1422-1434 | The lowered capitals of the type's leaf, in order. |
| `Acronym.CheckServiceFieldName` | framework/cmd/verify/rules/rules.go:1507-1538 | True iff the name meets every condition of the rule. |
| `AcronymNames.ValidIff` | framework/cmd/verify/rules/rules.go:1507-1538 | A name passes iff it is two to four lower-case letters, the last an s, that occur in order in the type's leaf; each other test the rule makes follows from these. |
| `Acronym.LeafSuffix` | framework/cmd/verify/rules/rules.go:1410-1411 | A dotless suffix of a type is a suffix of its leaf. |
| `AcronymNames.LeafAfter` | framework/cmd/verify/rules/rules.go:1410-1411 | The leaf is what follows the last dot. |
| `AcronymNames.SiblingUnqualifiedIff` | framework/cmd/verify/rules/rules.go:1401-1420 | An unqualified type is a sibling service iff it ends in Service with something before it, is no pointer, and contains neither of the two other service words. |
| `AcronymNames.SiblingQualifiedIff` | framework/cmd/verify/rules/rules.go:1401-1420 | A qualified one, iff in addition its first part is the ports package. |
| `Acronym.SuggestionAcceptedIff` | framework/cmd/verify/rules/rules.go:1401-1434 | For every sibling service type the suggested name is accepted iff the leaf has two to four capitals. |

## Left out

- The MongoDB driver, BSON and sessions: each store operation is atomic, ids are fresh numbers, times are integer nanosecond ticks without millisecond truncation.
- Callbacks, transformers and handlers are functions of the claimed item in the object model; the step system's finish step allows any outcome.
- Settings belong to a tag: two services that share a tag with different retry settings are not modelled.
- `QueueBudget.ClaimsWithinBudget`: bounds claims under interference; that the queue becomes empty is stated for undisturbed polls (`QueueExecutor.QueueDrains`), since crashed holders keep their items.
- `UpdateQueueItemData` and `UpdateQueueItemStatus` appear as protocol steps only; `BulkUpdateStatus`, the find, filter and list readers would only add easy members.
- `QueueExecutor.Process`: the action name in the no-handler message is quoted without escapes, and polling intervals and shutdown of the run loop are not modelled.
- Letter case is ASCII only in all string comparisons; the scanner's limit on line length is not modelled.
- `MongoParser.ExtractFields`: the import set it also fills, and snake case, which is a parameter; package names in selectors are plain identifiers, struct names are nonempty and do not start with a star where that matters; Go parsing, templates and formatting are not part of this model.
- `MongoShapes.OwnFieldsIff`: that a tangled use lacks fields is stated for files that do not declare `ModelBase` or `WithUserID` themselves, whose fields would be synthesized when such a struct is on the path.
- `MongoGenerator.DeclarationFitsIff`: leaves open whether a declaration made on a tangled path fits a use on another tangled path; they can agree although different structs are left out (`MongoExamples.TangledUsesMayAgree`).
- `MongoPackage.PackageCompilesIff`: is about literals against their declarations; a target declared twice (`MongoGenerator.TargetClashIff`), two fields of one name in a struct, and imports are separate conditions.
- `BruEndpoint.RenderRoute`: the JSON body and the documentation text come in as parameters, and the builder is kept as the list of lines written so far.
- `BruEndpoint.NormalizeURLPath`: the URL parser is a parameter; that normalising twice changes nothing is not claimed, since the base is stripped once per call.
- `BruEndpoint.RoundTrip`: assumes one-line action and url, a url that does not end in an opening brace, and, when there is a query, a path without trailing white space.
- `BruEnvVars.PlaceholdersDefined`: a name some line outside any vars block defines passes the sync's presence test and is not inserted.
- File writing, directory walking, pruning, route exclusion and file naming in the request generator.
- `ServiceErrors.ServiceError.Wrap`: nil receivers, and aliasing between service errors in one chain (a chain holds each one's fields as they were when it was wrapped); sentinels are leaf errors.
- `TypeRegistry.ResolveStruct`: building registries from Go files, and field resolution through collections.
- The other rules of the verifier, the commands, mocks, scaffolding, pagination, HTTP, logging and configuration.

# Verified model of the CEL admission webhook

The webhook brings validating admission policies to clusters that do not serve
them: policies and bindings are kept as objects of the CRD group
`admissionregistration.x-k8s.io`, a client translates between them and the native
types, a proxy does the same for API requests on the wire, controllers and a schema
cache keep up with the cluster, and a web server answers admission reviews. The
project models these parts in Dafny and proves what they promise.

`dafny verify dfyconfig.toml` checks everything.

| part | modules |
|---|---|
| group rewriting in the proxy | `Replacement` (find and replace on sequences), `Lines` (lines and the scanner's tokens), `Interceptor` |
| the generic controller | `Keys`, `WorkQueue`, `ControllerProtocol` (the steps), `ControllerProofs` (every run), `ControllerRuns` (lost changes, the end of the drain), `ControllerProgress` (which changes can still be reconciled), `ControllerHistory` and `ControllerDrain` (what happened, read off the steps of a run alone), `ControllerWorkers` (dropped keys, retries, when workers leave, order), `Controller` (handlers and worker loop as methods) |
| the schema cache | `Kinds`, `SchemaCache`, `SchemaRuns` (which purges help) |
| the webhook server's `Run` | `WebhookRun` (the steps), `WebhookRunProofs` (every run) |
| conversions and the transformed client | `GoJson` (Go values and their JSON), `AlikeTypes` (types that differ in `omitempty`), `Conversion`, `TransformedClient`, `MirroredStore` (the client against a plain native store), `PolicyClient` (the conversions put into the client) |
| generated deep copies | `DeepCopy` (copying on an explicit memory), `GeneratedCopies` (the plan of each generated function) |
| the admission decision | `Validators`, `Admission` |

Concurrent parts are state machines: a run is any sequence of steps, and the
theorems speak about every reachable state or about every run from one. Code that
changes state step by step is given as methods, and the theorems about whole runs
are lemmas over the functions that specify them.

## Assumptions

- Bytes are characters: results hold for all character sequences.
- `WorkQueue` is the contract of the rate limited queue of client-go v0.27
  (go.mod:11), and `Serve` in `TransformedClient` that of an API server's store.
  Neither is part of the repository.
- Native and CRD types have the same fields under the same names, but for
  `omitempty`: matchConstraints, policyName, and apiVersion and kind of a ParamKind
  are omitted when empty on the native side only. Both sides are described, and
  `PoliciesAreAlike` proves what the conversions need. `meta` stands for
  metav1.ObjectMeta, the same on both sides, and is any type whose JSON names differ.
- The deep copies of ObjectMeta and ListMeta come from apimachinery. Their plans are
  parameters, required to leave nothing shared. Those of LabelSelector, Condition and
  RuleWithOperations, from the same libraries, are written out.
- Whether a reader reports the end of a body together with its last bytes is a
  parameter (`eof`); the scanner's limit for the last line depends on it.
- A decoder reports the kind that the decoded object has (`Truthful`, used where the
  theorem is about kinds).

## Where the code and what it says differ

- `Run` of the webhook promises the context's error among others
  (pkg/webhook/server.go:31-40). The error channel is unbuffered and is not read
  again after a restart or after the loop was left for another reason, so a serving
  goroutine then waits for ever, and `Run` for it. `Run` returns only with the
  listen error of a server that was never restarted (`ReturnsOnlyListenError`), and
  can still return exactly if there was no restart and it is in its loop or has
  received that error (`CanReturnExactly`); one restart, or cancelling the context
  (`CancelledRunIsStuck`), is enough to lose that.
- The way to the native types writes `apiregistration.k8s.io/v1alpha1`, without
  "admission" (pkg/controller/admissionregistration.x-k8s.io/v1alpha1/injected_client.go:94,130).
  So a CRD object comes back as it was exactly if it has no version or the CRD version
  and nothing in it is lost in JSON (`PolicyComesBackExactly`), and a native object of
  the right version never does (`PolicyRoundTrips`). Through the client this shows:
  `PoliciesIndistinguishableExactly` says for which objects the client can be told
  from a plain native store, `RightVersionIsNotKept` gives the call that does it.
- A deletion that the informer has missed arrives as a tombstone, for which the key
  function fails; the handler drops it (pkg/controller/generic.go:66-74,102-105).
  `TombstoneIsLost` gives a run in which a reconciled object's deletion is lost for
  good, `TakenUpExactly` says for which events that happens, and
  `TombstoneIsSavedExactly` when a tombstone's deletion can still be reconciled, for
  every state before shutdown. `NoLostUpdate` is about the events that announce.
- If the context ends before any worker reaches its loop, `Run` of the controller
  returns with its queue as it was at the shutdown (`DrainMayServeNothing`).
  `DrainExactly` says when the drain reconciles every dirty key.
- The CRD handlers purge by the group and kind of the definition object itself
  (pkg/controller/schemaresolver/resolver.go:48-63), not by those it defines.
  `FreshensExactly` says that such a purge makes later answers fresh exactly for kinds
  of that same group and kind, and `OtherPurgeLeavesStale` gives the run in which a
  later call answers the old schema of any other kind.
- `notifyChanges` never sees a change (pkg/webhook/server.go:72-84); a change of the
  TLS input may happen at any time in the model.
- The proxy sends the lines of a body without their ends, so a native group name that
  a line end splits is whole behind the proxy, and not rewritten
  (`SplitNameIsNotRewritten`). `SentNamesExactly` counts the names that are left, for
  every body: a body that is sent is free of them exactly if taking out its line ends
  makes no new one.

## Model

| member | source | states |
|---|---|---|
| Replacement.Index | cmd/interceptor/main.go:53 | The search finds the first occurrence of the group name, or none only if there is none. |
| Replacement.ReplaceAllLoop | cmd/interceptor/main.go:58-59 | The search-and-copy loop replaces left to right without overlap. |
| Replacement.ReplaceKeepsPieces | cmd/interceptor/main.go:58-78 | However a text is glued together from pieces without the pattern, replacing keeps the pieces and exchanges the glue. |
| Replacement.EveryTextHasPieces | cmd/interceptor/main.go:58-78 | Every text is glued together in that way, so the previous row fixes replacement for all texts. |
| Replacement.ForthAndBack | cmd/interceptor/main.go:58-78 | For two patterns that cannot share a position, replacing forth and back equals replacing back at once. |
| Replacement.ReplacedCounts | cmd/interceptor/main.go:58-78 | No old pattern is left; new ones are the old matches plus those that were there. |
| Replacement.ReplaceAround | cmd/interceptor/main.go:63-69 | A character outside the pattern splits the text: no match straddles it. |
| Interceptor.KubernetesGroupsAreValid | cmd/interceptor/main.go:58-78 | The two names, version included, are those of the code; they have no borders, do not contain each other, no end of one starts the other, neither holds a line end, and they differ in length by two. |
| Interceptor.RewriteForthAndBack | cmd/interceptor/main.go:58-78 | backward(forward(s)) == backward(s) and forward(backward(s)) == forward(s), for every text. |
| Interceptor.ForwardConserves | cmd/interceptor/main.go:58-67 | A path, or any text rewritten in one piece, then names the native group nowhere, names the CRD group once for every name of either before, and is two longer per match; bodies are rewritten in lines, see `SentNamesExactly`. |
| Interceptor.BackwardConserves | cmd/interceptor/main.go:78-81 | The same for answers, two shorter per match. |
| Interceptor.RoundTripExactly | cmd/interceptor/main.go:58-78 | A text survives the way forth and back exactly if it does not name the CRD group; back and forth exactly if it does not name the native one. |
| Interceptor.ForwardIsBijection | cmd/interceptor/main.go:58-78 | Rewriting is one-to-one from texts without the CRD group onto texts without the native group. |
| Lines.FitByLine | cmd/interceptor/main.go:63-65 | The scanner's limit, stated on positions of the text, holds exactly if it holds for the first line and for the rest. |
| Lines.ScannedExactly | cmd/interceptor/main.go:63-65 | The scanner comes to see all of a text exactly if every line fits. |
| Lines.StripReplacedByLine | cmd/interceptor/main.go:63-69 | Replacing in the whole text and taking out line ends starts with the first line, replaced on its own. |
| Lines.StripsExactly | cmd/interceptor/main.go:63-69 | Taking out line ends takes out every line feed, with the carriage return before it, and a carriage return at the very end; a line that does not end in a carriage return stays whole. |
| Lines.TokensExactly | cmd/interceptor/main.go:63-65 | A first line of up to 65535 characters is the first token, without one carriage return at its end, and the rest is scanned in the same way; a longer one stops the scanner. |
| Lines.LastTokenExactly | cmd/interceptor/main.go:63-65 | A line without an end is a token up to 65535 characters, and at 65536 only if the end of the body is reported with its last bytes. |
| Interceptor.RewrittenLinesAreScannedLines | cmd/interceptor/main.go:65-68 | The chunks sent are the scanner's tokens, each rewritten. |
| Interceptor.StreamBody | cmd/interceptor/main.go:62-70 | The scanning loop sends those chunks; together they are the rewritten body without line ends exactly if the scanner can hold every line. |
| Interceptor.StreamedBodyExactly | cmd/interceptor/main.go:62-70 | Line-by-line rewriting equals whole-body rewriting with line ends stripped, if and only if every line fits the scanner. |
| Interceptor.JoinedNames | cmd/interceptor/main.go:63-69 | Without line ends, a rewritten text has the native names that the line ends split, and a CRD name for each other one, for every text. |
| Interceptor.SentNamesExactly | cmd/interceptor/main.go:62-70 | For every body: the native names in what is sent are those that taking out the line ends adds to what the scanner sees, and every other one is sent as a CRD name; so some are left exactly if taking out the line ends adds some. |
| Interceptor.SplitNameIsNotRewritten | cmd/interceptor/main.go:63-69 | A group name split over two lines arrives whole and not rewritten. |
| Interceptor.JoinedByOneSlash | cmd/interceptor/main.go:52 | The base path and the path are joined by exactly one slash. |
| Interceptor.JoinKeepsGroup | cmd/interceptor/main.go:52-58 | A path that names the group still does after it is joined to any base path. |
| Interceptor.AnswerGuardFollowsRequestGuard | cmd/interceptor/main.go:52-75 | The answer's guard passes exactly if the request's did, or the joined path names the CRD group by itself. |
| Interceptor.Rewrite | cmd/interceptor/main.go:50-71 | The request hook: what it leaves alone without the group, and path, raw path, header, length and body otherwise. |
| Interceptor.ModifyResponse | cmd/interceptor/main.go:72-86 | The answer hook: the new body, without any CRD group name; both lengths are the old one minus two per match; a read error is passed on after the body is exchanged. |
| Keys.SplitUndoesMake | pkg/controller/generic.go:66-73 | Splitting a key gives back namespace and name without slashes, and the key is looked up under itself. |
| Keys.SplitExactly | pkg/controller/generic.go:204-216 | With one slash a key splits into namespace and name, without one it has an empty namespace, with two it is invalid; making a key puts the slash only behind a namespace that is not empty. |
| Keys.ProperExactly | pkg/controller/lister.go:26-55 | The keys that `reconcile` looks up under themselves are exactly those with at most one slash, and that not in front. |
| Controller.Controller.Enqueue | pkg/controller/generic.go:66-74 | An object without a key changes nothing, any other is added. |
| Controller.Controller.OnAdd | pkg/controller/generic.go:80-82 | Adding enqueues the key: before shutdown it is dirty afterwards. |
| Controller.Controller.OnUpdate | pkg/controller/generic.go:83-101 | An update to another resource version enqueues the key, which is then dirty before shutdown; an update within one version leaves the queue as it was. |
| Controller.Controller.OnDelete | pkg/controller/generic.go:102-105 | A deletion enqueues the key, which is then dirty before shutdown; a tombstone leaves the queue as it was. |
| Controller.Controller.LookUp | pkg/controller/generic.go:196-225 | An invalid key ends without error, a failing lister with one; else the reconciler gets the namespace and the name that the key splits into, and the cached object under the key made of them, or none. |
| Controller.Controller.WorkOff | pkg/controller/generic.go:149-188 | One round of a worker: the first key leaves the queue, the limiter's count is reset or grows by one, a failed key waits unless the queue is shutting down, nothing stays in processing. |
| Controller.Controller.RunWorker | pkg/controller/generic.go:147-194 | A lone worker on a queue shutting down works off exactly the dirty keys, in order, each once, and leaves it empty. |
| Controller.RoundIsARun | pkg/controller/generic.go:149-188 | The five steps of the protocol for one round are a run, and do to the queue what `WorkOff` does. |
| ControllerProofs.StepKeepsInv | pkg/controller/generic.go:62-226 | Every step of informer, handlers, back-off, workers and shutdown keeps the invariant. |
| ControllerProofs.NoLostUpdate | pkg/controller/generic.go:66-226 | Before shutdown, an announced change that the last successful reconcile did not see has an undelivered event, or its key is dirty, awaits a retry, or is held by a worker that will see it or retry. |
| ControllerProofs.QuiescentIsUpToDate | pkg/controller/generic.go:66-226 | When nothing is left to do, every key's last successful reconcile has seen its last announced change. |
| ControllerHistory.NoLostUpdateInRuns | pkg/controller/generic.go:66-226 | Told by the steps of the run alone: before shutdown, every addition, deletion that is no tombstone, or update between two versions in the run has been followed by a lookup of its key and a successful reconcile of what that found, or its key is pending, dirty, waiting, or held by a worker that will see it or retry. |
| ControllerHistory.QuiescentHasSeenAll | pkg/controller/generic.go:66-226 | In every run that ends with nothing left to do, every such change has been followed by a lookup of its key and a successful reconcile of what that found. |
| ControllerProofs.HandlerEnqueuesExactly | pkg/controller/generic.go:79-106 | Before shutdown, delivering an event makes dirty its own key, exactly if it is an addition, a deletion that is no tombstone, or an update between two resource versions. |
| ControllerRuns.TakenUpExactly | pkg/controller/generic.go:66-106 | From every reachable state with nothing to do, a change is taken up exactly if its event is an addition, a deletion that is no tombstone, or an update between two resource versions; it is not reconciled yet. |
| ControllerRuns.StaysForgotten | pkg/controller/generic.go:66-226 | A key that is not pending, dirty or waiting, and whose holder, if any, is past its lookup and has not failed, stays so, and without a further reconcile, in every run in which no event announces it. |
| ControllerRuns.TombstoneIsLost | pkg/controller/generic.go:102-105 | A reachable state in which a worker has reconciled an added object, its deletion has arrived as a tombstone, nothing is left to do, and no continuation without an announcing event reconciles the deletion. |
| ControllerProgress.UnderwayIsReconciled | pkg/controller/generic.go:66-226 | From every state before shutdown that keeps the invariant, in which something is under way for a key and there is or can be a worker, some run without a further announcement reconciles the key's newest state. |
| ControllerProgress.NothingWithoutWorkers | pkg/controller/generic.go:108-130 | If no worker is in its loop or can come to it, no run reconciles anything. |
| ControllerProgress.ReconcilableExactly | pkg/controller/generic.go:66-226 | In every reachable state before shutdown, a key's newest state can still be reconciled without a further announcement exactly if it has been, or there is or can be a worker, and the key is pending, dirty or waiting, or its holder may look it up or has failed or may fail. |
| ControllerProgress.TombstoneIsSavedExactly | pkg/controller/generic.go:66-226 | A deletion that arrives as a tombstone, in any reachable state before shutdown, can be reconciled without another announcement exactly if there is or can be a worker and something was under way for its key. |
| ControllerProofs.MutualExclusion | pkg/controller/generic.go:147-188 | No key is held by two workers; a key is in processing exactly while a worker holds it; each Get is matched by one Done. |
| ControllerProofs.RetryAccounting | pkg/controller/generic.go:174-185 | While nobody holds a key, the limiter's count is the number of its failures in a row. |
| ControllerWorkers.InvalidKeysNeverFail | pkg/controller/generic.go:174-208 | A key that cannot be split never awaits a retry and never counts as failed. |
| ControllerWorkers.RetriesAreEarned | pkg/controller/generic.go:174-188 | Conservation: in every run, a key comes back after a delay at most once for each failure with it that a worker has handed to the limiter. |
| ControllerWorkers.FailureWaits | pkg/controller/generic.go:174-188 | A failure handed to the limiter before shutdown makes the key wait; only the end of its delay takes it from there, and makes it dirty. |
| ControllerWorkers.WorkersStay | pkg/controller/generic.go:108-147 | From the launch on there is a worker, and none has left before the context is done. |
| ControllerWorkers.LeavesOnly | pkg/controller/generic.go:124-151 | A worker leaves only before its loop, when the context is done, or from its loop with no key in hand, when the queue is shutting down and empty. |
| ControllerWorkers.NoOvertaking | pkg/controller/generic.go:147-152 | In every run, a ready key moves up by one with every key that is taken, and is taken after those that were before it. |
| ControllerWorkers.DeliversInOrder | pkg/controller/generic.go:79-106 | The handlers get the events of all changes in their order, each once. |
| ControllerProofs.DrainExactly | pkg/controller/generic.go:120-144 | When `Run` returns, no key is held, and all keys dirty at shutdown have been reconciled since exactly if some worker reached its loop or there were none; then the queue is empty. |
| ControllerDrain.DrainServesInRuns | pkg/controller/generic.go:132-188 | Told by the steps: in every run that shuts down and returns, and in which some worker came to its loop, every key dirty at the shutdown was taken by a worker after it and its reconcile came to an end. |
| ControllerRuns.DrainMayServeNothing | pkg/controller/generic.go:124-144 | A run that returns with the key that was dirty at shutdown not reconciled, since no worker reached its loop. |
| ControllerRuns.DrainIsBounded | pkg/controller/generic.go:132-188 | In every run, the workers take a bounded number of steps once the queue shuts down. |
| ControllerRuns.DrainCanFinish | pkg/controller/generic.go:132-144 | From every state of the drain some run returns. |
| SchemaCache.Controller.ResolveFromCache | pkg/controller/schemaresolver/resolver.go:101-107 | The lookup gives the entry of exactly the kind, or none. |
| SchemaCache.Controller.ResolveSchema | pkg/controller/schemaresolver/resolver.go:75-88 | A hit is returned and changes nothing; a miss is fetched, stored under its kind and returned, errors included. |
| SchemaCache.Controller.Purge | pkg/controller/schemaresolver/resolver.go:90-99 | The loop removes exactly the entries with this group and this kind, in all versions, and keeps every other as it was. |
| SchemaCache.Controller.OnAdd | pkg/controller/schemaresolver/resolver.go:48-51 | A new definition removes exactly the entries with the definition object's own group and kind. |
| SchemaCache.Controller.OnUpdate | pkg/controller/schemaresolver/resolver.go:52-59 | A changed one removes exactly those of the old and of the new object. |
| SchemaCache.Controller.OnDelete | pkg/controller/schemaresolver/resolver.go:60-63 | A deleted one removes exactly those of its own. |
| SchemaCache.StepKeepsInv | pkg/controller/schemaresolver/resolver.go:75-107 | Every step of every thread, and every change of discovery, keeps the invariant. |
| SchemaCache.AnswersAreFresh | pkg/controller/schemaresolver/resolver.go:75-107 | In every run from a state with a complete purge of a group and kind, a call for such a kind that starts then answers what discovery said, for exactly its kind, after that purge took the lock. |
| SchemaCache.AnswersAreFreshInRuns | pkg/controller/schemaresolver/resolver.go:75-107 | Told by the run: if a purge takes the lock in one state and is done in another, and then a call for a kind with its group and kind starts, the call answers what discovery said after the first state. |
| SchemaCache.PastIsTold | pkg/controller/schemaresolver/resolver.go:75-107 | What discovery is recorded to have said at each time is what the last change of discovery before it in the run had set. |
| SchemaRuns.FreshensExactly | pkg/controller/schemaresolver/resolver.go:48-107 | In all runs, a complete purge of a group and kind makes later answers for a kind fresh exactly if group equals group and kind equals kind. |
| SchemaRuns.OtherPurgeLeavesStale | pkg/controller/schemaresolver/resolver.go:48-107 | For every purge of another group and kind, a run in which a later call answers a schema that discovery has not given since before the purge. |
| SchemaCache.EntriesAreFresh | pkg/controller/schemaresolver/resolver.go:75-99 | Every cached entry is a past answer of discovery for exactly its key, not older than any complete purge with its group and kind. |
| SchemaCache.CacheIsTransparent | pkg/controller/schemaresolver/resolver.go:75-107 | While discovery does not change, every call in every interleaving answers what discovery answers, errors included. |
| SchemaCache.LockExcludes | pkg/controller/schemaresolver/resolver.go:80-104 | No thread reads or writes while another writes. |
| WebhookRunProofs.StepKeepsInv | pkg/webhook/server.go:116-202 | Every step of the loop, the goroutines, the channels and the contexts keeps the invariant. |
| WebhookRunProofs.LoopLeavesWithError | pkg/webhook/server.go:156-201 | The loop is left only with an error: the context's, or the listen error of the current server; in the loop that server's error channel is open, so a closed one is never read. |
| WebhookRunProofs.LeavesWithErrorOfRun | pkg/webhook/server.go:142-201 | In every run that has left the loop, the error to return tells how the caller's context ended in the run, cancelled or past its deadline, or is the message with which the current server failed to listen in it. |
| WebhookRunProofs.GoroutinesAreConserved | pkg/webhook/server.go:122-199 | The wait group counts `Run`, the serving and the shutdown goroutines that are not done; every superseded server has its one shutdown, and its error is never received. |
| WebhookRunProofs.ReturnsOnlyListenError | pkg/webhook/server.go:122-201 | `Run` returns only with the listen error of its first and only server. |
| WebhookRunProofs.ReturnsTheListenError | pkg/webhook/server.go:142-201 | In every run that returns, the error returned is the message with which the only server failed to listen in that run. |
| WebhookRunProofs.ErrorStays | pkg/webhook/server.go:149-152 | Once a context has ended its error stays the same, also that of the watch context, which the caller and the deferred cancel may both end. |
| WebhookRunProofs.WatchEnds | pkg/webhook/server.go:90-93 | The watch goroutine stops in the loop only for the caller's context, and behind the deferred cancel it has stopped or can. |
| WebhookRunProofs.LeavesByWatch | pkg/webhook/server.go:176-180 | Once the caller's context has ended, the loop can also be left through the closed watch channel, with the same error. |
| WebhookRunProofs.ClosedWatchEndsRestarts | pkg/webhook/server.go:176-199 | After the watch channel is closed it stays so, and no server is restarted any more. |
| WebhookRunProofs.CanReturnExactly | pkg/webhook/server.go:122-201 | In every reachable state, `Run` can still return exactly if no server was restarted, and it is in its loop or has received the server's error. |
| WebhookRunProofs.CancelledRunIsStuck | pkg/webhook/server.go:158-171 | A reachable state in which the loop was left for the cancelled context, from which no run returns. |
| GoJson.RoundTrip | pkg/controller/admissionregistration.x-k8s.io/v1alpha1/injected_client.go:69-74 | Marshalling and unmarshalling a value of a type with distinct field names succeeds and gives its normal form, through nested lists, maps, pointers and structs. |
| GoJson.NormalizeTwice | pkg/controller/admissionregistration.x-k8s.io/v1alpha1/injected_client.go:69-74 | The normal form has the type and is its own normal form. |
| GoJson.NormalizeKeepsNull | pkg/controller/admissionregistration.x-k8s.io/v1alpha1/injected_client.go:69-74 | Normalising neither makes nor removes a JSON null. |
| GoJson.UnchangedExactly | pkg/controller/admissionregistration.x-k8s.io/v1alpha1/injected_client.go:69-74 | A value is its own normal form exactly if no pointer in it leads to a JSON null and no `omitempty` field holds an empty list or map instead of nil. |
| GoJson.NullExactly | pkg/controller/admissionregistration.x-k8s.io/v1alpha1/injected_client.go:69 | A value is marshalled as null exactly if it is nil, a zero time, raw null, or a pointer to such. |
| GoJson.MembersExactly | pkg/controller/admissionregistration.x-k8s.io/v1alpha1/injected_client.go:69 | In the JSON of a struct, the member with a field's name holds the field's value, and is missing exactly if the field says `omitempty` and is false, zero, or empty. |
| GoJson.UnmarshalHasType | pkg/controller/admissionregistration.x-k8s.io/v1alpha1/injected_client.go:73-74 | Whatever the JSON, a value that is decoded has the type it is decoded into. |
| AlikeTypes.SameNormalForm | pkg/controller/admissionregistration.x-k8s.io/v1alpha1/injected_client.go:69-74 | Types that differ in `omitempty` only, and not on lists or maps, give every value the same normal form. |
| AlikeTypes.RoundTripAcross | pkg/controller/admissionregistration.x-k8s.io/v1alpha1/injected_client.go:69-74 | Marshalled as one such type and unmarshalled as the other, a value becomes that normal form. |
| Conversion.PoliciesAreAlike | vendor/k8s.io/api/admissionregistration/v1alpha1/types.go:70-559 | The native and the CRD types of policies and bindings are such types. |
| Conversion.PoliciesAreWellFormed | pkg/apis/admissionregistration.x-k8s.io/v1alpha1/types.go:75-574 | In no struct of a policy or binding do two fields share a JSON name. |
| Conversion.ObjectIsWritten | pkg/apis/admissionregistration.x-k8s.io/v1alpha1/types.go:75-88 | In the JSON of an object, kind, apiVersion, metadata, spec and status are left out exactly if empty, which a struct never is. |
| Conversion.PolicySpecIsWritten | pkg/apis/admissionregistration.x-k8s.io/v1alpha1/types.go:142-211 | In the JSON of a policy's spec, the CRD types write matchConstraints also when nil; the native types, and both in all other fields, leave out exactly what is empty. |
| Conversion.BindingSpecIsWritten | pkg/apis/admissionregistration.x-k8s.io/v1alpha1/types.go:373-436 | The same for a binding's spec, in which the CRD types also write an empty policyName. |
| Conversion.ConvertNormalizes | pkg/controller/admissionregistration.x-k8s.io/v1alpha1/injected_client.go:63-79 | A conversion of an object of either type succeeds, with an object of the other, in the normal form of both, its version overwritten exactly if there was one. |
| Conversion.VersionOnly | pkg/controller/admissionregistration.x-k8s.io/v1alpha1/injected_client.go:75-77 | Overwriting the version keeps the type and commutes with normalising. |
| Conversion.PolicySidesAreValid | pkg/controller/admissionregistration.x-k8s.io/v1alpha1/injected_client.go:63-133 | Policies and bindings meet what the theorems about conversions ask of a pair of types. |
| Conversion.ThereAndBackExactly | pkg/controller/admissionregistration.x-k8s.io/v1alpha1/injected_client.go:63-133 | There and back gives the normal form exactly if the version is empty or the one that the way back writes. |
| Conversion.PolicyRoundTrips | pkg/controller/admissionregistration.x-k8s.io/v1alpha1/injected_client.go:63-133 | Exactly the CRD objects with an empty or the CRD version come back in normal form; native ones exactly with an empty or the misspelt version. |
| Conversion.PolicyComesBackExactly | pkg/controller/admissionregistration.x-k8s.io/v1alpha1/injected_client.go:63-133 | A pointer to a CRD object comes back identical exactly if it is nil, or the version is empty or the CRD version and nothing in the object is lost in JSON; in between it is nil exactly if it was. |
| TransformedClient.ConvertItems | pkg/controller/transformed_client.go:110-120 | The listing loop gives every object as converted alone in its place, or the first error, though one loop variable serves all rounds and conversions may return pointers into it. |
| TransformedClient.ConvertAllExactly | pkg/controller/transformed_client.go:110-120 | A listing succeeds exactly if every object converts, keeps length and order, and else fails with the error of the first that does not. |
| TransformedClient.ErrorsArePassedOn | pkg/controller/transformed_client.go:23-121 | An operation fails with the error of the object's conversion, and then the server is not asked; else with the server's refusal or error; else with the error of converting its answer. |
| TransformedClient.ServeSimulates | pkg/controller/transformed_client.go:23-104 | The server does to a CRD store and to what is seen of it through the conversions the same, each written object taken as it will be read back. |
| TransformedClient.OperationSimulates | pkg/controller/transformed_client.go:23-121 | For every sound store, each operation answers and acts as on what is seen of the store, each written object taken as it will be read back; an object that does not convert changes nothing. |
| TransformedClient.SessionSimulates | pkg/controller/transformed_client.go:23-121 | No sequence of calls tells the transformed client from a store that keeps and shows each object as it is read back; for a plain native store see `MirroredStore`. |
| MirroredStore.OperationMirrors | pkg/controller/transformed_client.go:23-121 | If the CRD store holds the conversions of what a plain native store holds, an operation keeps that relation, and its answer is the plain store's, with every object in it converted there and back. |
| MirroredStore.SessionMirrors | pkg/controller/transformed_client.go:23-121 | The same for whole sessions. |
| MirroredStore.SameAnswersExactly | pkg/controller/transformed_client.go:23-121 | A session answers as the plain store exactly if every object that the plain store shows in it is unchanged by the way there and back. |
| MirroredStore.IndistinguishableExactly | pkg/controller/transformed_client.go:23-121 | All sessions that write certain objects answer as a plain native store exactly if each of these objects is unchanged by the way there and back. |
| TransformedClient.FailedWriteIsStoredExactly | pkg/controller/transformed_client.go:23-40 | For any conversions, a failing Create has stored its object exactly if the server accepted it and its answer does not convert; `FailuresChangeNothing` excludes that for the ones in use. |
| PolicyClient.ConversionsAreSound | pkg/controller/admissionregistration.x-k8s.io/v1alpha1/injected_client.go:22-42 | Every stored object of the type converts, and what is sent is of the type. |
| PolicyClient.SentObject | pkg/controller/admissionregistration.x-k8s.io/v1alpha1/injected_client.go:63-79 | What is sent of a native object is its normal form as a CRD object, with the version admissionregistration.x-k8s.io/v1alpha1 exactly if it had a version; the conversion of a pointer gives the same. |
| PolicyClient.ShownObject | pkg/controller/admissionregistration.x-k8s.io/v1alpha1/injected_client.go:81-97 | What is shown of a CRD object is its normal form as a native one, with the version apiregistration.k8s.io/v1alpha1 exactly if it had a version. |
| PolicyClient.StoredVersions | pkg/controller/transformed_client.go:23-59 | After any session, whatever it wrote, every object in the CRD store has no version or the CRD version, if that was so before. |
| PolicyClient.KeptObject | pkg/controller/admissionregistration.x-k8s.io/v1alpha1/injected_client.go:63-133 | An object that is written is read back as its normal form, with the version of the way back exactly if it had one. |
| PolicyClient.FailuresChangeNothing | pkg/controller/admissionregistration.x-k8s.io/v1alpha1/injected_client.go:22-42 | With the conversions in use, an operation that fails has changed nothing, and fails exactly if its object does not convert, the server refuses, or the name is taken or missing. |
| PolicyClient.PolicySessions | pkg/controller/admissionregistration.x-k8s.io/v1alpha1/injected_client.go:22-42 | Sessions on any CRD policies or bindings answer as a store that keeps each object as `KeptObject` says, and no object of the type is refused for its conversion. |
| PolicyClient.SessionsMirror | pkg/controller/admissionregistration.x-k8s.io/v1alpha1/injected_client.go:22-42 | Sessions that write native objects answer as a plain native store, with every object converted there and back. |
| PolicyClient.SurvivesExactly | pkg/controller/admissionregistration.x-k8s.io/v1alpha1/injected_client.go:63-133 | A native object is unchanged by that exactly if it has no version or the misspelt one, and nothing in it is lost in JSON. |
| PolicyClient.PoliciesIndistinguishableExactly | pkg/controller/admissionregistration.x-k8s.io/v1alpha1/injected_client.go:22-133 | Sessions that write objects of a certain sort cannot tell the client from a plain native store exactly if every object of the sort is such. |
| PolicyClient.RightVersionIsNotKept | pkg/controller/admissionregistration.x-k8s.io/v1alpha1/injected_client.go:94 | Creating an object of the right native version is answered with another object, unlike by a plain native store. |
| Conversion.ConvertKeepsName | pkg/controller/admissionregistration.x-k8s.io/v1alpha1/injected_client.go:63-133 | A conversion keeps metadata.name, under which the object is stored. |
| Conversion.PoliciesAreNamed | pkg/apis/admissionregistration.x-k8s.io/v1alpha1/types.go:75-88 | Policies and bindings have a name where the two rows around this one look for it, if their metadata has. |
| PolicyClient.NamesAreKept | pkg/controller/transformed_client.go:23-59 | An operation that names its own object is sent as one that does, and the CRD store stays filed by its objects' own names. |
| DeepCopy.Heap.DeepCopyInto | pkg/apis/admissionregistration.x-k8s.io/v1alpha1/zz_generated.deepcopy.go:78-110 | With a plan that covers the type, the copy reads the same, reaches only new memory, and old memory is as before. |
| DeepCopy.Heap.Renew | pkg/apis/admissionregistration.x-k8s.io/v1alpha1/zz_generated.deepcopy.go:90-103 | Allocating a slice or target first and copying into its places one after the other gives such a copy. |
| DeepCopy.Heap.DeepCopy | pkg/apis/admissionregistration.x-k8s.io/v1alpha1/zz_generated.deepcopy.go:113-120 | The copy of a pointer, nil exactly for nil. |
| DeepCopy.ElsewhereKeeps | pkg/apis/admissionregistration.x-k8s.io/v1alpha1/zz_generated.deepcopy.go:78-110 | A variable notices neither new memory nor writes to memory that it cannot reach. |
| DeepCopy.CopyIsIndependent | pkg/apis/admissionregistration.x-k8s.io/v1alpha1/zz_generated.deepcopy.go:78-120 | No later writes to the memory of before the copy change the copy, none to the copy's change the original. |
| DeepCopy.NilAndEmptyStayApart | pkg/apis/admissionregistration.x-k8s.io/v1alpha1/zz_generated.deepcopy.go:90-109 | Nil is copied as nil, and what is there, empty or not, as something of the same length elsewhere. |
| DeepCopy.SameExactly | pkg/apis/admissionregistration.x-k8s.io/v1alpha1/zz_generated.deepcopy.go:78-110 | Two variables read the same exactly if they have the same texts, nils, lengths and keys, and again behind every pointer, slice and map. |
| DeepCopy.CopyIsSame | pkg/apis/admissionregistration.x-k8s.io/v1alpha1/zz_generated.deepcopy.go:78-110 | A deep copy has all of those in common with the original. |
| DeepCopy.ShallowSufficesExactly | pkg/apis/admissionregistration.x-k8s.io/v1alpha1/zz_generated.deepcopy.go:29-33 | The assignment alone is a deep copy of all variables exactly if the type has no pointer, slice or map in it. |
| GeneratedCopies.FlatExactly | pkg/apis/admissionregistration.x-k8s.io/v1alpha1/zz_generated.deepcopy.go:29-33 | A type counts as copied by assignment exactly if none of its values holds a pointer, a slice, a map or raw bytes in place. |
| GeneratedCopies.RulePlanCopies | pkg/apis/admissionregistration.x-k8s.io/v1alpha1/zz_generated.deepcopy.go:123-132 | The fix-ups of NamedRuleWithOperations leave nothing shared. |
| GeneratedCopies.SelectorPlanCopies | vendor/k8s.io/apimachinery/pkg/apis/meta/v1/zz_generated.deepcopy.go:492-530 | Those of LabelSelector, with its requirements, leave nothing shared. |
| GeneratedCopies.MatchResourcesPlanCopies | pkg/apis/admissionregistration.x-k8s.io/v1alpha1/zz_generated.deepcopy.go:78-110 | Those of MatchResources leave nothing shared. |
| GeneratedCopies.ValidationPlanCopies | pkg/apis/admissionregistration.x-k8s.io/v1alpha1/zz_generated.deepcopy.go:426-434 | Those of Validation leave nothing shared. |
| GeneratedCopies.PolicySpecPlanCopies | pkg/apis/admissionregistration.x-k8s.io/v1alpha1/zz_generated.deepcopy.go:350-385 | Those of the policy spec leave nothing shared. |
| GeneratedCopies.TypeCheckingPlanCopies | pkg/apis/admissionregistration.x-k8s.io/v1alpha1/zz_generated.deepcopy.go:177-185 | Those of TypeChecking leave nothing shared. |
| GeneratedCopies.PolicyStatusPlanCopies | pkg/apis/admissionregistration.x-k8s.io/v1alpha1/zz_generated.deepcopy.go:398-413 | Those of the policy status leave nothing shared. |
| GeneratedCopies.BindingSpecPlanCopies | pkg/apis/admissionregistration.x-k8s.io/v1alpha1/zz_generated.deepcopy.go:286-304 | Those of the binding spec leave nothing shared. |
| GeneratedCopies.PolicyPlanCopies | pkg/apis/admissionregistration.x-k8s.io/v1alpha1/zz_generated.deepcopy.go:198-205 | Those of a policy leave nothing shared, if those of its metadata do not. |
| GeneratedCopies.BindingPlanCopies | pkg/apis/admissionregistration.x-k8s.io/v1alpha1/zz_generated.deepcopy.go:226-232 | The same for a binding. |
| GeneratedCopies.ListPlanCopies | pkg/apis/admissionregistration.x-k8s.io/v1alpha1/zz_generated.deepcopy.go:317-329 | The same for a list of either. |
| GeneratedCopies.CopyObject | pkg/apis/admissionregistration.x-k8s.io/v1alpha1/zz_generated.deepcopy.go:198-215 | With a plan that leaves nothing shared, original and copy read the same, and neither notices any later writes to the other's memory. |
| GeneratedCopies.CopyPolicy | pkg/apis/admissionregistration.x-k8s.io/v1alpha1/zz_generated.deepcopy.go:198-215 | That holds for `DeepCopy` of every policy. |
| GeneratedCopies.CopyBinding | pkg/apis/admissionregistration.x-k8s.io/v1alpha1/zz_generated.deepcopy.go:226-242 | The same for bindings. |
| GeneratedCopies.CopyPolicyList | pkg/apis/admissionregistration.x-k8s.io/v1alpha1/zz_generated.deepcopy.go:317-339 | The same for lists of policies. |
| Validators.Validator.Handles | pkg/validator/multi.go:17-24 | The loop says whether some validator handles the operation, through any nesting. |
| Validators.Validator.Validate | pkg/validator/multi.go:26-40 | The loop gives the first error of a handling validator, through any nesting. |
| Validators.DecidesExactly | pkg/validator/multi.go:26-40 | A request is accepted exactly if no handling validator rejects it, and else gets the error of the first that does. |
| Validators.OrderDoesNotMatter | pkg/validator/multi.go:17-40 | Lists of the same validators, in any order, accept the same requests and handle the same operations. |
| Validators.LeavesDecide | pkg/validator/multi.go:17-40 | Nested validators handle, decide and answer as their single ones do when asked in order. |
| Validators.NestingFlattens | pkg/validator/multi.go:9-40 | Replacing a nested group by its members, anywhere in the list, changes neither Handles nor the error. |
| Admission.Plugin.Validate | pkg/controller/admissionregistration.x-k8s.io/v1alpha1/plugin.go:76-94 | Policies and bindings, of either group, pass without a poll and without the evaluator; for every other resource polling stops at the first yes, and then the verdict is the evaluator's, asked once; without a yes the request is forbidden. |
| Admission.PollsNeededExactly | pkg/controller/admissionregistration.x-k8s.io/v1alpha1/plugin.go:80-87 | The polls asked for end with the first that says yes, or are all of them if none does. |
| Admission.ForbiddenSays | pkg/controller/admissionregistration.x-k8s.io/v1alpha1/plugin.go:76-94 | The refusal has code 403 and names the resource, with its group if it has one, and the object. |
| Admission.NamedByObject | pkg/controller/admissionregistration.x-k8s.io/v1alpha1/plugin.go:76-94 | A request without a name goes by the name of its object, then by its generate name, else as unknown. |
| Admission.ReviewResponse | pkg/webhook/server.go:364-398 | The review has the request's UID, is allowed exactly without an error, and takes code, reason and message of a status error. |
| Admission.ConvertList | pkg/webhook/server.go:289-303 | The inner loop copies a list string by string; nil and empty lists become nil. |
| Admission.ConvertExtra | pkg/webhook/server.go:289-303 | The outer loop converts every list of extra attributes under its key; nil stays nil, and an empty list becomes nil. |
| Admission.Webhook.DecodeObject | pkg/webhook/server.go:238-261 | A text of another kind, or none, is refused with 400 before anything else; an unregistered kind is read unstructured, or refused with 500; other errors are refused with 400. |
| Admission.Webhook.HandleValidate | pkg/webhook/server.go:208-362 | Every way through the handler sends exactly one response, the specified one. |
| Admission.AskedExactly | pkg/webhook/server.go:234-327 | The validators can be asked exactly if each object is absent or readable as the request's kind; then the new and the old object are what the decoder makes of the new and of the old text, none where there is no text, and name, namespace, resource, operation and user, with the extra attributes key by key, are the request's. |
| Admission.AllowedExactly | pkg/webhook/server.go:208-362 | A request is allowed exactly if it is a JSON review with a request in it, its review can be written, and for every single validator that handles its operation both objects can be read as objects of its kind and the validator accepts. |
| Admission.AnsweredExactly | pkg/webhook/server.go:208-426 | Exactly when there is a review, which carries the request's UID, and exactly when the answer is 500; all else is 400. |
| Admission.RefusedAtOnce | pkg/webhook/server.go:208-426 | Without a review to decide about, the answer is 400 with the text for the content type, the empty or malformed body, or the missing request. |
| Admission.RefusedForObjects | pkg/webhook/server.go:234-362 | A handled review is refused for its old object if that is unreadable, else for its new one, else because the answer cannot be written, each with the code and the error of what failed; otherwise it is answered. |
| Admission.RejectedWith | pkg/webhook/server.go:332-398 | A rejected request is answered with the error of the first single validator that handles it and rejects it: its status error's code, reason and message, or 403 and its message. |
| Admission.AskedOfItsKind | pkg/webhook/server.go:238-286 | With a truthful decoder, all objects that validators see have the request's kind. |
| Admission.OnlyMatchingObjectsMatter | pkg/webhook/server.go:238-286 | Validators that agree on objects of the request's kind get the same answers: nothing else reaches them. |
| Admission.ServedExactly | pkg/controller/admissionregistration.x-k8s.io/v1alpha1/plugin.go:76-104 | End to end: a readable request about validatingadmissionpolicies or validatingadmissionpolicybindings of the native or the CRD group is allowed; every other, of these groups too, gets the review of exactly the evaluator's verdict if a poll saw the sync, and without such a poll 403, whatever the evaluator. |

## Left out

- Replacement.ReplaceAllLoop: Go's ReplaceAll with an empty pattern, which the repository never calls.
- Interceptor.ModifyResponse: the decimal text of the length in the header.
- Controller.Controller.RunWorker: other workers beside it and a queue that is not shutting down, where Get may block; both are in the protocol. Queue items that are not strings; nothing adds any.
- ControllerProofs.NoLostUpdate: keys that `reconcile` looks up under another key (`Keys.ProperExactly`), which no object with a valid name has; back-off times, which are any.
- GoJson.RoundTrip: values that encoding/json cannot carry: times outside the years 0 to 9999 or with fractions of seconds, the zone of a time, which is the local one after decoding, the difference between a raw field that is nil and one that holds null, raw fields that hold no valid JSON, strings that are not UTF-8; case-insensitive names of members and integers out of range when decoding.
- TransformedClient.OperationSimulates: fields that the server sets itself and resource version conflicts, except as refusals with an error; UpdateStatus, which is Update on the same path.
- DeepCopy.Heap.DeepCopyInto: memory is a sequence of cells instead of Dafny's heap, a slice has its cell to itself, and structs lie in place; slices that share one array are not modelled.
- Admission.Plugin.Validate: the escaping of special characters in the name that the forbidden error quotes; time between polls; the evaluator.
- Admission.Webhook.HandleValidate: the wording of the error for an unexpected kind, the escaping of special characters in the content type that an error quotes, operation options (nil in the source), logging.
- Watch, DeleteCollection, Patch, Apply and ApplyStatus of the transformed client, and list metadata: filters over library channels, pass-through, panics.
- `List` of the listers, the generated clients, informers and listers: pass-through.
- End-to-end invalidation of schemas by changes of their definitions: the handlers do not purge the defined kinds.
- How often discovery is asked for one kind: the cache is not looked up again under the write lock.
- Detection of changed certificate files, HTTP, TLS, flags, wiring of the processes, pkg/pki: input and output.
- CEL evaluation and match conditions: implemented in libraries that are not part of this model.

# Bucket-claim resource handlers, modelled in Dafny

This project models the core of lib-bucket-provisioner, the library that
object-store provisioners build on. When a user files an ObjectBucketClaim
(OBC), the library's controllers create:

- a cluster-scoped ObjectBucket (OB) record;
- a Secret holding the bucket credentials;
- a ConfigMap holding the bucket endpoint.

They later release or delete these objects. The model covers two Go files.

`pkg/provisioner/resourcehandlers.go`, module `Provisioner`:
- it builds the Secret and ConfigMap. Both carry the `objectbucket.io/finalizer`
  finalizer and an owner reference to the claim;
- it creates the OB, Secret and ConfigMap inside a polling retry loop;
- it removes finalizers with a Get followed by an Update;
- it deletes the OB;
- it writes a claim or bucket back, or writes its status phase.

`pkg/api/reconciler/util/util.go`, module `ReconcilerUtil`:
- it has its own Secret and ConfigMap builders. Their Secret has no owner
  reference. Their ConfigMap has neither an owner reference nor a finalizer,
  and adds a composed `BUCKET_URL`;
- it builds the OB record named `obc-<namespace>-<name>`;
- it creates one object with a controller-runtime client;
- it translates reclaim policies, ignoring case;
- it generates bucket names.

Supporting modules:
- `Errors`: `Option`, `Result` and the error taxonomy the handlers test (`IsAlreadyExists`, `IsNotFound`).
- `Text`: `strconv.Itoa` and `strconv.FormatBool`, each with a parser as its inverse; `Join` with `Split` as its inverse; and `strings.ToLower`, which is proved idempotent.
- `Objects`: the API records, their zero values, and finalizer removal.
- `ResourceStore`: an abstract API server. It is a map from (kind, namespace, name) to an object, plus a script of injected outcomes and a log of every call, so contracts can say exactly which calls a handler made.
- `Wait`: `wait.PollImmediate`, with real time replaced by a budget of attempts.
- `BucketUrl`: composes `scheme://host[:port]/path` and parses it back.

Behaviour of the code that the model brings out:
- `createSecret` and `createConfigMap` end their poll on AlreadyExists but return it as an error, to let the request be requeued (the comment at resourcehandlers.go:144 and :167).
  `createObjectBucket` instead turns AlreadyExists into success, and hands back the empty record.
- After a transient failure, those two creators submit the object that the failed call returned, not the one they built.
  The typed client returns an empty object next to an error, so every retry is a nameless create that the API server refuses.
  The retry can therefore never succeed, and the poll ends in a timeout (`RetryResubmitsReturned`, `NamelessTimesOut`).
- `createObjectBucket` logs any other error as "probably not fatal, retrying" (resourcehandlers.go:126-127), but its condition returns that error, which ends the poll at once, so it never retries.
  `CreateUntilDefaultTimeout` likewise returns any error other than AlreadyExists from its first attempt.
- The empty object a failed creator hands back has no name, so releasing it fails on the Get rather than reporting NotFound (`ReleaseOfEmptyObjectFails`).
- The reconciler's ConfigMap takes `BUCKET_NAME` from the claim's spec, and `BUCKET_SSL` from the endpoint.
  The URL scheme follows the claim's SSL flag instead, so `BUCKET_SSL` and the scheme can disagree (`SslFlagCanDisagreeWithScheme`).

## Model

| member | source | states |
|---|---|---|
| Provisioner.NewBucketConfigMap | pkg/provisioner/resourcehandlers.go:56-85 | nil endpoint and nil claim each give their own error (endpoint checked first); otherwise the map is named and namespaced like the claim, has the one finalizer and one owner reference to the claim, exactly the six keys, the port printed as `strconv.Itoa` prints it (so it reads back as the endpoint's port), an SSL flag that reads back as the endpoint's, and the other values verbatim |
| Provisioner.NewCredentialsSecret | pkg/provisioner/resourcehandlers.go:87-114 | nil claim and nil authentication each give their own error; otherwise the Secret is named like the claim, has the finalizer and owner reference, and holds exactly the credential map, even an empty one |
| Provisioner.RetryingCreateCalls | pkg/provisioner/resourcehandlers.go:140-152 | the create loop makes only Create calls of its kind in the claim's namespace, between one and the budget of them, one per attempt |
| Provisioner.RetryingCreateErrors | pkg/provisioner/resourcehandlers.go:140-152 | the create loop returns no error, AlreadyExists, or the timeout, and nothing else: transient errors are swallowed |
| Provisioner.NamelessNeverSucceeds | pkg/provisioner/resourcehandlers.go:140-152 | from a nameless object no attempt can succeed, so the loop always ends in an error |
| Provisioner.NamelessTimesOut | pkg/provisioner/resourcehandlers.go:140-152 | from a nameless object, unless the store rejects with AlreadyExists, the loop spends the whole budget and times out |
| Provisioner.RetryingCreateSucceedsFirstOrNever | pkg/provisioner/resourcehandlers.go:140-152 | the loop succeeds exactly when the first Create is accepted, and then after one call with the built object stored; AlreadyExists on the first call is returned after one call |
| Provisioner.RetryingCreateFailureKeepsObjects | pkg/provisioner/resourcehandlers.go:140-152 | whenever the create loop fails, the stored objects are those it started with: the first Create was refused and every retry is a refused nameless create |
| Provisioner.RetryingCreateFailureReturnsZero | pkg/provisioner/resourcehandlers.go:140-153 | whenever the create loop fails, its object variable holds the empty object the last call returned |
| Provisioner.RetryingCreateExtends | pkg/provisioner/resourcehandlers.go:140-152 | the create loop only appends Create calls to the log |
| Provisioner.RetryingCreateFirstStep | pkg/provisioner/resourcehandlers.go:140-152 | the create loop's log begins with its first attempt's call |
| Provisioner.RetryResubmitsReturned | pkg/provisioner/resourcehandlers.go:140-152 | after a first transient failure, the second Create submits the zero object (empty name), not the built object |
| Provisioner.RetryingCreateTimesOut | pkg/provisioner/resourcehandlers.go:140-152 | a first transient failure followed by no AlreadyExists rejection ends in a timeout after the whole budget |
| Provisioner.CreateSecret | pkg/provisioner/resourcehandlers.go:134-154 | a builder error is returned with no call; otherwise only Secret creates in the claim's namespace, at most the budget of them, with the create loop's errors, success exactly when the first Create is accepted, and then the Secret stored and returned; on any error the empty Secret the client gave back is returned, not nil, and the stored objects are unchanged |
| Provisioner.CreateConfigMap | pkg/provisioner/resourcehandlers.go:156-177 | the same for the ConfigMap, returning the built map on success and the empty one on any error, with the stored objects unchanged |
| Provisioner.CreateObjectBucket | pkg/provisioner/resourcehandlers.go:116-132 | exactly one Create call; success exactly when the store accepts or reports AlreadyExists; any other error is returned as is; on acceptance exactly that record (cluster-scoped) is added to the store and returned; otherwise the store is unchanged and the empty record is returned, also when AlreadyExists made the call a success |
| Provisioner.CreateObjectBucketIgnoresBudget | pkg/provisioner/resourcehandlers.go:121-130 | the retry budget never changes the outcome, because every attempt decides the poll |
| Provisioner.FetchAndClearEffect | pkg/provisioner/resourcehandlers.go:186-195 | against a well-formed store: a NotFound Get is returned, not swallowed; after a good Get the log holds exactly that Get and one Update of the same key submitting the fetched copy without the finalizer; on success the store differs only at that key, whose object has lost the finalizer and keeps all other metadata and contents; on any error the objects are unchanged |
| Provisioner.ReleaseConfigMap | pkg/provisioner/resourcehandlers.go:181-198 | nil is success with no call; otherwise a Get of the map's key, then at most an Update of the same kind, and never a Delete; a failed Get is returned as is after that one call |
| Provisioner.ReleaseSecret | pkg/provisioner/resourcehandlers.go:202-219 | the same for the Secret |
| Provisioner.ReleaseClaim | pkg/provisioner/resourcehandlers.go:222-241 | the same for the claim, with Get and Update errors wrapped with their own context and the claim's `namespace/name`; the wrapped error is never NotFound itself |
| Provisioner.ReleaseReportsVerdicts | pkg/provisioner/resourcehandlers.go:186-238 | against a well-formed store, a release returns the Get's error, or else the Update's error for the same key; the claim's release wraps an Update error with its context and `namespace/name` |
| Provisioner.ReleaseClearsFinalizer | pkg/provisioner/resourcehandlers.go:181-241 | a successful release of any of the three leaves the stored object without the finalizer |
| Provisioner.CreatorsPreserveWf | pkg/provisioner/resourcehandlers.go:116-177 | the three creators keep every stored object under its own kind, namespace and name |
| Provisioner.CreateSecretPreservesWf | pkg/provisioner/resourcehandlers.go:134-154 | creating the Secret keeps the store well formed |
| Provisioner.CreateConfigMapPreservesWf | pkg/provisioner/resourcehandlers.go:156-177 | creating the ConfigMap keeps the store well formed |
| Provisioner.RetryingCreatePreservesWf | pkg/provisioner/resourcehandlers.go:140-152 | the create loop keeps the store well formed while its variable holds an object of the created kind |
| Provisioner.FetchAndClearPreservesWf | pkg/provisioner/resourcehandlers.go:186-195 | a finalizer release keeps the store well formed |
| Provisioner.ReleasersPreserveWf | pkg/provisioner/resourcehandlers.go:181-241 | the three releasers keep the store well formed |
| Provisioner.CreateThenReleaseClearsFinalizer | pkg/provisioner/resourcehandlers.go:134-219 | a Secret or ConfigMap its creator reports created, once released without error, is stored without the finalizer |
| Provisioner.ReleaseOfEmptyObjectFails | pkg/provisioner/resourcehandlers.go:153-207 | releasing the empty Secret or ConfigMap a failed creator returns fails on the nameless Get, with an error that is not NotFound |
| Provisioner.DeleteObjectBucket | pkg/provisioner/resourcehandlers.go:247-270 | nil is success with no call; the first call updates the caller's copy with the finalizer removed; an Update error ends it with the objects unchanged; then one Delete, where NotFound is success and other errors are wrapped with the record's name; a good Delete removes the record, a failed one leaves the cleared copy stored |
| Provisioner.DeleteObjectBucketNotFoundIsSuccess | pkg/provisioner/resourcehandlers.go:260-264 | once the Update succeeds, a record that vanished before the Delete counts as deleted |
| Provisioner.DeleteObjectBucketPreservesWf | pkg/provisioner/resourcehandlers.go:247-270 | deleting the bucket record keeps the store well formed |
| Provisioner.UpdateClaim | pkg/provisioner/resourcehandlers.go:272-280 | one Update call of the claim's key with the claim as given; the error is the store's verdict; on success the store holds it under that key, no other key changes, and it is returned; on error the empty claim is returned and the objects are unchanged |
| Provisioner.UpdateClaimPhase | pkg/provisioner/resourcehandlers.go:282-292 | one UpdateStatus call submitting the claim with exactly the requested phase; on success the stored claim takes that status and keeps its spec and metadata, no other key changes, and it is what is returned; on error the empty claim is returned and the objects are unchanged |
| Provisioner.UpdateBucketPhase | pkg/provisioner/resourcehandlers.go:294-304 | the same for the cluster-scoped bucket record |
| Provisioner.UpdatersIgnoreBudget | pkg/provisioner/resourcehandlers.go:275-302 | the three updaters never retry: any budget gives the same outcome |
| Provisioner.UpdatersPreserveWf | pkg/provisioner/resourcehandlers.go:272-304 | the three writers keep the store well formed |
| ResourceStore.WritePreservesWf | pkg/provisioner/resourcehandlers.go:141-164 | a Create or Update of an object of the addressed kind keeps every stored object under its own key |
| ResourceStore.GetPreservesWf | pkg/provisioner/resourcehandlers.go:186-187 | a Get keeps every stored object under its own key |
| ResourceStore.UpdateStatusPreservesWf | pkg/provisioner/resourcehandlers.go:288-300 | an UpdateStatus keeps every stored object under its own key |
| ResourceStore.DeletePreservesWf | pkg/provisioner/resourcehandlers.go:259-260 | a Delete keeps every remaining object under its own key |
| Objects.Without | pkg/provisioner/resourcehandlers.go:191 | the filtered finalizer list lacks the token and keeps every other entry with its multiplicity; it is unchanged when the token was absent |
| Objects.RemoveFinalizerIdempotent | pkg/provisioner/resourcehandlers.go:191 | removing the finalizer twice is removing it once |
| Text.ItoaRoundTrip | pkg/provisioner/resourcehandlers.go:79 | the decimal form of any integer reads back as that integer |
| Text.ItoaInjective | pkg/provisioner/resourcehandlers.go:79 | different ports give different `BUCKET_PORT` strings |
| Text.FormatBool | pkg/provisioner/resourcehandlers.go:80 | the `BUCKET_SSL` string reads back as the flag |
| Wait.PollErrorsFrom | pkg/provisioner/resourcehandlers.go:121-130 | a poll returns only its condition's errors or the timeout |
| Wait.PollPreserves | pkg/provisioner/resourcehandlers.go:140-152 | a property every attempt keeps holds after the poll |
| Wait.PollNeverSucceeds | pkg/provisioner/resourcehandlers.go:140-152 | if no attempt from a kept property can succeed, the poll ends in an error |
| Wait.PollTimeoutSpendsBudget | pkg/provisioner/resourcehandlers.go:140-152 | a timeout means every attempt in the budget was made |
| Wait.PollCountsTries | pkg/provisioner/resourcehandlers.go:140-152 | when each attempt makes one call, the poll makes exactly as many calls as attempts |
| ReconcilerUtil.NewCredentialsSecret | pkg/api/reconciler/util/util.go:73-100 | nil claim and nil authentication each give their own error; otherwise the Secret is named like the claim, has the finalizer, no owner reference, and exactly the credential map, even an empty one |
| ReconcilerUtil.NewBucketConfigMap | pkg/api/reconciler/util/util.go:102-140 | nil endpoint or claim is one error; a URL the parser refuses gives a malformed-URL error naming the joined path; otherwise no finalizer or owner reference, exactly seven keys, the claim's bucket name, the port printed as `strconv.Itoa` prints it, port and SSL reading back as the endpoint's, and the composed URL |
| ReconcilerUtil.ConfigMapUrlShape | pkg/api/reconciler/util/util.go:108-137 | the stored URL parses back to the claim's SSL choice, the endpoint's host, the port exactly when positive, and the non-empty region, sub-region and bucket-name segments |
| ReconcilerUtil.SslFlagCanDisagreeWithScheme | pkg/api/reconciler/util/util.go:109-134 | an SSL endpoint with a non-SSL claim gives `BUCKET_SSL` "true" and an `http://` URL |
| BucketUrl.ComposeParse | pkg/api/reconciler/util/util.go:108-119 | composition and parsing are inverse for hosts without `/` or `:` and segments without `/` |
| BucketUrl.SchemeFollowsSsl | pkg/api/reconciler/util/util.go:109-113 | the URL starts with `https://` exactly when SSL was asked for |
| BucketUrl.DefaultPortExample | pkg/api/reconciler/util/util.go:114-117 | a zero port leaves no `:port` and the path joins region, sub-region and bucket |
| ReconcilerUtil.NewObjectBucket | pkg/api/reconciler/util/util.go:142-152 | the record is named from the claim's namespace and name, is cluster-scoped, carries the given connection and an unset phase |
| ReconcilerUtil.BucketRecordNameRecoversClaim | pkg/api/reconciler/util/util.go:145 | for namespaces without a dash, the record name determines namespace and name |
| ReconcilerUtil.BucketRecordNameCollides | pkg/api/reconciler/util/util.go:145 | in general it does not: `a-b`/`c` and `a`/`b-c` give the same record name |
| ReconcilerUtil.CreateUntilDefaultTimeout | pkg/api/reconciler/util/util.go:154-167 | a nil client is an error with no call; otherwise exactly one Create under the object's own key; success exactly when it is accepted or AlreadyExists; any other error is returned at once; the object is added to the store exactly when accepted, and otherwise the store is unchanged |
| ReconcilerUtil.CreateUntilDefaultTimeoutPreservesWf | pkg/api/reconciler/util/util.go:160-166 | the create helper keeps every stored object under its own kind, namespace and name |
| ReconcilerUtil.TranslateReclaimPolicy | pkg/api/reconciler/util/util.go:169-177 | it succeeds exactly when the lower-cased input is one of the two policies, then returns that policy; otherwise the error quotes the input |
| ReconcilerUtil.TranslateIgnoresCase | pkg/api/reconciler/util/util.go:170 | inputs equal after lower-casing translate alike |
| ReconcilerUtil.TranslateNeedsLowerCaseConstants | pkg/api/reconciler/util/util.go:170-176 | a translated policy is lower-case, so constants that are not lower-case are never matched |
| ReconcilerUtil.TranslateRecognisesConstants | pkg/api/reconciler/util/util.go:170-172 | a lower-case policy is recognised in any capitalisation |
| ReconcilerUtil.GenerateBucketName | pkg/api/reconciler/util/util.go:179-187 | the name ends in the five-character suffix, and is just the suffix exactly when the prefix is empty |
| ReconcilerUtil.GenerateBucketNameRoundTrip | pkg/api/reconciler/util/util.go:181-187 | prefix and suffix read back from the generated name, with a dash between them when the prefix is non-empty |

## Left out

- Logging (`logD`, `log.Error`, `klog`) has no effect on results, so it is not modelled.
- Wall-clock time: the retry intervals and timeouts become a budget of attempts. `ReconcilerUtil.DefaultRetryAttempts` is 36, standing for 360 s / 10 s.
- `wait.PollImmediate`, the client libraries and the API server are not part of this model. `Wait` and `ResourceStore` state the semantics assumed of them.
- Assumed of the client: a failed call returns an empty object next to the error; the API server refuses a nameless create; the client refuses a nameless Get, Update, UpdateStatus or Delete.
- `url.Parse` is a parameter of `ReconcilerUtil.NewBucketConfigMap` (its verdict on the composed string), and `url.String` is taken to give that string back unchanged.
- BucketUrl.JoinPath: joins the non-empty segments with `/`. The `Clean` step of `path.Join` is not modelled; this is exact for segments without `/` and other than `.` and `..`.
- `makeOwnerReference`, `removeFinalizer`, `Authentication.ToMap` and `api.Domain` are not part of this model. They are taken as: an owner reference to the claim's kind, name and uid; removal of every copy of the token; the credential map itself; and `objectbucket.io`.
- The `rand.String(5)` suffix of `GenerateBucketName` is a parameter.
- The values of the reclaim-policy constants are parameters of `TranslateReclaimPolicy`.
- `StorageClassForClaim` is outside the modelled core.
- The handlers mutate the caller's object in place (a finalizer removed, a phase set). The model returns new values instead; the in-place change is visible only as the object submitted in the call log.
- Garbage collection through owner references, and concurrency between controllers, are outside the model. Scripted rejections stand in for interference.
- Provisioner.CreateObjectBucket, Provisioner.UpdateClaim, Provisioner.UpdateClaimPhase, Provisioner.UpdateBucketPhase and ReconcilerUtil.NewObjectBucket take a plain record where the Go functions take a pointer they dereference without a nil check (resourcehandlers.go:119, :274, :283-285, :295-297; util.go:145). A nil argument panics in the source; the parameter type excludes it, and the panic is not modelled.
- Phase transitions are not checked for monotonicity, because the handlers write whatever phase they are given.
- `ToLower` lower-cases ASCII letters only, so Unicode case folding is not modelled.

/** The provisioner's resource handlers: the builders of the claim's
    ConfigMap and Secret (both with a finalizer and an owner reference), the
    poll-wrapped creators, the finalizer-removing releasers, the bucket-record
    deleter and the claim / bucket updaters, each run against the abstract
    store of `ResourceStore`.

    `api.Domain` is not part of this model; it is taken to be
    "objectbucket.io", the value the reconciler package spells out, and no
    property below depends on it. */
module Provisioner {
  import opened Errors
  import opened Text
  import opened Objects
  import opened ResourceStore
  import opened Wait

  const Domain := "objectbucket.io"
  const Finalizer := Domain + "/finalizer"

  /** The six keys of the provisioner's ConfigMap. */
  const ConfigKeys: set<string> :=
    {BucketNameKey, BucketHostKey, BucketPortKey, BucketSslKey, BucketRegionKey, BucketSubRegionKey}

  function MakeOwnerReference(obc: ObjectBucketClaim): OwnerReference {
    OwnerReference("ObjectBucketClaim", obc.meta.name, obc.meta.uid)
  }

  /** The metadata both builders give a child of the claim: the claim's name
      and namespace, one finalizer, one owner reference to the claim. */
  function ChildMeta(obc: ObjectBucketClaim): ObjectMeta {
    ObjectMeta(obc.meta.name, obc.meta.namespace, "", [Finalizer], [MakeOwnerReference(obc)])
  }

  /** newBucketConfigMap */
  function NewBucketConfigMap(ep: Option<Endpoint>, obc: Option<ObjectBucketClaim>): (r: Result<ConfigMap>)
    ensures ep.None? ==> r == Err(Invalid("cannot construct configMap, got nil Endpoint"))
    ensures ep.Some? && obc.None? ==> r == Err(Invalid("cannot construct configMap, got nil OBC"))
    ensures r.Ok? <==> ep.Some? && obc.Some?
    ensures r.Ok? ==>
      var e := ep.value;
      var c := obc.value;
      var cm := r.value;
      && cm.meta.name == c.meta.name && cm.meta.namespace == c.meta.namespace
      && cm.meta.finalizers == [Finalizer]
      && cm.meta.ownerReferences == [MakeOwnerReference(c)]
      && cm.data.Keys == ConfigKeys
      && cm.data[BucketNameKey] == e.bucketName
      && cm.data[BucketHostKey] == e.bucketHost
      && cm.data[BucketPortKey] == Itoa(e.bucketPort)
      && ParseInt(cm.data[BucketPortKey]) == Some(e.bucketPort)
      && ParseBool(cm.data[BucketSslKey]) == Some(e.ssl)
      && cm.data[BucketRegionKey] == e.region
      && cm.data[BucketSubRegionKey] == e.subRegion
  {
    if ep.None? then Err(Invalid("cannot construct configMap, got nil Endpoint"))
    else if obc.None? then Err(Invalid("cannot construct configMap, got nil OBC"))
    else
      var e := ep.value;
      ItoaRoundTrip(e.bucketPort);
      Ok(ConfigMap(ChildMeta(obc.value), map[
        BucketNameKey := e.bucketName,
        BucketHostKey := e.bucketHost,
        BucketPortKey := Itoa(e.bucketPort),
        BucketSslKey := FormatBool(e.ssl),
        BucketRegionKey := e.region,
        BucketSubRegionKey := e.subRegion]))
  }

  /** newCredentialsSecret: the claim is checked before the authentication,
      and an empty credential map is still a Secret. */
  function NewCredentialsSecret(obc: Option<ObjectBucketClaim>, auth: Option<Authentication>): (r: Result<Secret>)
    ensures obc.None? ==> r == Err(Invalid("ObjectBucketClaim required to generate secret"))
    ensures obc.Some? && auth.None? ==> r == Err(Invalid("got nil authentication, nothing to do"))
    ensures r.Ok? <==> obc.Some? && auth.Some?
    ensures r.Ok? ==>
      && r.value.meta.name == obc.value.meta.name
      && r.value.meta.namespace == obc.value.meta.namespace
      && r.value.meta.finalizers == [Finalizer]
      && r.value.meta.ownerReferences == [MakeOwnerReference(obc.value)]
      && r.value.stringData == auth.value.ToMap()
  {
    if obc.None? then Err(Invalid("ObjectBucketClaim required to generate secret"))
    else if auth.None? then Err(Invalid("got nil authentication, nothing to do"))
    else Ok(Secret(ChildMeta(obc.value), auth.value.ToMap()))
  }

  /** What a handler gives back: the store after its calls, its value, its error. */
  datatype Handled<T> = Handled(store: Store, value: T, err: Option<Error>)

  /** The state a create condition closes over: the store and the object
      variable that each Create call's result is assigned back to. */
  datatype Creating = Creating(store: Store, current: Object)

  /** `after` extends `before` with Create calls of `kind` in `namespace` only. */
  predicate CreatesOnly(before: seq<Call>, after: seq<Call>, kind: Kind, namespace: string) {
    && |before| <= |after|
    && after[..|before|] == before
    && forall i :: |before| <= i < |after| ==>
         after[i].CreateCall? && after[i].key.kind == kind && after[i].key.namespace == namespace
  }

  // ---------------------------------------------------------------------
  // createSecret / createConfigMap share one condition: submit the current
  // object, assign the call's result back to it, stop on success or on
  // AlreadyExists (returning it), and ask to be polled again on any other error.

  function RetryingCreateAttempt(kind: Kind, namespace: string, s: Creating): (a: Attempt<Creating>)
    ensures a.state.store.log == s.store.log + [CreateCall(KeyFor(kind, namespace, s.current), s.current)]
    ensures a.state.store.script == Tail(s.store.script)
  {
    var reply := Create(s.store, kind, namespace, s.current);
    var next := Creating(reply.store, reply.obj);
    if reply.err.Some? then
      if IsAlreadyExists(reply.err.value) then Attempt(next, true, reply.err)
      else Attempt(next, false, None)
    else Attempt(next, true, None)
  }

  function RetryingCreate(kind: Kind, namespace: string): Creating -> Attempt<Creating> {
    s => RetryingCreateAttempt(kind, namespace, s)
  }

  function RetryingCreatePoll(kind: Kind, namespace: string, obj: Object, st: Store, budget: nat): Polled<Creating> {
    PollImmediate(RetryingCreate(kind, namespace), Creating(st, obj), budget)
  }

  /** A Create verdict that makes the condition ask to be polled again. */
  predicate Transient(verdict: Option<Error>) {
    verdict.Some? && !IsAlreadyExists(verdict.value)
  }

  /** The retrying poll makes between one and `budget` Create calls, all of
      the given kind and namespace, and no other call. */
  lemma RetryingCreateCalls(kind: Kind, namespace: string, obj: Object, st: Store, budget: nat)
    ensures var r := RetryingCreatePoll(kind, namespace, obj, st, budget);
      && CreatesOnly(st.log, r.state.store.log, kind, namespace)
      && |r.state.store.log| == |st.log| + r.tries
      && 1 <= r.tries <= Max1(budget)
  {
    var cond := RetryingCreate(kind, namespace);
    var s0 := Creating(st, obj);
    PollCountsTries(cond, s0, budget, (x: Creating) => |x.store.log|);
    PollPreserves(cond, s0, budget, (x: Creating) => CreatesOnly(st.log, x.store.log, kind, namespace));
  }

  /** The only errors the retrying poll returns are AlreadyExists and the
      timeout: a transient store error is never surfaced. */
  lemma RetryingCreateErrors(kind: Kind, namespace: string, obj: Object, st: Store, budget: nat)
    ensures var r := RetryingCreatePoll(kind, namespace, obj, st, budget);
      r.err.None? || r.err == Some(Api(AlreadyExists)) || r.err == Some(WaitTimeout)
  {
    PollErrorsFrom(RetryingCreate(kind, namespace), Creating(st, obj), budget, (e: Error) => IsAlreadyExists(e));
  }

  /** Once the submitted object has no name, no Create can succeed: after a
      transient failure the variable holds the empty object the client
      returned, so every later attempt resubmits that. */
  lemma NamelessNeverSucceeds(kind: Kind, namespace: string, s: Creating, budget: nat)
    requires MetaOf(s.current).name == ""
    ensures PollImmediate(RetryingCreate(kind, namespace), s, budget).err.Some?
  {
    var cond := RetryingCreate(kind, namespace);
    var inv := (x: Creating) => MetaOf(x.current).name == "";
    PollNeverSucceeds(cond, s, budget, inv);
  }

  /** With a nameless object, the poll spends its whole budget and times out
      unless the store answers AlreadyExists on the way. */
  lemma {:induction false} NamelessTimesOut(kind: Kind, namespace: string, s: Creating, budget: nat)
    requires MetaOf(s.current).name == ""
    requires forall i :: 0 <= i < |s.store.script| && i < Max1(budget) ==> s.store.script[i] != Reject(AlreadyExists)
    ensures var r := PollImmediate(RetryingCreate(kind, namespace), s, budget);
      r.err == Some(WaitTimeout) && r.tries == Max1(budget)
    decreases budget
  {
    var cond := RetryingCreate(kind, namespace);
    var a := cond(s);
    assert Head(s.store.script) != Reject(AlreadyExists) by {
      if |s.store.script| > 0 {
        assert s.store.script[0] != Reject(AlreadyExists);
      }
    }
    assert !Decides(a);
    if budget > 1 {
      var t := a.state.store.script;
      assert t == Tail(s.store.script);
      forall i | 0 <= i < |t| && i < budget - 1
        ensures t[i] != Reject(AlreadyExists)
      {
        assert t[i] == s.store.script[i + 1];
      }
      NamelessTimesOut(kind, namespace, a.state, budget - 1);
    }
  }

  /** The retrying poll succeeds exactly when its first Create call does;
      then the object sits in the store under its name after one call. */
  lemma RetryingCreateSucceedsFirstOrNever(kind: Kind, namespace: string, obj: Object, st: Store, budget: nat)
    ensures var r := RetryingCreatePoll(kind, namespace, obj, st, budget);
      var verdict := CreateVerdict(st, KeyFor(kind, namespace, obj));
      && (r.err.None? <==> verdict.None?)
      && (verdict.None? ==>
            r.tries == 1
            && r.state.current == Addressed(obj, namespace)
            && r.state.store.objects == st.objects[KeyFor(kind, namespace, obj) := Addressed(obj, namespace)])
      && (verdict == Some(Api(AlreadyExists)) ==> r.err == verdict && r.tries == 1)
  {
    var cond := RetryingCreate(kind, namespace);
    var a := cond(Creating(st, obj));
    var verdict := CreateVerdict(st, KeyFor(kind, namespace, obj));
    if Transient(verdict) && budget > 1 {
      assert a.state.current == Zero(kind);
      NamelessNeverSucceeds(kind, namespace, a.state, budget - 1);
    }
  }

  /** A failed create loop leaves its object variable holding the empty
      object the client returned, which is what the handler hands back. */
  lemma {:induction false} RetryingCreateFailureReturnsZero(kind: Kind, namespace: string, s: Creating, budget: nat)
    ensures var r := PollImmediate(RetryingCreate(kind, namespace), s, budget);
      r.err.Some? ==> r.state.current == Zero(kind)
    decreases budget
  {
    var cond := RetryingCreate(kind, namespace);
    var a := cond(s);
    if !Decides(a) && budget > 1 {
      RetryingCreateFailureReturnsZero(kind, namespace, a.state, budget - 1);
    }
  }

  /** A failed create loop leaves the stored objects as they were: the first
      Create was refused, and every retry submits a nameless object, which the
      store refuses too. */
  lemma RetryingCreateFailureKeepsObjects(kind: Kind, namespace: string, obj: Object, st: Store, budget: nat)
    ensures var r := RetryingCreatePoll(kind, namespace, obj, st, budget);
      r.err.Some? ==> r.state.store.objects == st.objects
  {
    var cond := RetryingCreate(kind, namespace);
    var a := cond(Creating(st, obj));
    if Transient(CreateVerdict(st, KeyFor(kind, namespace, obj))) && budget > 1 {
      assert a.state.current == Zero(kind);
      var inv := (x: Creating) => x.store.objects == st.objects && MetaOf(x.current).name == "";
      PollPreserves(cond, a.state, budget - 1, inv);
    }
  }

  /** The retrying poll only appends to the log. */
  lemma RetryingCreateExtends(kind: Kind, namespace: string, s: Creating, budget: nat)
    ensures var r := PollImmediate(RetryingCreate(kind, namespace), s, budget);
      CreatesOnly(s.store.log, r.state.store.log, kind, namespace)
  {
    var cond := RetryingCreate(kind, namespace);
    PollPreserves(cond, s, budget, (x: Creating) => CreatesOnly(s.store.log, x.store.log, kind, namespace));
  }

  /** The retrying poll's log starts with its first attempt's log. */
  lemma RetryingCreateFirstStep(kind: Kind, namespace: string, s: Creating, budget: nat)
    ensures var cond := RetryingCreate(kind, namespace);
      var first := cond(s).state.store.log;
      var r := PollImmediate(cond, s, budget);
      |first| <= |r.state.store.log| && r.state.store.log[..|first|] == first
  {
    var cond := RetryingCreate(kind, namespace);
    var a := cond(s);
    if !Decides(a) && budget > 1 {
      RetryingCreateExtends(kind, namespace, a.state, budget - 1);
    }
  }

  /** Each retry submits what the previous Create call returned: after a
      transient failure, the second call submits the kind's empty object,
      under an empty name, rather than the built one. */
  lemma RetryResubmitsReturned(kind: Kind, namespace: string, obj: Object, st: Store, budget: nat)
    requires Transient(CreateVerdict(st, KeyFor(kind, namespace, obj)))
    requires budget >= 2
    ensures var r := RetryingCreatePoll(kind, namespace, obj, st, budget);
      && |r.state.store.log| >= |st.log| + 2
      && r.state.store.log[|st.log|] == CreateCall(KeyFor(kind, namespace, obj), obj)
      && r.state.store.log[|st.log| + 1] == CreateCall(Key(kind, namespace, ""), Zero(kind))
  {
    var cond := RetryingCreate(kind, namespace);
    var a := cond(Creating(st, obj));
    assert a.state.current == Zero(kind);
    var prefix := cond(a.state).state.store.log;
    assert prefix == st.log + [CreateCall(KeyFor(kind, namespace, obj), obj), CreateCall(Key(kind, namespace, ""), Zero(kind))];
    var r := RetryingCreatePoll(kind, namespace, obj, st, budget);
    assert r.state == PollImmediate(cond, a.state, budget - 1).state;
    RetryingCreateFirstStep(kind, namespace, a.state, budget - 1);
    assert r.state.store.log[|st.log|] == prefix[|st.log|];
    assert r.state.store.log[|st.log| + 1] == prefix[|st.log| + 1];
  }

  /** A transiently failing first Create, followed by no AlreadyExists answer,
      ends in a timeout after exactly `budget` Create calls. */
  lemma RetryingCreateTimesOut(kind: Kind, namespace: string, obj: Object, st: Store, budget: nat)
    requires Transient(CreateVerdict(st, KeyFor(kind, namespace, obj)))
    requires forall i :: 1 <= i < |st.script| && i < Max1(budget) ==> st.script[i] != Reject(AlreadyExists)
    ensures var r := RetryingCreatePoll(kind, namespace, obj, st, budget);
      r.err == Some(WaitTimeout) && |r.state.store.log| == |st.log| + Max1(budget)
  {
    var cond := RetryingCreate(kind, namespace);
    var a := cond(Creating(st, obj));
    if budget > 1 {
      var t := a.state.store.script;
      forall i | 0 <= i < |t| && i < budget - 1
        ensures t[i] != Reject(AlreadyExists)
      {
        assert t[i] == st.script[i + 1];
      }
      NamelessTimesOut(kind, namespace, a.state, budget - 1);
    }
    RetryingCreateCalls(kind, namespace, obj, st, budget);
  }

  /** createSecret */
  function CreateSecret(obc: Option<ObjectBucketClaim>, auth: Option<Authentication>, st: Store, budget: nat)
    : (r: Handled<Option<Secret>>)
    ensures NewCredentialsSecret(obc, auth).Err? ==> r == Handled(st, None, Some(NewCredentialsSecret(obc, auth).error))
    ensures NewCredentialsSecret(obc, auth).Ok? ==>
      var key := Key(SecretKind, obc.value.meta.namespace, obc.value.meta.name);
      && r.value.Some?
      && CreatesOnly(st.log, r.store.log, SecretKind, obc.value.meta.namespace)
      && 1 <= |r.store.log| - |st.log| <= Max1(budget)
      && (r.err.None? || r.err == Some(Api(AlreadyExists)) || r.err == Some(WaitTimeout))
      && (r.err.None? <==> CreateVerdict(st, key).None?)
      && (r.err.None? ==> r.store.objects == st.objects[key := SecretObject(NewCredentialsSecret(obc, auth).value)])
      && (r.err.None? ==> r.value == Some(NewCredentialsSecret(obc, auth).value))
      && (r.err.Some? ==> r.value == Some(ZeroSecret) && r.store.objects == st.objects)
  {
    match NewCredentialsSecret(obc, auth)
    case Err(e) => Handled(st, None, Some(e))
    case Ok(secret) =>
      var ns := obc.value.meta.namespace;
      var polled := RetryingCreatePoll(SecretKind, ns, SecretObject(secret), st, budget);
      RetryingCreateCalls(SecretKind, ns, SecretObject(secret), st, budget);
      RetryingCreateErrors(SecretKind, ns, SecretObject(secret), st, budget);
      RetryingCreateSucceedsFirstOrNever(SecretKind, ns, SecretObject(secret), st, budget);
      RetryingCreateFailureReturnsZero(SecretKind, ns, Creating(st, SecretObject(secret)), budget);
      RetryingCreateFailureKeepsObjects(SecretKind, ns, SecretObject(secret), st, budget);
      assert Addressed(SecretObject(secret), ns) == SecretObject(secret);
      Handled(polled.state.store, Some(AsSecret(polled.state.current)), polled.err)
  }

  /** createConfigMap */
  function CreateConfigMap(obc: Option<ObjectBucketClaim>, ep: Option<Endpoint>, st: Store, budget: nat)
    : (r: Handled<Option<ConfigMap>>)
    ensures NewBucketConfigMap(ep, obc).Err? ==> r == Handled(st, None, Some(NewBucketConfigMap(ep, obc).error))
    ensures NewBucketConfigMap(ep, obc).Ok? ==>
      var key := Key(ConfigMapKind, obc.value.meta.namespace, obc.value.meta.name);
      && r.value.Some?
      && CreatesOnly(st.log, r.store.log, ConfigMapKind, obc.value.meta.namespace)
      && 1 <= |r.store.log| - |st.log| <= Max1(budget)
      && (r.err.None? || r.err == Some(Api(AlreadyExists)) || r.err == Some(WaitTimeout))
      && (r.err.None? <==> CreateVerdict(st, key).None?)
      && (r.err.None? ==> r.store.objects == st.objects[key := ConfigMapObject(NewBucketConfigMap(ep, obc).value)])
      && (r.err.None? ==> r.value == Some(NewBucketConfigMap(ep, obc).value))
      && (r.err.Some? ==> r.value == Some(ZeroConfigMap) && r.store.objects == st.objects)
  {
    match NewBucketConfigMap(ep, obc)
    case Err(e) => Handled(st, None, Some(e))
    case Ok(cm) =>
      var ns := obc.value.meta.namespace;
      var polled := RetryingCreatePoll(ConfigMapKind, ns, ConfigMapObject(cm), st, budget);
      RetryingCreateCalls(ConfigMapKind, ns, ConfigMapObject(cm), st, budget);
      RetryingCreateErrors(ConfigMapKind, ns, ConfigMapObject(cm), st, budget);
      RetryingCreateSucceedsFirstOrNever(ConfigMapKind, ns, ConfigMapObject(cm), st, budget);
      RetryingCreateFailureReturnsZero(ConfigMapKind, ns, Creating(st, ConfigMapObject(cm)), budget);
      RetryingCreateFailureKeepsObjects(ConfigMapKind, ns, ConfigMapObject(cm), st, budget);
      assert Addressed(ConfigMapObject(cm), ns) == ConfigMapObject(cm);
      Handled(polled.state.store, Some(AsConfigMap(polled.state.current)), polled.err)
  }

  // ---------------------------------------------------------------------
  // createObjectBucket: AlreadyExists is success, any other error ends the
  // poll at once because the condition returns it.

  function BucketCreateAttempt(ob: ObjectBucket, s: Creating): Attempt<Creating> {
    var reply := Create(s.store, BucketKind, "", BucketObject(ob));
    var err := if reply.err.Some? && IsAlreadyExists(reply.err.value) then None else reply.err;
    Attempt(Creating(reply.store, reply.obj), err.None?, err)
  }

  /** createObjectBucket */
  function CreateObjectBucket(ob: ObjectBucket, st: Store, budget: nat): (r: Handled<ObjectBucket>)
    ensures r.store.log == st.log + [CreateCall(Key(BucketKind, "", ob.meta.name), BucketObject(ob))]
    ensures var verdict := CreateVerdict(st, Key(BucketKind, "", ob.meta.name));
      && (r.err.None? <==> verdict.None? || verdict == Some(Api(AlreadyExists)))
      && (r.err.Some? ==> r.err == verdict)
      && (verdict.None? ==>
            && r.value == ob.(meta := ob.meta.(namespace := ""))
            && r.store.objects == st.objects[Key(BucketKind, "", ob.meta.name) := BucketObject(r.value)])
      && (verdict.Some? ==> r.value == ZeroBucket && r.store.objects == st.objects)
  {
    var polled := PollImmediate((s: Creating) => BucketCreateAttempt(ob, s), Creating(st, BucketObject(ob)), budget);
    Handled(polled.state.store, AsBucket(polled.state.current), polled.err)
  }

  /** The budget never matters: createObjectBucket makes one attempt. */
  lemma CreateObjectBucketIgnoresBudget(ob: ObjectBucket, st: Store, budget: nat, other: nat)
    ensures CreateObjectBucket(ob, st, budget) == CreateObjectBucket(ob, st, other)
  {
  }

  // ---------------------------------------------------------------------
  // Release: fetch a fresh copy, drop the finalizer from it, write it back.

  /** Where a release failed, if it did. */
  datatype Cleared = Cleared(store: Store, getErr: Option<Error>, updateErr: Option<Error>)

  /** The calls a release makes: a Get of `key`, then possibly an Update of
      the same kind, and never a Delete. */
  predicate ReleaseCalls(before: seq<Call>, after: seq<Call>, key: Key) {
    && |before| + 1 <= |after| <= |before| + 2
    && after[..|before|] == before
    && after[|before|] == GetCall(key)
    && (|after| == |before| + 2 ==> after[|before| + 1].UpdateCall? && after[|before| + 1].key.kind == key.kind)
    && NoDelete(after[|before|..])
  }

  function FetchAndClear(kind: Kind, namespace: string, name: string, st: Store): (r: Cleared)
    ensures ReleaseCalls(st.log, r.store.log, Key(kind, namespace, name))
    ensures r.getErr == GetVerdict(st, Key(kind, namespace, name))
    ensures r.getErr.Some? ==> r.updateErr.None? && r.store.log == st.log + [GetCall(Key(kind, namespace, name))]
  {
    var got := Get(st, kind, namespace, name);
    if got.err.Some? then Cleared(got.store, got.err, None)
    else
      var latest := got.obj;
      var cleared := WithMeta(latest, RemoveFinalizer(MetaOf(latest), Finalizer));
      var put := Update(got.store, kind, MetaOf(latest).namespace, cleared);
      assert put.store.log[|st.log|..] == [GetCall(Key(kind, namespace, name)), UpdateCall(put.store.log[|st.log| + 1].key, cleared)];
      Cleared(put.store, None, put.err)
  }

  /** Against a well-formed store, a release that reports no error has
      removed the finalizer from the stored object and changed nothing else
      about it; NotFound on the Get is reported, not swallowed. */
  lemma FetchAndClearEffect(kind: Kind, namespace: string, name: string, st: Store)
    requires Wf(st)
    ensures var r := FetchAndClear(kind, namespace, name, st);
      var key := Key(kind, namespace, name);
      && (GetVerdict(st, key) == Some(Api(NotFound)) ==> r.getErr == Some(Api(NotFound)))
      && (r.getErr.None? && r.updateErr.None? ==>
            && key in st.objects && key in r.store.objects
            && Finalizer !in MetaOf(r.store.objects[key]).finalizers
            && MetaOf(r.store.objects[key]) == RemoveFinalizer(MetaOf(st.objects[key]), Finalizer)
            && KindOf(r.store.objects[key]) == kind
            && r.store.objects == st.objects[key := WithMeta(st.objects[key], RemoveFinalizer(MetaOf(st.objects[key]), Finalizer))])
      && (r.getErr.Some? || r.updateErr.Some? ==> r.store.objects == st.objects)
      && (r.getErr.None? ==> r.updateErr == UpdateVerdict(Record(st, GetCall(key)), key))
      && (r.getErr.None? ==>
            r.store.log == st.log + [GetCall(key), UpdateCall(key, WithMeta(st.objects[key], RemoveFinalizer(MetaOf(st.objects[key]), Finalizer)))])
  {
    var key := Key(kind, namespace, name);
    var r := FetchAndClear(kind, namespace, name, st);
    if r.getErr.None? {
      assert key in st.objects;
      var latest := st.objects[key];
      assert MetaOf(latest).namespace == namespace && MetaOf(latest).name == name;
    }
  }

  /** releaseConfigMap */
  function ReleaseConfigMap(cm: Option<ConfigMap>, st: Store): (r: Done)
    ensures cm.None? ==> r == Done(st, None)
    ensures cm.Some? ==>
      var key := Key(ConfigMapKind, cm.value.meta.namespace, cm.value.meta.name);
      && ReleaseCalls(st.log, r.store.log, key)
      && (GetVerdict(st, key).Some? ==> r.err == GetVerdict(st, key) && |r.store.log| == |st.log| + 1)
  {
    if cm.None? then Done(st, None)
    else
      var c := FetchAndClear(ConfigMapKind, cm.value.meta.namespace, cm.value.meta.name, st);
      Done(c.store, if c.getErr.Some? then c.getErr else c.updateErr)
  }

  /** releaseSecret */
  function ReleaseSecret(sec: Option<Secret>, st: Store): (r: Done)
    ensures sec.None? ==> r == Done(st, None)
    ensures sec.Some? ==>
      var key := Key(SecretKind, sec.value.meta.namespace, sec.value.meta.name);
      && ReleaseCalls(st.log, r.store.log, key)
      && (GetVerdict(st, key).Some? ==> r.err == GetVerdict(st, key) && |r.store.log| == |st.log| + 1)
  {
    if sec.None? then Done(st, None)
    else
      var c := FetchAndClear(SecretKind, sec.value.meta.namespace, sec.value.meta.name, st);
      Done(c.store, if c.getErr.Some? then c.getErr else c.updateErr)
  }

  /** releaseOBC: both failures are wrapped with the claim's `ns/name`, so
      the caller can no longer tell NotFound from other errors. */
  function ReleaseClaim(obc: Option<ObjectBucketClaim>, st: Store): (r: Done)
    ensures obc.None? ==> r == Done(st, None)
    ensures obc.Some? ==>
      var key := Key(ClaimKind, obc.value.meta.namespace, obc.value.meta.name);
      var nsName := obc.value.meta.namespace + "/" + obc.value.meta.name;
      && ReleaseCalls(st.log, r.store.log, key)
      && (GetVerdict(st, key).Some? ==>
            r.err == Some(Wrapped("unable to Get obc in order to remove finalizer", nsName, GetVerdict(st, key).value)))
      && (r.err.Some? ==> r.err.value.Wrapped? && r.err.value.subject == nsName && !IsNotFound(r.err.value))
  {
    if obc.None? then Done(st, None)
    else
      var nsName := obc.value.meta.namespace + "/" + obc.value.meta.name;
      var c := FetchAndClear(ClaimKind, obc.value.meta.namespace, obc.value.meta.name, st);
      if c.getErr.Some? then
        Done(c.store, Some(Wrapped("unable to Get obc in order to remove finalizer", nsName, c.getErr.value)))
      else if c.updateErr.Some? then
        Done(c.store, Some(Wrapped("unable to Update obc to reflect removed finalizer", nsName, c.updateErr.value)))
      else Done(c.store, None)
  }

  /** Against a well-formed store, each release that returns nil leaves the
      stored object without the finalizer, and issues no Delete. */
  lemma ReleaseClearsFinalizer(cm: ConfigMap, sec: Secret, obc: ObjectBucketClaim, st: Store)
    requires Wf(st)
    ensures var r := ReleaseConfigMap(Some(cm), st);
      var key := Key(ConfigMapKind, cm.meta.namespace, cm.meta.name);
      r.err.None? ==> key in r.store.objects && Finalizer !in MetaOf(r.store.objects[key]).finalizers
    ensures var r := ReleaseSecret(Some(sec), st);
      var key := Key(SecretKind, sec.meta.namespace, sec.meta.name);
      r.err.None? ==> key in r.store.objects && Finalizer !in MetaOf(r.store.objects[key]).finalizers
    ensures var r := ReleaseClaim(Some(obc), st);
      var key := Key(ClaimKind, obc.meta.namespace, obc.meta.name);
      r.err.None? ==> key in r.store.objects && Finalizer !in MetaOf(r.store.objects[key]).finalizers
  {
    FetchAndClearEffect(ConfigMapKind, cm.meta.namespace, cm.meta.name, st);
    FetchAndClearEffect(SecretKind, sec.meta.namespace, sec.meta.name, st);
    FetchAndClearEffect(ClaimKind, obc.meta.namespace, obc.meta.name, st);
  }

  /** Against a well-formed store, each release returns the Get's error if
      the Get fails and otherwise the Update's, for the same key; the claim's
      release wraps either with its own context. */
  lemma ReleaseReportsVerdicts(cm: ConfigMap, sec: Secret, obc: ObjectBucketClaim, st: Store)
    requires Wf(st)
    ensures var key := Key(ConfigMapKind, cm.meta.namespace, cm.meta.name);
      ReleaseConfigMap(Some(cm), st).err ==
        if GetVerdict(st, key).Some? then GetVerdict(st, key) else UpdateVerdict(Record(st, GetCall(key)), key)
    ensures var key := Key(SecretKind, sec.meta.namespace, sec.meta.name);
      ReleaseSecret(Some(sec), st).err ==
        if GetVerdict(st, key).Some? then GetVerdict(st, key) else UpdateVerdict(Record(st, GetCall(key)), key)
    ensures var key := Key(ClaimKind, obc.meta.namespace, obc.meta.name);
      var updated := UpdateVerdict(Record(st, GetCall(key)), key);
      GetVerdict(st, key).None? ==>
        ReleaseClaim(Some(obc), st).err ==
          if updated.None? then None
          else Some(Wrapped("unable to Update obc to reflect removed finalizer",
                            obc.meta.namespace + "/" + obc.meta.name, updated.value))
  {
    FetchAndClearEffect(ConfigMapKind, cm.meta.namespace, cm.meta.name, st);
    FetchAndClearEffect(SecretKind, sec.meta.namespace, sec.meta.name, st);
    FetchAndClearEffect(ClaimKind, obc.meta.namespace, obc.meta.name, st);
  }

  /** The create loop keeps a store well formed when its object variable
      holds an object of the kind it creates. */
  lemma RetryingCreatePreservesWf(kind: Kind, namespace: string, obj: Object, st: Store, budget: nat)
    requires Wf(st) && KindOf(obj) == kind
    ensures Wf(RetryingCreatePoll(kind, namespace, obj, st, budget).state.store)
  {
    var cond := RetryingCreate(kind, namespace);
    var inv := (x: Creating) => Wf(x.store) && KindOf(x.current) == kind;
    forall x | inv(x)
      ensures inv(cond(x).state)
    {
      WritePreservesWf(x.store, kind, namespace, x.current);
    }
    PollPreserves(cond, Creating(st, obj), budget, inv);
  }

  lemma CreateSecretPreservesWf(obc: Option<ObjectBucketClaim>, auth: Option<Authentication>, st: Store, budget: nat)
    requires Wf(st)
    ensures Wf(CreateSecret(obc, auth, st, budget).store)
  {
    var sec := NewCredentialsSecret(obc, auth);
    if sec.Ok? {
      RetryingCreatePreservesWf(SecretKind, obc.value.meta.namespace, SecretObject(sec.value), st, budget);
    }
  }

  lemma CreateConfigMapPreservesWf(obc: Option<ObjectBucketClaim>, ep: Option<Endpoint>, st: Store, budget: nat)
    requires Wf(st)
    ensures Wf(CreateConfigMap(obc, ep, st, budget).store)
  {
    var cm := NewBucketConfigMap(ep, obc);
    if cm.Ok? {
      RetryingCreatePreservesWf(ConfigMapKind, obc.value.meta.namespace, ConfigMapObject(cm.value), st, budget);
    }
  }

  /** The three creators keep a store well formed. */
  lemma CreatorsPreserveWf(obc: Option<ObjectBucketClaim>, auth: Option<Authentication>, ep: Option<Endpoint>,
                           ob: ObjectBucket, st: Store, budget: nat)
    requires Wf(st)
    ensures Wf(CreateSecret(obc, auth, st, budget).store)
    ensures Wf(CreateConfigMap(obc, ep, st, budget).store)
    ensures Wf(CreateObjectBucket(ob, st, budget).store)
  {
    CreateSecretPreservesWf(obc, auth, st, budget);
    CreateConfigMapPreservesWf(obc, ep, st, budget);
    WritePreservesWf(st, BucketKind, "", BucketObject(ob));
  }

  /** A finalizer release keeps a store well formed. */
  lemma FetchAndClearPreservesWf(kind: Kind, namespace: string, name: string, st: Store)
    requires Wf(st)
    ensures Wf(FetchAndClear(kind, namespace, name, st).store)
  {
    var got := Get(st, kind, namespace, name);
    GetPreservesWf(st, kind, namespace, name);
    if got.err.None? {
      var cleared := WithMeta(got.obj, RemoveFinalizer(MetaOf(got.obj), Finalizer));
      WritePreservesWf(got.store, kind, MetaOf(got.obj).namespace, cleared);
    }
  }

  /** The three releasers keep a store well formed. */
  lemma ReleasersPreserveWf(cm: Option<ConfigMap>, sec: Option<Secret>, obc: Option<ObjectBucketClaim>, st: Store)
    requires Wf(st)
    ensures Wf(ReleaseConfigMap(cm, st).store)
    ensures Wf(ReleaseSecret(sec, st).store)
    ensures Wf(ReleaseClaim(obc, st).store)
  {
    if cm.Some? { FetchAndClearPreservesWf(ConfigMapKind, cm.value.meta.namespace, cm.value.meta.name, st); }
    if sec.Some? { FetchAndClearPreservesWf(SecretKind, sec.value.meta.namespace, sec.value.meta.name, st); }
    if obc.Some? { FetchAndClearPreservesWf(ClaimKind, obc.value.meta.namespace, obc.value.meta.name, st); }
  }

  /** A Secret or ConfigMap that its creator reports created is, once
      released without error, stored without the finalizer. */
  lemma CreateThenReleaseClearsFinalizer(obc: ObjectBucketClaim, auth: Authentication, ep: Endpoint, st: Store, budget: nat)
    requires Wf(st)
    ensures var c := CreateSecret(Some(obc), Some(auth), st, budget);
      var key := Key(SecretKind, obc.meta.namespace, obc.meta.name);
      c.err.None? ==>
        var r := ReleaseSecret(c.value, c.store);
        r.err.None? ==> key in r.store.objects && Finalizer !in MetaOf(r.store.objects[key]).finalizers
    ensures var c := CreateConfigMap(Some(obc), Some(ep), st, budget);
      var key := Key(ConfigMapKind, obc.meta.namespace, obc.meta.name);
      c.err.None? ==>
        var r := ReleaseConfigMap(c.value, c.store);
        r.err.None? ==> key in r.store.objects && Finalizer !in MetaOf(r.store.objects[key]).finalizers
  {
    CreateSecretPreservesWf(Some(obc), Some(auth), st, budget);
    CreateConfigMapPreservesWf(Some(obc), Some(ep), st, budget);
    var cs := CreateSecret(Some(obc), Some(auth), st, budget);
    FetchAndClearEffect(SecretKind, obc.meta.namespace, obc.meta.name, cs.store);
    var cc := CreateConfigMap(Some(obc), Some(ep), st, budget);
    FetchAndClearEffect(ConfigMapKind, obc.meta.namespace, obc.meta.name, cc.store);
  }

  /** The empty object a failed creator hands back cannot be released: its
      Get has no name and is refused, with an error that is not NotFound. */
  lemma ReleaseOfEmptyObjectFails(st: Store)
    requires Head(st.script) == Pass
    ensures ReleaseConfigMap(Some(ZeroConfigMap), st).err == Some(Api(Other("resource name may not be empty")))
    ensures ReleaseSecret(Some(ZeroSecret), st).err == Some(Api(Other("resource name may not be empty")))
  {
  }

  /** deleteObjectBucket: no Get; the caller's copy loses the finalizer and
      is written back, and only then is the record deleted. */
  function DeleteObjectBucket(ob: Option<ObjectBucket>, st: Store): (r: Done)
    ensures ob.None? ==> r == Done(st, None)
    ensures ob.Some? ==>
      var key := Key(BucketKind, "", ob.value.meta.name);
      var cleared := ob.value.(meta := RemoveFinalizer(ob.value.meta, Finalizer));
      var updated := UpdateVerdict(st, key);
      && |r.store.log| > |st.log|
      && r.store.log[..|st.log| + 1] == st.log + [UpdateCall(key, BucketObject(cleared))]
      && (updated.Some? ==> r == Done(Record(st, UpdateCall(key, BucketObject(cleared))), updated))
      && (updated.None? ==>
            && r.store.log == st.log + [UpdateCall(key, BucketObject(cleared)), DeleteCall(key)]
            && var deleted := UpdateVerdict(Record(st, UpdateCall(key, BucketObject(cleared))), key);
            && (deleted.None? ==> r.store.objects == st.objects - {key})
            && (deleted.Some? ==>
                  r.store.objects == st.objects[key := BucketObject(cleared.(meta := cleared.meta.(namespace := "")))])
            && (r.err.Some? ==>
                  && r.err.value.Wrapped?
                  && r.err.value.context == "error deleting ObjectBucket"
                  && r.err.value.subject == ob.value.meta.name
                  && !IsNotFound(r.err.value.cause)))
  {
    if ob.None? then Done(st, None)
    else
      var cleared := ob.value.(meta := RemoveFinalizer(ob.value.meta, Finalizer));
      var put := Update(st, BucketKind, "", BucketObject(cleared));
      if put.err.Some? then Done(put.store, put.err)
      else
        var name := AsBucket(put.obj).meta.name;
        var del := Delete(put.store, BucketKind, "", name);
        if del.err.None? then Done(del.store, None)
        else if IsNotFound(del.err.value) then Done(del.store, None)
        else Done(del.store, Some(Wrapped("error deleting ObjectBucket", name, del.err.value)))
  }

  /** After a successful write-back, the bucket record deletion reports
      success exactly when the store deleted it or said it was already gone. */
  lemma DeleteObjectBucketNotFoundIsSuccess(ob: ObjectBucket, st: Store)
    requires UpdateVerdict(st, Key(BucketKind, "", ob.meta.name)).None?
    ensures var r := DeleteObjectBucket(Some(ob), st);
      var key := Key(BucketKind, "", ob.meta.name);
      var afterUpdate := Update(st, BucketKind, "", BucketObject(ob.(meta := RemoveFinalizer(ob.meta, Finalizer)))).store;
      var deleted := UpdateVerdict(afterUpdate, key);
      && (r.err.None? <==> deleted.None? || deleted == Some(Api(NotFound)))
      && (deleted.None? ==> key !in r.store.objects)
  {
  }

  /** Deleting the bucket record keeps a store well formed. */
  lemma DeleteObjectBucketPreservesWf(ob: Option<ObjectBucket>, st: Store)
    requires Wf(st)
    ensures Wf(DeleteObjectBucket(ob, st).store)
  {
    if ob.Some? {
      var cleared := ob.value.(meta := RemoveFinalizer(ob.value.meta, Finalizer));
      var put := Update(st, BucketKind, "", BucketObject(cleared));
      WritePreservesWf(st, BucketKind, "", BucketObject(cleared));
      DeletePreservesWf(put.store, BucketKind, "", AsBucket(put.obj).meta.name);
    }
  }

  // ---------------------------------------------------------------------
  // updateClaim and the phase updaters: the condition returns `(err == nil, err)`,
  // so the first attempt always decides.

  datatype Writing = Writing(store: Store, result: Object)

  function WriteAttempt(reply: Reply): Attempt<Writing> {
    Attempt(Writing(reply.store, reply.obj), reply.err.None?, reply.err)
  }

  /** updateClaim */
  function UpdateClaim(obc: ObjectBucketClaim, st: Store, budget: nat): (r: Handled<ObjectBucketClaim>)
    ensures var key := Key(ClaimKind, obc.meta.namespace, obc.meta.name);
      && r.store.log == st.log + [UpdateCall(key, ClaimObject(obc))]
      && r.err == UpdateVerdict(st, key)
      && (r.err.None? ==> key in r.store.objects && AsClaim(r.store.objects[key]) == obc && r.value == obc)
      && (r.err.None? ==> r.store.objects == st.objects[key := ClaimObject(obc)])
      && (r.err.Some? ==> r.value == ZeroClaim && r.store.objects == st.objects)
  {
    var polled := PollImmediate(
      (s: Writing) => WriteAttempt(Update(s.store, ClaimKind, obc.meta.namespace, ClaimObject(obc))),
      Writing(st, ClaimObject(obc)), budget);
    Handled(polled.state.store, AsClaim(polled.state.result), polled.err)
  }

  /** updateObjectBucketClaimPhase: the claim written carries exactly the
      requested phase, and only its status reaches the store. */
  function UpdateClaimPhase(obc: ObjectBucketClaim, phase: Phase, st: Store, budget: nat): (r: Handled<ObjectBucketClaim>)
    ensures var key := Key(ClaimKind, obc.meta.namespace, obc.meta.name);
      && |r.store.log| == |st.log| + 1
      && r.store.log[|st.log|].UpdateStatusCall?
      && r.store.log[|st.log|].key == key
      && AsClaim(r.store.log[|st.log|].submitted).status.phase == phase
      && AsClaim(r.store.log[|st.log|].submitted).(status := obc.status) == obc
      && r.err == UpdateVerdict(st, key)
      && (r.err.None? ==>
            && key in r.store.objects
            && r.store.objects == st.objects[key := WithStatusOf(st.objects[key], ClaimObject(obc.(status := ClaimStatus(phase))))]
            && r.value == AsClaim(r.store.objects[key]))
      && (r.err.Some? ==> r.value == ZeroClaim && r.store.objects == st.objects)
  {
    var submitted := obc.(status := obc.status.(phase := phase));
    var polled := PollImmediate(
      (s: Writing) => WriteAttempt(UpdateStatus(s.store, ClaimKind, obc.meta.namespace, ClaimObject(submitted))),
      Writing(st, ClaimObject(submitted)), budget);
    Handled(polled.state.store, AsClaim(polled.state.result), polled.err)
  }

  /** updateObjectBucketPhase */
  function UpdateBucketPhase(ob: ObjectBucket, phase: Phase, st: Store, budget: nat): (r: Handled<ObjectBucket>)
    ensures var key := Key(BucketKind, "", ob.meta.name);
      && |r.store.log| == |st.log| + 1
      && r.store.log[|st.log|].UpdateStatusCall?
      && r.store.log[|st.log|].key == key
      && AsBucket(r.store.log[|st.log|].submitted).status.phase == phase
      && AsBucket(r.store.log[|st.log|].submitted).(status := ob.status) == ob
      && r.err == UpdateVerdict(st, key)
      && (r.err.None? ==>
            && key in r.store.objects
            && r.store.objects == st.objects[key := WithStatusOf(st.objects[key], BucketObject(ob.(status := BucketStatus(phase))))]
            && r.value == AsBucket(r.store.objects[key]))
      && (r.err.Some? ==> r.value == ZeroBucket && r.store.objects == st.objects)
  {
    var submitted := ob.(status := ob.status.(phase := phase));
    var polled := PollImmediate(
      (s: Writing) => WriteAttempt(UpdateStatus(s.store, BucketKind, "", BucketObject(submitted))),
      Writing(st, BucketObject(submitted)), budget);
    Handled(polled.state.store, AsBucket(polled.state.result), polled.err)
  }

  /** The writers make one attempt whatever their budget. */
  lemma UpdatersIgnoreBudget(obc: ObjectBucketClaim, ob: ObjectBucket, phase: Phase, st: Store, budget: nat, other: nat)
    ensures UpdateClaim(obc, st, budget) == UpdateClaim(obc, st, other)
    ensures UpdateClaimPhase(obc, phase, st, budget) == UpdateClaimPhase(obc, phase, st, other)
    ensures UpdateBucketPhase(ob, phase, st, budget) == UpdateBucketPhase(ob, phase, st, other)
  {
  }

  /** The three writers keep a store well formed. */
  lemma UpdatersPreserveWf(obc: ObjectBucketClaim, ob: ObjectBucket, phase: Phase, st: Store, budget: nat)
    requires Wf(st)
    ensures Wf(UpdateClaim(obc, st, budget).store)
    ensures Wf(UpdateClaimPhase(obc, phase, st, budget).store)
    ensures Wf(UpdateBucketPhase(ob, phase, st, budget).store)
  {
    WritePreservesWf(st, ClaimKind, obc.meta.namespace, ClaimObject(obc));
    UpdateStatusPreservesWf(st, ClaimKind, obc.meta.namespace, ClaimObject(obc.(status := obc.status.(phase := phase))));
    UpdateStatusPreservesWf(st, BucketKind, "", BucketObject(ob.(status := ob.status.(phase := phase))));
  }
}

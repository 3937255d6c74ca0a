/** An abstract resource store standing in for the Kubernetes API server as
    the handlers see it through their clients. It holds objects by
    (kind, namespace, name), answers each call from a script of injected
    outcomes (standing in for slow, crashed, concurrent or eventually consistent
    peers), and logs every call so that contracts can say which calls were made.

    Assumed semantics of a call:
    - it consumes the head of the script; an empty script answers `Pass`;
    - `Reject(reason)` fails the call with `Api(reason)` and changes no object;
    - `Pass` lets the store answer from its contents: Create of a present key
      is AlreadyExists, Get/Update/UpdateStatus/Delete of a missing key is
      NotFound; a Create with an empty name is rejected by the API server,
      and a Get/Update/UpdateStatus/Delete with an empty name by the client;
    - a failed Get/Create/Update returns the zero object of the kind next to the
      error, as the generated typed clients do;
    - a stored object takes the namespace the call was addressed to. */
module ResourceStore {
  import opened Errors
  import opened Objects

  datatype Kind = SecretKind | ConfigMapKind | BucketKind | ClaimKind

  datatype Key = Key(kind: Kind, namespace: string, name: string)

  datatype Object =
    | SecretObject(secret: Secret)
    | ConfigMapObject(configMap: ConfigMap)
    | BucketObject(bucket: ObjectBucket)
    | ClaimObject(claim: ObjectBucketClaim)

  function KindOf(o: Object): Kind {
    match o
    case SecretObject(_) => SecretKind
    case ConfigMapObject(_) => ConfigMapKind
    case BucketObject(_) => BucketKind
    case ClaimObject(_) => ClaimKind
  }

  function MetaOf(o: Object): ObjectMeta {
    match o
    case SecretObject(s) => s.meta
    case ConfigMapObject(c) => c.meta
    case BucketObject(b) => b.meta
    case ClaimObject(c) => c.meta
  }

  function WithMeta(o: Object, m: ObjectMeta): (r: Object)
    ensures KindOf(r) == KindOf(o) && MetaOf(r) == m
  {
    match o
    case SecretObject(s) => SecretObject(s.(meta := m))
    case ConfigMapObject(c) => ConfigMapObject(c.(meta := m))
    case BucketObject(b) => BucketObject(b.(meta := m))
    case ClaimObject(c) => ClaimObject(c.(meta := m))
  }

  /** The empty object a typed client returns next to an error. */
  function Zero(kind: Kind): (o: Object)
    ensures KindOf(o) == kind && MetaOf(o) == ZeroMeta
  {
    match kind
    case SecretKind => SecretObject(ZeroSecret)
    case ConfigMapKind => ConfigMapObject(ZeroConfigMap)
    case BucketKind => BucketObject(ZeroBucket)
    case ClaimKind => ClaimObject(ZeroClaim)
  }

  /** `stored` with its status taken from `submitted`: what UpdateStatus writes. */
  function WithStatusOf(stored: Object, submitted: Object): (r: Object)
    ensures KindOf(r) == KindOf(stored) && MetaOf(r) == MetaOf(stored)
  {
    match (stored, submitted)
    case (ClaimObject(c), ClaimObject(d)) => ClaimObject(c.(status := d.status))
    case (BucketObject(b), BucketObject(d)) => BucketObject(b.(status := d.status))
    case _ => stored
  }

  function AsSecret(o: Object): Secret {
    if o.SecretObject? then o.secret else ZeroSecret
  }

  function AsConfigMap(o: Object): ConfigMap {
    if o.ConfigMapObject? then o.configMap else ZeroConfigMap
  }

  function AsBucket(o: Object): ObjectBucket {
    if o.BucketObject? then o.bucket else ZeroBucket
  }

  function AsClaim(o: Object): ObjectBucketClaim {
    if o.ClaimObject? then o.claim else ZeroClaim
  }

  /** One scripted answer: let the call through, or fail it for `reason`. */
  datatype Scripted = Pass | Reject(reason: Reason)

  datatype Call =
    | GetCall(key: Key)
    | CreateCall(key: Key, submitted: Object)
    | UpdateCall(key: Key, submitted: Object)
    | UpdateStatusCall(key: Key, submitted: Object)
    | DeleteCall(key: Key)

  datatype Store = Store(objects: map<Key, Object>, script: seq<Scripted>, log: seq<Call>)

  /** What a Get, Create, Update or UpdateStatus call gives back. */
  datatype Reply = Reply(store: Store, obj: Object, err: Option<Error>)

  /** What a Delete call, and a handler that returns only an error, gives back. */
  datatype Done = Done(store: Store, err: Option<Error>)

  /** Every object sits under its own kind, namespace and name. */
  ghost predicate Wf(st: Store) {
    forall k :: k in st.objects ==>
      KindOf(st.objects[k]) == k.kind
      && MetaOf(st.objects[k]).name == k.name
      && MetaOf(st.objects[k]).namespace == k.namespace
  }

  function Head(script: seq<Scripted>): Scripted {
    if |script| == 0 then Pass else script[0]
  }

  function Tail(script: seq<Scripted>): seq<Scripted> {
    if |script| == 0 then [] else script[1..]
  }

  /** `st` after `call` consumed one scripted answer. */
  function Record(st: Store, call: Call): (r: Store)
    ensures r.objects == st.objects && r.log == st.log + [call] && r.script == Tail(st.script)
  {
    Store(st.objects, Tail(st.script), st.log + [call])
  }

  /** The error, if any, with which a Get of `key` is answered. */
  function GetVerdict(st: Store, key: Key): Option<Error> {
    match Head(st.script)
    case Reject(reason) => Some(Api(reason))
    case Pass =>
      if key.name == "" then Some(Api(Other("resource name may not be empty")))
      else if key in st.objects then None
      else Some(Api(NotFound))
  }

  /** The error, if any, with which a Create of `obj` under `key` is answered. */
  function CreateVerdict(st: Store, key: Key): Option<Error> {
    match Head(st.script)
    case Reject(reason) => Some(Api(reason))
    case Pass =>
      if key.name == "" then Some(Api(Other("name or generateName is required")))
      else if key in st.objects then Some(Api(AlreadyExists))
      else None
  }

  /** The error, if any, with which an Update, UpdateStatus or Delete of `key` is answered. */
  function UpdateVerdict(st: Store, key: Key): Option<Error> {
    match Head(st.script)
    case Reject(reason) => Some(Api(reason))
    case Pass =>
      if key.name == "" then Some(Api(Other("resource name may not be empty")))
      else if key in st.objects then None
      else Some(Api(NotFound))
  }

  function KeyFor(kind: Kind, namespace: string, obj: Object): Key {
    Key(kind, namespace, MetaOf(obj).name)
  }

  function Addressed(obj: Object, namespace: string): Object {
    WithMeta(obj, MetaOf(obj).(namespace := namespace))
  }

  function Get(st: Store, kind: Kind, namespace: string, name: string): (r: Reply)
    ensures r.store == Record(st, GetCall(Key(kind, namespace, name)))
    ensures r.err == GetVerdict(st, Key(kind, namespace, name))
    ensures r.err.None? ==> r.obj == st.objects[Key(kind, namespace, name)]
    ensures r.err.Some? ==> r.obj == Zero(kind)
  {
    var key := Key(kind, namespace, name);
    var st' := Record(st, GetCall(key));
    var verdict := GetVerdict(st, key);
    if verdict.Some? then Reply(st', Zero(kind), verdict)
    else Reply(st', st.objects[key], None)
  }

  function Create(st: Store, kind: Kind, namespace: string, obj: Object): (r: Reply)
    ensures r.err == CreateVerdict(st, KeyFor(kind, namespace, obj))
    ensures r.store.log == st.log + [CreateCall(KeyFor(kind, namespace, obj), obj)]
    ensures r.store.script == Tail(st.script)
    ensures r.err.None? ==>
      && r.obj == Addressed(obj, namespace)
      && r.store.objects == st.objects[KeyFor(kind, namespace, obj) := Addressed(obj, namespace)]
    ensures r.err.Some? ==> r.obj == Zero(kind) && r.store.objects == st.objects
  {
    var key := KeyFor(kind, namespace, obj);
    var st' := Record(st, CreateCall(key, obj));
    var verdict := CreateVerdict(st, key);
    if verdict.Some? then Reply(st', Zero(kind), verdict)
    else
      var stored := Addressed(obj, namespace);
      Reply(st'.(objects := st.objects[key := stored]), stored, None)
  }

  function Update(st: Store, kind: Kind, namespace: string, obj: Object): (r: Reply)
    ensures r.err == UpdateVerdict(st, KeyFor(kind, namespace, obj))
    ensures r.store.log == st.log + [UpdateCall(KeyFor(kind, namespace, obj), obj)]
    ensures r.store.script == Tail(st.script)
    ensures r.err.None? ==>
      && r.obj == Addressed(obj, namespace)
      && r.store.objects == st.objects[KeyFor(kind, namespace, obj) := Addressed(obj, namespace)]
    ensures r.err.Some? ==> r.obj == Zero(kind) && r.store.objects == st.objects
  {
    var key := KeyFor(kind, namespace, obj);
    var st' := Record(st, UpdateCall(key, obj));
    var verdict := UpdateVerdict(st, key);
    if verdict.Some? then Reply(st', Zero(kind), verdict)
    else
      var stored := Addressed(obj, namespace);
      Reply(st'.(objects := st.objects[key := stored]), stored, None)
  }

  function UpdateStatus(st: Store, kind: Kind, namespace: string, obj: Object): (r: Reply)
    ensures r.err == UpdateVerdict(st, KeyFor(kind, namespace, obj))
    ensures r.store.log == st.log + [UpdateStatusCall(KeyFor(kind, namespace, obj), obj)]
    ensures r.store.script == Tail(st.script)
    ensures r.err.None? ==>
      var key := KeyFor(kind, namespace, obj);
      && r.obj == WithStatusOf(st.objects[key], obj)
      && r.store.objects == st.objects[key := r.obj]
    ensures r.err.Some? ==> r.obj == Zero(kind) && r.store.objects == st.objects
  {
    var key := KeyFor(kind, namespace, obj);
    var st' := Record(st, UpdateStatusCall(key, obj));
    var verdict := UpdateVerdict(st, key);
    if verdict.Some? then Reply(st', Zero(kind), verdict)
    else
      var stored := WithStatusOf(st.objects[key], obj);
      Reply(st'.(objects := st.objects[key := stored]), stored, None)
  }

  function Delete(st: Store, kind: Kind, namespace: string, name: string): (r: Done)
    ensures r.err == UpdateVerdict(st, Key(kind, namespace, name))
    ensures r.store.log == st.log + [DeleteCall(Key(kind, namespace, name))]
    ensures r.store.script == Tail(st.script)
    ensures r.err.None? ==> r.store.objects == st.objects - {Key(kind, namespace, name)}
    ensures r.err.Some? ==> r.store.objects == st.objects
  {
    var key := Key(kind, namespace, name);
    var st' := Record(st, DeleteCall(key));
    var verdict := UpdateVerdict(st, key);
    if verdict.Some? then Done(st', verdict)
    else Done(st'.(objects := st.objects - {key}), None)
  }

  /** Putting an object under its own key keeps a store well formed. */
  lemma PutPreservesWf(objects: map<Key, Object>, key: Key, o: Object)
    requires forall k :: k in objects ==>
      KindOf(objects[k]) == k.kind && MetaOf(objects[k]).name == k.name && MetaOf(objects[k]).namespace == k.namespace
    requires KindOf(o) == key.kind && MetaOf(o).name == key.name && MetaOf(o).namespace == key.namespace
    ensures forall k :: k in objects[key := o] ==>
      KindOf(objects[key := o][k]) == k.kind
      && MetaOf(objects[key := o][k]).name == k.name
      && MetaOf(objects[key := o][k]).namespace == k.namespace
  {
  }

  /** A Create or an Update that submits an object of the kind it is
      addressed to keeps a store well formed. */
  lemma WritePreservesWf(st: Store, kind: Kind, namespace: string, obj: Object)
    requires Wf(st) && KindOf(obj) == kind
    ensures Wf(Create(st, kind, namespace, obj).store)
    ensures Wf(Update(st, kind, namespace, obj).store)
  {
    var key := KeyFor(kind, namespace, obj);
    PutPreservesWf(st.objects, key, Addressed(obj, namespace));
  }

  /** A Get keeps a store well formed. */
  lemma GetPreservesWf(st: Store, kind: Kind, namespace: string, name: string)
    requires Wf(st)
    ensures Wf(Get(st, kind, namespace, name).store)
  {
  }

  /** An UpdateStatus keeps a store well formed: only the status of the
      object already stored under the key changes. */
  lemma UpdateStatusPreservesWf(st: Store, kind: Kind, namespace: string, obj: Object)
    requires Wf(st)
    ensures Wf(UpdateStatus(st, kind, namespace, obj).store)
  {
    var key := KeyFor(kind, namespace, obj);
    if UpdateVerdict(st, key).None? {
      PutPreservesWf(st.objects, key, WithStatusOf(st.objects[key], obj));
    }
  }

  /** A Delete keeps a store well formed. */
  lemma DeletePreservesWf(st: Store, kind: Kind, namespace: string, name: string)
    requires Wf(st)
    ensures Wf(Delete(st, kind, namespace, name).store)
  {
  }

  /** No call in `calls` is a Delete. */
  predicate NoDelete(calls: seq<Call>) {
    forall i :: 0 <= i < |calls| ==> !calls[i].DeleteCall?
  }
}

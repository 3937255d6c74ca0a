/** The records both handler versions build and store: the claim
    (ObjectBucketClaim), the cluster-scoped bucket record (ObjectBucket), the
    credentials Secret and the connection ConfigMap, plus the value objects
    they are built from (Endpoint, Authentication, Connection). Only the fields
    the handlers read or write are modelled. */
module Objects {
  import opened Errors

  /** Link from a child record to the claim that owns it. `makeOwnerReference`
      is not part of this model; the link is represented by the identity of
      the owning claim. */
  datatype OwnerReference = OwnerReference(kind: string, name: string, uid: string)

  datatype ObjectMeta = ObjectMeta(
    name: string,
    namespace: string,
    uid: string,
    finalizers: seq<string>,
    ownerReferences: seq<OwnerReference>)

  /** `Status.Phase`; `Unset` is Go's empty string, the zero value. */
  datatype Phase = Unset | Pending | Bound | Released | Failed

  /** Where a provisioned bucket lives. A Go `int` port, so it may be zero or negative. */
  datatype Endpoint = Endpoint(
    bucketHost: string,
    bucketPort: int,
    bucketName: string,
    region: string,
    subRegion: string,
    ssl: bool)

  /** Credentials; `Authentication.ToMap` is not part of this model, so an
      authentication value is represented by the map it converts to. */
  datatype Authentication = Authentication(keys: map<string, string>) {
    function ToMap(): map<string, string> {
      keys
    }
  }

  datatype Connection = Connection(endpoint: Option<Endpoint>, authentication: Option<Authentication>)

  datatype ClaimSpec = ClaimSpec(
    storageClassName: string,
    bucketName: string,
    generateBucketName: string,
    ssl: bool)

  datatype ClaimStatus = ClaimStatus(phase: Phase)

  datatype ObjectBucketClaim = ObjectBucketClaim(meta: ObjectMeta, spec: ClaimSpec, status: ClaimStatus)

  datatype BucketSpec = BucketSpec(connection: Option<Connection>)

  datatype BucketStatus = BucketStatus(phase: Phase)

  datatype ObjectBucket = ObjectBucket(meta: ObjectMeta, spec: BucketSpec, status: BucketStatus)

  datatype Secret = Secret(meta: ObjectMeta, stringData: map<string, string>)

  datatype ConfigMap = ConfigMap(meta: ObjectMeta, data: map<string, string>)

  /** The keys of the connection data surface, identical in both versions. */
  const BucketNameKey := "BUCKET_NAME"
  const BucketHostKey := "BUCKET_HOST"
  const BucketPortKey := "BUCKET_PORT"
  const BucketRegionKey := "BUCKET_REGION"
  const BucketSubRegionKey := "BUCKET_SUBREGION"
  const BucketSslKey := "BUCKET_SSL"
  const BucketUrlKey := "BUCKET_URL"

  const ZeroMeta := ObjectMeta("", "", "", [], [])
  const ZeroSecret := Secret(ZeroMeta, map[])
  const ZeroConfigMap := ConfigMap(ZeroMeta, map[])
  const ZeroBucket := ObjectBucket(ZeroMeta, BucketSpec(None), BucketStatus(Unset))
  const ZeroClaim := ObjectBucketClaim(ZeroMeta, ClaimSpec("", "", "", false), ClaimStatus(Unset))

  /** `xs` with every occurrence of `token` dropped, the rest in order. */
  function Without(xs: seq<string>, token: string): (r: seq<string>)
    ensures token !in r
    ensures forall x :: x in r <==> x in xs && x != token
    ensures |r| <= |xs|
    ensures token !in xs ==> r == xs
    ensures multiset(r) == multiset(xs)[token := 0]
    decreases |xs|
  {
    if |xs| == 0 then []
    else
      assert xs == [xs[0]] + xs[1..];
      if xs[0] == token then Without(xs[1..], token)
      else [xs[0]] + Without(xs[1..], token)
  }

  /** `removeFinalizer` is not part of this model; it is taken to filter the
      token out of the finalizer list and to leave the rest of the metadata alone. */
  function RemoveFinalizer(m: ObjectMeta, token: string): (r: ObjectMeta)
    ensures token !in r.finalizers
    ensures forall f :: f in r.finalizers <==> f in m.finalizers && f != token
    ensures multiset(r.finalizers) == multiset(m.finalizers)[token := 0]
    ensures r.(finalizers := m.finalizers) == m
  {
    m.(finalizers := Without(m.finalizers, token))
  }

  /** Removing a finalizer twice is the same as removing it once. */
  lemma RemoveFinalizerIdempotent(m: ObjectMeta, token: string)
    ensures RemoveFinalizer(RemoveFinalizer(m, token), token) == RemoveFinalizer(m, token)
  {
  }
}

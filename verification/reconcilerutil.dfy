/** The reconciler's helpers: its own versions of the Secret and ConfigMap
    builders (no owner references; the ConfigMap has no finalizer but carries a
    composed `BUCKET_URL`), the bucket-record builder, the create helper used
    with a controller-runtime client, reclaim-policy translation and bucket
    name generation. */
module ReconcilerUtil {
  import opened Errors
  import opened Text
  import opened Objects
  import opened ResourceStore
  import opened Wait
  import opened BucketUrl

  const DomainPrefix := "objectbucket.io"
  const Finalizer := DomainPrefix + "/finalizer"

  /** Length of the random suffix of a generated bucket name. */
  const SuffixLen := 5

  /** The attempts a 360-second timeout allows at a 10-second interval; it
      stands in for DefaultRetryTimeout / DefaultRetryBaseInterval. */
  const DefaultRetryAttempts := 36

  /** The seven keys of the reconciler's ConfigMap. */
  const ConfigKeys: set<string> :=
    {BucketNameKey, BucketHostKey, BucketPortKey, BucketSslKey, BucketRegionKey, BucketSubRegionKey, BucketUrlKey}

  /** NewCredentialsSecret: one finalizer, no owner reference; an empty
      credential map is still a Secret (the source only logs a warning). */
  function NewCredentialsSecret(obc: Option<ObjectBucketClaim>, auth: Option<Authentication>): (r: Result<Secret>)
    ensures obc.None? ==> r == Err(Invalid("ObjectBucketClaim required to generate secret"))
    ensures obc.Some? && auth.None? ==> r == Err(Invalid("ObjectBucket required to generate secret"))
    ensures r.Ok? <==> obc.Some? && auth.Some?
    ensures r.Ok? ==>
      && r.value.meta.name == obc.value.meta.name
      && r.value.meta.namespace == obc.value.meta.namespace
      && r.value.meta.finalizers == [Finalizer]
      && r.value.meta.ownerReferences == []
      && r.value.stringData == auth.value.ToMap()
  {
    if obc.None? then Err(Invalid("ObjectBucketClaim required to generate secret"))
    else if auth.None? then Err(Invalid("ObjectBucket required to generate secret"))
    else
      var c := obc.value;
      Ok(Secret(ObjectMeta(c.meta.name, c.meta.namespace, "", [Finalizer], []), auth.value.ToMap()))
  }

  /** The URL the ConfigMap carries for an endpoint and a claim: the scheme
      follows the claim's SSL flag, the path is the endpoint's. */
  function ClaimBucketUrl(ep: Endpoint, obc: ObjectBucketClaim): string {
    Compose(obc.spec.ssl, ep.bucketHost, ep.bucketPort, ep.region, ep.subRegion, ep.bucketName)
  }

  /** NewBucketConfigMap. `url.Parse` is not part of this model: its verdict
      on the composed string is the parameter `urlParses`. */
  function NewBucketConfigMap(ep: Option<Endpoint>, obc: Option<ObjectBucketClaim>, urlParses: string -> bool)
    : (r: Result<ConfigMap>)
    ensures ep.None? || obc.None? ==> r == Err(Invalid("v1alpha1.Endpoint and v1alpha1.ObjectbucketClaim cannot be nil"))
    ensures ep.Some? && obc.Some? ==>
      var e := ep.value;
      var c := obc.value;
      var url := ClaimBucketUrl(e, c);
      && (!urlParses(url) ==> r == Err(MalformedUrl(JoinPath([e.region, e.subRegion, e.bucketName]))))
      && (urlParses(url) ==>
            && r.Ok?
            && r.value.meta.name == c.meta.name && r.value.meta.namespace == c.meta.namespace
            && r.value.meta.finalizers == [] && r.value.meta.ownerReferences == []
            && r.value.data.Keys == ConfigKeys
            && r.value.data[BucketNameKey] == c.spec.bucketName
            && r.value.data[BucketHostKey] == e.bucketHost
            && r.value.data[BucketPortKey] == Itoa(e.bucketPort)
            && ParseInt(r.value.data[BucketPortKey]) == Some(e.bucketPort)
            && ParseBool(r.value.data[BucketSslKey]) == Some(e.ssl)
            && r.value.data[BucketRegionKey] == e.region
            && r.value.data[BucketSubRegionKey] == e.subRegion
            && r.value.data[BucketUrlKey] == url)
  {
    if ep.None? || obc.None? then Err(Invalid("v1alpha1.Endpoint and v1alpha1.ObjectbucketClaim cannot be nil"))
    else
      var e := ep.value;
      var c := obc.value;
      var url := ClaimBucketUrl(e, c);
      if !urlParses(url) then Err(MalformedUrl(JoinPath([e.region, e.subRegion, e.bucketName])))
      else
        ItoaRoundTrip(e.bucketPort);
        Ok(ConfigMap(ObjectMeta(c.meta.name, c.meta.namespace, "", [], []), map[
          BucketNameKey := c.spec.bucketName,
          BucketHostKey := e.bucketHost,
          BucketPortKey := Itoa(e.bucketPort),
          BucketSslKey := FormatBool(e.ssl),
          BucketRegionKey := e.region,
          BucketSubRegionKey := e.subRegion,
          BucketUrlKey := url]))
  }

  /** The `BUCKET_URL` of a built ConfigMap reads back as the claim's SSL
      choice, the endpoint's host, its port exactly when positive, and the
      non-empty region / sub-region / bucket-name segments. */
  lemma ConfigMapUrlShape(ep: Endpoint, obc: ObjectBucketClaim, urlParses: string -> bool)
    requires urlParses(ClaimBucketUrl(ep, obc))
    requires '/' !in ep.bucketHost && ':' !in ep.bucketHost
    requires '/' !in ep.region && '/' !in ep.subRegion && '/' !in ep.bucketName
    ensures var r := NewBucketConfigMap(Some(ep), Some(obc), urlParses);
      && r.Ok?
      && Parse(r.value.data[BucketUrlKey]) == Some(UrlParts(
           obc.spec.ssl, ep.bucketHost,
           if ep.bucketPort > 0 then Some(ep.bucketPort) else None,
           NonEmpty([ep.region, ep.subRegion, ep.bucketName])))
  {
    ComposeParse(obc.spec.ssl, ep.bucketHost, ep.bucketPort, ep.region, ep.subRegion, ep.bucketName);
  }

  /** `BUCKET_SSL` follows the endpoint while the URL scheme follows the
      claim, so the two can disagree. */
  lemma SslFlagCanDisagreeWithScheme(urlParses: string -> bool)
    requires forall u :: urlParses(u)
    ensures var ep := Endpoint("s3.example.com", 0, "b1", "us", "east", true);
      var obc := ObjectBucketClaim(ZeroMeta, ClaimSpec("", "", "", false), ClaimStatus(Unset));
      var r := NewBucketConfigMap(Some(ep), Some(obc), urlParses);
      && r.Ok?
      && r.value.data[BucketSslKey] == "true"
      && !HasPrefix(r.value.data[BucketUrlKey], "https://")
  {
    var ep := Endpoint("s3.example.com", 0, "b1", "us", "east", true);
    var obc := ObjectBucketClaim(ZeroMeta, ClaimSpec("", "", "", false), ClaimStatus(Unset));
    SchemeFollowsSsl(false, ep.bucketHost, 0, "us", "east", "b1");
  }

  /** The name of the bucket record a claim gets. */
  function BucketRecordName(namespace: string, name: string): string {
    "obc-" + namespace + "-" + name
  }

  /** NewObjectBucket: never fails; the record is cluster-scoped, carries the
      given connection and nothing else. */
  function NewObjectBucket(obc: ObjectBucketClaim, connection: Option<Connection>): (r: ObjectBucket)
    ensures r.meta.name == BucketRecordName(obc.meta.namespace, obc.meta.name)
    ensures r.meta.namespace == "" && r.meta.finalizers == [] && r.meta.ownerReferences == []
    ensures r.spec.connection == connection
    ensures r.status == BucketStatus(Unset)
  {
    ObjectBucket(ZeroMeta.(name := BucketRecordName(obc.meta.namespace, obc.meta.name)), BucketSpec(connection), BucketStatus(Unset))
  }

  /** The record name is not injective: a dash may sit in either part. */
  lemma BucketRecordNameCollides()
    ensures BucketRecordName("a-b", "c") == BucketRecordName("a", "b-c")
  {
  }

  /** When the namespace has no dash, the record name determines the claim. */
  lemma BucketRecordNameRecoversClaim(ns1: string, name1: string, ns2: string, name2: string)
    requires '-' !in ns1 && '-' !in ns2
    requires BucketRecordName(ns1, name1) == BucketRecordName(ns2, name2)
    ensures ns1 == ns2 && name1 == name2
  {
    var s := BucketRecordName(ns1, name1);
    var t1 := ns1 + "-" + name1;
    var t2 := ns2 + "-" + name2;
    assert s[4..] == t1;
    assert BucketRecordName(ns2, name2)[4..] == t2;
    assert t1[..|ns1|] == ns1;
    assert t2[..|ns2|] == ns2;
    IndexOfUnique(t1, '-', |ns1|);
    IndexOfUnique(t2, '-', |ns2|);
    assert t1[|ns1| + 1..] == name1;
    assert t2[|ns2| + 1..] == name2;
  }

  /** What a helper handed an optional client gives back. */
  datatype ClientReply = ClientReply(client: Option<Store>, err: Option<Error>)

  function ObjectKey(obj: Object): Key {
    Key(KindOf(obj), MetaOf(obj).namespace, MetaOf(obj).name)
  }

  function CreateOnceAttempt(obj: Object, st: Store): Attempt<Store> {
    var reply := Create(st, KindOf(obj), MetaOf(obj).namespace, obj);
    if reply.err.Some? && !IsAlreadyExists(reply.err.value) then Attempt(reply.store, false, reply.err)
    else Attempt(reply.store, true, None)
  }

  /** CreateUntilDefaultTimeout: a nil client is an error with no call; else
      one Create, where AlreadyExists counts as success and any other error
      ends the poll at once. */
  function CreateUntilDefaultTimeout(obj: Object, c: Option<Store>): (r: ClientReply)
    ensures c.None? ==> r == ClientReply(None, Some(Invalid("error creating object, nil client")))
    ensures c.Some? ==>
      var verdict := CreateVerdict(c.value, ObjectKey(obj));
      && r.client.Some?
      && r.client.value.log == c.value.log + [CreateCall(ObjectKey(obj), obj)]
      && (r.err.None? <==> verdict.None? || verdict == Some(Api(AlreadyExists)))
      && (r.err.Some? ==> r.err == verdict)
      && (verdict.None? ==> r.client.value.objects == c.value.objects[ObjectKey(obj) := obj])
      && (verdict.Some? ==> r.client.value.objects == c.value.objects)
  {
    if c.None? then ClientReply(None, Some(Invalid("error creating object, nil client")))
    else
      var polled := PollImmediate((st: Store) => CreateOnceAttempt(obj, st), c.value, DefaultRetryAttempts);
      ClientReply(Some(polled.state), polled.err)
  }

  /** The create helper keeps a store well formed. */
  lemma CreateUntilDefaultTimeoutPreservesWf(obj: Object, st: Store)
    requires Wf(st)
    ensures Wf(CreateUntilDefaultTimeout(obj, Some(st)).client.value)
  {
    WritePreservesWf(st, KindOf(obj), MetaOf(obj).namespace, obj);
  }

  /** TranslateReclaimPolicy. The values of the two policy constants are not
      part of this model; they are parameters. */
  function TranslateReclaimPolicy(rp: string, deletePolicy: string, retainPolicy: string): (r: Result<string>)
    ensures r.Ok? <==> ToLower(rp) == deletePolicy || ToLower(rp) == retainPolicy
    ensures r.Ok? ==> r.value == ToLower(rp)
    ensures r.Err? ==> r.error == UnrecognizedPolicy(rp)
  {
    var lower := ToLower(rp);
    if lower == deletePolicy then Ok(deletePolicy)
    else if lower == retainPolicy then Ok(retainPolicy)
    else Err(UnrecognizedPolicy(rp))
  }

  /** Inputs that agree once lower-cased translate alike (apart from the
      error message, which quotes the input). */
  lemma TranslateIgnoresCase(a: string, b: string, deletePolicy: string, retainPolicy: string)
    requires ToLower(a) == ToLower(b)
    ensures TranslateReclaimPolicy(a, deletePolicy, retainPolicy).Ok?
      <==> TranslateReclaimPolicy(b, deletePolicy, retainPolicy).Ok?
    ensures TranslateReclaimPolicy(a, deletePolicy, retainPolicy).Ok? ==>
      TranslateReclaimPolicy(a, deletePolicy, retainPolicy) == TranslateReclaimPolicy(b, deletePolicy, retainPolicy)
  {
  }

  /** A translated policy is always lower-case, so a constant that is not
      lower-case is never returned, and if neither is, nothing translates. */
  lemma TranslateNeedsLowerCaseConstants(rp: string, deletePolicy: string, retainPolicy: string)
    ensures var r := TranslateReclaimPolicy(rp, deletePolicy, retainPolicy);
      r.Ok? ==> ToLower(r.value) == r.value
    ensures ToLower(deletePolicy) != deletePolicy && ToLower(retainPolicy) != retainPolicy ==>
      TranslateReclaimPolicy(rp, deletePolicy, retainPolicy).Err?
  {
    ToLowerIdempotent(rp);
  }

  /** A lower-case constant is recognised in any capitalisation. */
  lemma TranslateRecognisesConstants(rp: string, deletePolicy: string, retainPolicy: string)
    requires ToLower(deletePolicy) == deletePolicy
    requires ToLower(rp) == deletePolicy
    ensures TranslateReclaimPolicy(rp, deletePolicy, retainPolicy) == Ok(deletePolicy)
  {
  }

  /** GenerateBucketName. The random `rand.String(5)` is the parameter `suffix`. */
  function GenerateBucketName(prefix: string, suffix: string): (r: string)
    requires |suffix| == SuffixLen
    ensures |r| >= SuffixLen && r[|r| - SuffixLen..] == suffix
    ensures prefix == "" <==> |r| == SuffixLen
  {
    if prefix == "" then suffix else prefix + "-" + suffix
  }

  /** Reads a generated name back into its prefix and suffix. */
  function SplitBucketName(r: string): (string, string)
    requires |r| >= SuffixLen
  {
    if |r| == SuffixLen then ("", r)
    else if |r| > SuffixLen + 1 then (r[..|r| - SuffixLen - 1], r[|r| - SuffixLen..])
    else ("", r[|r| - SuffixLen..])
  }

  /** The prefix and the suffix can be read back from a generated name: the
      bare suffix when the prefix is empty, `prefix-suffix` otherwise. */
  lemma GenerateBucketNameRoundTrip(prefix: string, suffix: string)
    requires |suffix| == SuffixLen
    ensures SplitBucketName(GenerateBucketName(prefix, suffix)) == (prefix, suffix)
    ensures prefix != "" ==> GenerateBucketName(prefix, suffix)[|prefix|] == '-'
  {
    if prefix != "" {
      var r := GenerateBucketName(prefix, suffix);
      assert r == prefix + "-" + suffix;
      assert r[..|prefix|] == prefix;
    }
  }
}

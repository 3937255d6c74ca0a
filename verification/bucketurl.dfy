/** The `BUCKET_URL` value of the reconciler's ConfigMap, in the
    `scheme://host[:port]/path` form of section 3 of RFC 3986, and a parser
    for that form as its partner.

    `path.Join` is modelled as joining the non-empty segments with `/`; its
    `Clean` step is not modelled, which is exact for segments that contain no
    `/` and are not `.` or `..`. `url.Parse` and `url.String` are not part of
    this model: the composed string is the URL. */
module BucketUrl {
  import opened Errors
  import opened Text

  function Scheme(ssl: bool): string {
    if ssl then "https://" else "http://"
  }

  /** The `:<port>` segment, present only for a positive port. */
  function PortSuffix(port: int): string {
    if port > 0 then ":" + Itoa(port) else ""
  }

  /** The non-empty segments, in order. */
  function NonEmpty(segments: seq<string>): (r: seq<string>)
    ensures forall k :: 0 <= k < |r| ==> r[k] != ""
    ensures forall x :: x in r <==> x in segments && x != ""
    decreases |segments|
  {
    if |segments| == 0 then []
    else if segments[0] == "" then NonEmpty(segments[1..])
    else [segments[0]] + NonEmpty(segments[1..])
  }

  function JoinPath(segments: seq<string>): string {
    Join(NonEmpty(segments), '/')
  }

  /** The URL composed from the scheme choice, the host, the port and the
      region / sub-region / bucket-name path. */
  function Compose(ssl: bool, host: string, port: int, region: string, subRegion: string, bucket: string): string {
    Scheme(ssl) + AfterScheme(host, port, [region, subRegion, bucket])
  }

  /** `host[:port]/path`, everything the scheme is followed by. */
  function AfterScheme(host: string, port: int, segments: seq<string>): string {
    host + PortSuffix(port) + "/" + JoinPath(segments)
  }

  datatype UrlParts = UrlParts(secure: bool, host: string, port: Option<int>, segments: seq<string>)

  predicate HasPrefix(s: string, p: string) {
    |p| <= |s| && s[..|p|] == p
  }

  /** Reads `http(s)://host[:port]/seg/seg/...` back into its parts. */
  function Parse(u: string): Option<UrlParts> {
    if HasPrefix(u, "https://") then ParseAfterScheme(true, u[8..])
    else if HasPrefix(u, "http://") then ParseAfterScheme(false, u[7..])
    else None
  }

  function ParseAfterScheme(secure: bool, rest: string): Option<UrlParts> {
    if '/' !in rest then None
    else
      var i := IndexOf(rest, '/');
      ParseAuthority(secure, rest[..i], PathSegments(rest[i + 1..]))
  }

  function PathSegments(path: string): seq<string> {
    if path == "" then [] else Split(path, '/')
  }

  /** Reads `host[:port]`; the port, when present, must read as an integer. */
  function ParseAuthority(secure: bool, authority: string, segments: seq<string>): Option<UrlParts> {
    if ':' in authority then
      var j := IndexOf(authority, ':');
      match ParseInt(authority[j + 1..])
      case None => None
      case Some(p) => Some(UrlParts(secure, authority[..j], Some(p), segments))
    else Some(UrlParts(secure, authority, None, segments))
  }

  /** A join of non-empty pieces is empty exactly when there are no pieces. */
  lemma JoinEmpty(parts: seq<string>, sep: char)
    requires forall k :: 0 <= k < |parts| ==> parts[k] != ""
    ensures Join(parts, sep) == "" <==> |parts| == 0
  {
    if |parts| > 1 {
      assert Join(parts, sep) == parts[0] + [sep] + Join(parts[1..], sep);
    }
  }

  lemma DigitsHaveNo(s: string, c: char)
    requires AllDigits(s) && !IsDigit(c)
    ensures c !in s
  {
  }

  /** The port segment reads back as the port, and contains no `/`. */
  lemma PortSuffixShape(port: int)
    ensures '/' !in PortSuffix(port)
    ensures port > 0 ==> PortSuffix(port)[0] == ':' && PortSuffix(port)[1..] == Itoa(port)
    ensures port <= 0 ==> PortSuffix(port) == ""
  {
    if port > 0 {
      var d := Itoa(port);
      DigitsHaveNo(d, '/');
      assert PortSuffix(port) == [':'] + d;
    }
  }

  /** The authority part `host[:port]` reads back as host and port. */
  lemma AuthorityRoundTrip(secure: bool, host: string, port: int, segments: seq<string>)
    requires ':' !in host
    ensures ParseAuthority(secure, host + PortSuffix(port), segments)
      == Some(UrlParts(secure, host, if port > 0 then Some(port) else None, segments))
  {
    var a := host + PortSuffix(port);
    PortSuffixShape(port);
    if port > 0 {
      assert a[|host|] == ':';
      assert a[..|host|] == host;
      IndexOfUnique(a, ':', |host|);
      assert a[|host| + 1..] == Itoa(port);
      ItoaRoundTrip(port);
    } else {
      assert a == host;
    }
  }

  /** The path part reads back as the non-empty segments. */
  lemma PathRoundTrip(segments: seq<string>)
    requires forall k :: 0 <= k < |segments| ==> '/' !in segments[k]
    ensures PathSegments(JoinPath(segments)) == NonEmpty(segments)
  {
    var ne := NonEmpty(segments);
    JoinEmpty(ne, '/');
    if |ne| > 0 {
      forall k | 0 <= k < |ne|
        ensures '/' !in ne[k]
      {
        assert ne[k] in segments;
      }
      SplitJoin(ne, '/');
    }
  }

  /** The first `/` ends the authority when the authority has none. */
  lemma SplitAtFirstSlash(secure: bool, authority: string, path: string)
    requires '/' !in authority
    ensures ParseAfterScheme(secure, authority + "/" + path) == ParseAuthority(secure, authority, PathSegments(path))
  {
    var rest := authority + "/" + path;
    assert rest[|authority|] == '/';
    assert rest[..|authority|] == authority;
    IndexOfUnique(rest, '/', |authority|);
    assert rest[|authority| + 1..] == path;
  }

  /** Everything after the scheme reads back as host, port and segments. */
  lemma AfterSchemeRoundTrip(secure: bool, host: string, port: int, segments: seq<string>)
    requires '/' !in host && ':' !in host
    requires forall k :: 0 <= k < |segments| ==> '/' !in segments[k]
    ensures ParseAfterScheme(secure, AfterScheme(host, port, segments))
      == Some(UrlParts(secure, host, if port > 0 then Some(port) else None, NonEmpty(segments)))
  {
    PortSuffixShape(port);
    assert '/' !in host + PortSuffix(port);
    SplitAtFirstSlash(secure, host + PortSuffix(port), JoinPath(segments));
    PathRoundTrip(segments);
    AuthorityRoundTrip(secure, host, port, NonEmpty(segments));
  }

  /** The scheme prefix is recognised and stripped. */
  lemma SchemeRoundTrip(ssl: bool, rest: string)
    ensures Parse(Scheme(ssl) + rest) == ParseAfterScheme(ssl, rest)
  {
    var u := Scheme(ssl) + rest;
    if ssl {
      assert u[..8] == "https://";
      assert u[8..] == rest;
    } else {
      assert u[4] == ':';
      assert !HasPrefix(u, "https://");
      assert u[..7] == "http://";
      assert u[7..] == rest;
    }
  }

  /** Composition and parsing are inverse: the URL gives back the scheme
      choice, the host, the port exactly when it is positive, and the
      non-empty path segments in order. */
  lemma ComposeParse(ssl: bool, host: string, port: int, region: string, subRegion: string, bucket: string)
    requires '/' !in host && ':' !in host
    requires '/' !in region && '/' !in subRegion && '/' !in bucket
    ensures Parse(Compose(ssl, host, port, region, subRegion, bucket))
      == Some(UrlParts(ssl, host, if port > 0 then Some(port) else None, NonEmpty([region, subRegion, bucket])))
  {
    var segments := [region, subRegion, bucket];
    SchemeRoundTrip(ssl, AfterScheme(host, port, segments));
    AfterSchemeRoundTrip(ssl, host, port, segments);
  }

  /** The scheme is `https://` exactly when SSL was asked for. */
  lemma SchemeFollowsSsl(ssl: bool, host: string, port: int, region: string, subRegion: string, bucket: string)
    ensures HasPrefix(Compose(ssl, host, port, region, subRegion, bucket), "https://") <==> ssl
  {
    var u := Compose(ssl, host, port, region, subRegion, bucket);
    if ssl {
      assert u[..8] == "https://";
    } else {
      assert u[4] == ':';
    }
  }

  /** The example of an SSL endpoint on the default port. */
  lemma DefaultPortExample()
    ensures Compose(true, "s3.example.com", 0, "us", "east", "b1") == "https://s3.example.com/us/east/b1"
  {
    var segments := ["us", "east", "b1"];
    assert NonEmpty(segments[2..]) == ["b1"];
    assert NonEmpty(segments[1..]) == ["east", "b1"];
    assert NonEmpty(segments) == segments;
    assert Join(["b1"], '/') == "b1";
    assert Join(["east", "b1"], '/') == "east/b1";
    assert JoinPath(segments) == "us/east/b1";
    assert AfterScheme("s3.example.com", 0, segments) == "s3.example.com/us/east/b1";
  }
}

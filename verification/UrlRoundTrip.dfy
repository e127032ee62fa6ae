/** Splitting a printed object URL gives back its bucket, key and provider. */
module UrlRoundTrip {
  import opened ArchiveKeys
  import opened Basics
  import opened PyStrings
  import opened PercentCoding
  import opened Urls

  /** Characters of a host name with an optional port. */
  predicate NetChar(c: char) {
    'a' <= c <= 'z' || 'A' <= c <= 'Z' || '0' <= c <= '9' ||
    c == '.' || c == '-' || c == '_' || c == ':'
  }

  predicate BucketChar(c: char) {
    'a' <= c <= 'z' || '0' <= c <= '9' || c == '.' || c == '-' || c == '_'
  }

  /** Bucket names are lower case and have no slash. */
  predicate ValidBucket(bucket: string) {
    bucket != "" && forall c | c in bucket :: BucketChar(c)
  }

  predicate ValidProvider(p: Provider) {
    match p.endpoint
    case Some(e) => (e.scheme == "http" || e.scheme == "https") && e.netloc != "" && forall c | c in e.netloc :: NetChar(c)
    case None => p.region != "" && forall c | c in p.region :: LabelChar(c)
  }

  predicate IsKey(key: string) {
    forall c | c in key :: IsByte(c)
  }

  // ---------------------------------------------------------------- parsing what was printed

  predicate PathChar(c: char) {
    Safe(c) || c == '%'
  }

  lemma HttpPrefix(rest: string)
    ensures StartsWithScheme("http" + "://" + rest) && AuthorityStart("http" + "://" + rest) == 7
  {
  }

  lemma HttpsPrefix(rest: string)
    ensures StartsWithScheme("https" + "://" + rest) && AuthorityStart("https" + "://" + rest) == 8
  {
    var url := "https" + "://" + rest;
    assert Lower(url)[..8] == "https://";
    assert Lower(url)[4] == 's';
  }

  lemma SchemeRead(scheme: string, rest: string)
    requires scheme == "http" || scheme == "https"
    ensures StartsWithScheme(scheme + "://" + rest) && AuthorityStart(scheme + "://" + rest) == |scheme| + 3
  {
    if scheme == "http" {
      HttpPrefix(rest);
    } else {
      HttpsPrefix(rest);
    }
  }

  /** Neither trimming nor cleaning changes a URL made of visible characters. */
  lemma VisibleUrl(url: string)
    requires url != "" && forall c | c in url :: c as int > 32
    ensures Trim(url) == url && Clean(url) == url
  {
    assert url[0] in url && url[|url| - 1] in url;
    TrimNothing(url);
    FilterAll(url, c => c != '\t' && c != '\r' && c != '\n');
  }

  lemma {:induction false} NoParams(path: string)
    requires forall c | c in path :: c != ';'
    ensures DropParams(path) == path
  {
    assert forall k :: 0 <= k < |path| ==> path[k] in path;
  }

  /** A path without the delimiters of queries, fragments and parameters is read whole. */
  lemma PathRead(path: string)
    requires forall c | c in path :: PathChar(c)
    ensures Find(path, 0, c => c == '#') == |path|
    ensures Find(path, 0, c => c == '?') == |path|
    ensures DropParams(path) == path
  {
    assert forall k :: 0 <= k < |path| ==> path[k] in path;
    NoParams(path);
  }

  lemma AuthorityRead(url: string, start: nat, host: string, path: string)
    requires start <= |url| && url[start..] == host + path
    requires (forall c | c in host :: NetChar(c)) && path != "" && path[0] == '/'
    ensures var end := Find(url, start, c => EndsAuthority(c));
            end == start + |host| && url[start..end] == host && url[end..] == path
  {
    var end := Find(url, start, c => EndsAuthority(c));
    assert forall k :: start <= k < |url| ==> url[k] == (host + path)[k - start];
    assert forall k :: start <= k < start + |host| ==> url[k] == host[k - start] && host[k - start] in host;
    assert url[start + |host|] == '/';
    assert end == start + |host|;
  }

  lemma PartsRead(url: string, host: string, path: string)
    requires StartsWithScheme(url) && url[AuthorityStart(url)..] == host + path
    requires forall c | c in host :: NetChar(c)
    requires path != "" && path[0] == '/' && (forall c | c in path :: PathChar(c))
    ensures UrlParse(url) == Some((host, path))
  {
    AuthorityRead(url, AuthorityStart(url), host, path);
    PathRead(path);
    assert path[..|path|] == path;
    assert '[' !in host && ']' !in host;
  }

  lemma VisibleParts(scheme: string, host: string, path: string)
    requires scheme == "http" || scheme == "https"
    requires (forall c | c in host :: NetChar(c)) && (forall c | c in path :: PathChar(c))
    ensures forall c | c in scheme + "://" + host + path :: c as int > 32
  {
  }

  lemma ParsePlain(scheme: string, host: string, path: string)
    requires scheme == "http" || scheme == "https"
    requires forall c | c in host :: NetChar(c)
    requires path != "" && path[0] == '/' && (forall c | c in path :: PathChar(c))
    ensures var url := scheme + "://" + host + path;
            Trim(url) == url && Clean(url) == url && StartsWithScheme(url) && UrlParse(url) == Some((host, path))
  {
    var url := scheme + "://" + host + path;
    assert url == scheme + "://" + (host + path);
    SchemeRead(scheme, host + path);
    VisibleParts(scheme, host, path);
    VisibleUrl(url);
    assert url[|scheme| + 3..] == host + path;
    PartsRead(url, host, path);
  }

  /** The path that the printer puts after the host. */
  function PathOf(p: Provider, bucket: string, key: string): string
    requires IsKey(key)
  {
    if p.endpoint.Some? && p.pathStyle then "/" + bucket + "/" + Quote(key) else "/" + Quote(key)
  }

  function SchemeOf(p: Provider): string {
    if p.endpoint.Some? then p.endpoint.value.scheme else "https"
  }

  lemma JoinPathStyle(scheme: string, netloc: string, bucket: string, quoted: string)
    ensures scheme + "://" + netloc + "/" + bucket + "/" + quoted == scheme + "://" + netloc + ("/" + bucket + "/" + quoted)
  {
  }

  lemma JoinHostStyle(scheme: string, bucket: string, host: string, quoted: string)
    ensures scheme + "://" + bucket + "." + host + "/" + quoted == scheme + "://" + (bucket + "." + host) + ("/" + quoted)
  {
  }

  lemma UrlJoined(p: Provider, bucket: string, key: string)
    requires IsKey(key)
    ensures ObjectUrl(p, bucket, key) == SchemeOf(p) + "://" + HostOf(p, bucket) + PathOf(p, bucket, key)
  {
    var quoted := Quote(key);
    if p.endpoint.None? {
      assert "https://" == "https" + "://";
      JoinHostStyle("https", bucket, AwsHost(p.region), quoted);
    } else if p.pathStyle {
      JoinPathStyle(p.endpoint.value.scheme, p.endpoint.value.netloc, bucket, quoted);
    } else {
      JoinHostStyle(p.endpoint.value.scheme, bucket, p.endpoint.value.netloc, quoted);
    }
  }

  lemma HostChars(p: Provider, bucket: string)
    requires ValidProvider(p) && ValidBucket(bucket)
    ensures HostOf(p, bucket) != "" && forall c | c in HostOf(p, bucket) :: NetChar(c)
  {
  }

  lemma PathChars(p: Provider, bucket: string, key: string)
    requires ValidBucket(bucket) && IsKey(key)
    ensures PathOf(p, bucket, key)[0] == '/' && forall c | c in PathOf(p, bucket, key) :: PathChar(c)
  {
    QuotedChars(key);
  }

  lemma PrintedParts(p: Provider, bucket: string, key: string)
    requires ValidProvider(p) && ValidBucket(bucket) && IsKey(key)
    ensures ObjectUrl(p, bucket, key) == SchemeOf(p) + "://" + HostOf(p, bucket) + PathOf(p, bucket, key)
    ensures HostOf(p, bucket) != "" && forall c | c in HostOf(p, bucket) :: NetChar(c)
    ensures PathOf(p, bucket, key)[0] == '/' && forall c | c in PathOf(p, bucket, key) :: PathChar(c)
  {
    UrlJoined(p, bucket, key);
    HostChars(p, bucket);
    PathChars(p, bucket, key);
  }

  /** The decoded path, without its leading slashes. */
  function Pathname(p: Provider, bucket: string, key: string): string {
    if p.endpoint.Some? && p.pathStyle then bucket + "/" + key else StripLeft(key, '/')
  }

  lemma DecodedPath(p: Provider, bucket: string, key: string)
    requires ValidBucket(bucket) && IsKey(key)
    ensures StripLeft(Unquote(PathOf(p, bucket, key)), '/') == Pathname(p, bucket, key)
  {
    UnquoteQuote(key);
    if p.endpoint.Some? && p.pathStyle {
      PathStyleDecoded(bucket, key);
    } else {
      UnquotePlain("/", Quote(key));
      assert ("/" + key)[1..] == key;
    }
  }

  lemma PathStyleDecoded(bucket: string, key: string)
    requires ValidBucket(bucket) && IsKey(key)
    ensures StripLeft(Unquote("/" + bucket + "/" + Quote(key)), '/') == bucket + "/" + key
  {
    UnquoteQuote(key);
    NoPercent(bucket);
    UnquotePlain("/" + bucket + "/", Quote(key));
    BucketPath(bucket, key);
  }

  lemma BucketPath(bucket: string, key: string)
    requires ValidBucket(bucket)
    ensures StripLeft("/" + bucket + "/" + key, '/') == bucket + "/" + key
  {
    assert "/" + bucket + "/" + key == "/" + (bucket + "/" + key);
    assert bucket[0] in bucket;
    StripOneSlash(bucket + "/" + key);
  }

  lemma NoPercent(bucket: string)
    requires ValidBucket(bucket)
    ensures '%' !in "/" + bucket + "/"
  {
  }

  lemma StripOneSlash(s: string)
    requires s != "" && s[0] != '/'
    ensures StripLeft("/" + s, '/') == s
  {
  }

  /** What splitting a printed URL comes down to: the choice of the provider. */
  lemma SplitPrinted(providers: seq<Provider>, p: Provider, bucket: string, key: string)
    requires ValidProvider(p) && ValidBucket(bucket) && IsKey(key)
    ensures SplitObjectReference(providers, ObjectUrl(p, bucket, key))
         == match SplitS3StyleUrl(providers, Pathname(p, bucket, key), HostOf(p, bucket))
            case Some(r) => r.(key := StripLeft(r.key, '/'))
            case None => Reference(None, Pathname(p, bucket, key), None)
  {
    PrintedParts(p, bucket, key);
    ParsePlain(SchemeOf(p), HostOf(p, bucket), PathOf(p, bucket, key));
    DecodedPath(p, bucket, key);
  }

  // ---------------------------------------------------------------- choosing the provider

  /** The loop stops at `p` for this host. */
  predicate Claims(p: Provider, host: string) {
    p.endpoint.Some? && p.endpoint.value.netloc != "" &&
    var endpointHost := Lower(p.endpoint.value.netloc);
    if p.pathStyle then host == endpointHost else EndsWith(host, "." + endpointHost)
  }

  /** No provider but the one at `index` claims the host. */
  predicate Unclaimed(providers: seq<Provider>, index: int, host: string) {
    forall i :: 0 <= i < |providers| && i != index ==> !Claims(providers[i], host)
  }

  lemma NotClaimed(p: Provider, pathname: string, host: string)
    requires !Claims(p, host)
    ensures TryProvider(p, pathname, host) == None
  {
  }

  lemma {:induction false} ChooseProvider(providers: seq<Provider>, index: nat, pathname: string, host: string)
    requires index < |providers| && Unclaimed(providers, index, host)
    ensures TryProviders(providers, pathname, host) == TryProvider(providers[index], pathname, host)
  {
    if index == 0 {
      if TryProvider(providers[0], pathname, host).None? {
        NobodyClaims(providers[1..], pathname, host);
      }
    } else {
      NotClaimed(providers[0], pathname, host);
      ChooseProvider(providers[1..], index - 1, pathname, host);
    }
  }

  lemma {:induction false} NobodyClaims(providers: seq<Provider>, pathname: string, host: string)
    requires Unclaimed(providers, -1, host)
    ensures TryProviders(providers, pathname, host) == None
  {
    if providers != [] {
      NotClaimed(providers[0], pathname, host);
      NobodyClaims(providers[1..], pathname, host);
    }
  }

  lemma {:induction false} LowerBucket(bucket: string)
    requires ValidBucket(bucket)
    ensures Lower(bucket) == bucket && '/' !in bucket
  {
    assert forall i :: 0 <= i < |bucket| ==> bucket[i] in bucket;
  }

  /** The provider a URL was printed for finds its bucket again. */
  lemma OwnProvider(p: Provider, bucket: string, key: string)
    requires ValidProvider(p) && p.endpoint.Some? && ValidBucket(bucket)
    ensures TryProvider(p, Pathname(p, bucket, key), Lower(HostOf(p, bucket)))
         == Some(Reference(Some(bucket), if p.pathStyle then key else StripLeft(key, '/'), Some(p.key)))
  {
    LowerBucket(bucket);
    var endpointHost := Lower(p.endpoint.value.netloc);
    if p.pathStyle {
      assert Pathname(p, bucket, key) == bucket + ['/'] + key;
      PartitionJoined(bucket, '/', key);
    } else {
      var host := Lower(HostOf(p, bucket));
      LowerConcat(bucket + ".", p.endpoint.value.netloc);
      LowerConcat(bucket, ".");
      assert host == bucket + "." + endpointHost;
      assert host[|host| - |"." + endpointHost|..] == "." + endpointHost;
      assert host[..|host| - |endpointHost| - 1] == bucket;
    }
  }

  /** Path-style and virtual-hosted URLs: the splitter returns the bucket and the provider they
      were printed for, and the key if and only if the key has no leading slash. */
  lemma EndpointUrlRoundTrip(providers: seq<Provider>, index: nat, bucket: string, key: string)
    requires index < |providers| && ValidProvider(providers[index]) && providers[index].endpoint.Some?
    requires ValidBucket(bucket) && IsKey(key)
    requires Unclaimed(providers, index, Lower(HostOf(providers[index], bucket)))
    ensures var p := providers[index];
            var r := SplitObjectReference(providers, ObjectUrl(p, bucket, key));
            && r.bucket == Some(bucket) && r.hint == Some(p.key)
            && r.key == StripLeft(key, '/')
            && (r.key == key <==> !("/" <= key))
  {
    var p := providers[index];
    SplitPrinted(providers, p, bucket, key);
    ChooseProvider(providers, index, Pathname(p, bucket, key), Lower(HostOf(p, bucket)));
    OwnProvider(p, bucket, key);
    StripLeftShape(key, '/');
    StripLeftShape(StripLeft(key, '/'), '/');
    assert key != "" && key[0] == '/' <==> "/" <= key;
  }

  /** Neither endpoint equals the other or is a subdomain of it. */
  predicate Apart(a: Provider, b: Provider) {
    a.endpoint.Some? && b.endpoint.Some? ==>
      var x, y := Lower(a.endpoint.value.netloc), Lower(b.endpoint.value.netloc);
      x != y && !EndsWith(x, "." + y) && !EndsWith(y, "." + x)
  }

  lemma SuffixesNest(s: string, a: string, b: string)
    requires EndsWith(s, a) && EndsWith(s, b) && |a| <= |b|
    ensures EndsWith(b, a)
  {
  }

  /** With endpoints apart, only the provider itself claims the hosts printed for it. */
  lemma ApartEndpointsUnclaimed(providers: seq<Provider>, index: nat, bucket: string)
    requires index < |providers| && ValidProvider(providers[index]) && providers[index].endpoint.Some? && ValidBucket(bucket)
    requires forall i :: 0 <= i < |providers| && i != index ==> Apart(providers[i], providers[index])
    ensures Unclaimed(providers, index, Lower(HostOf(providers[index], bucket)))
  {
    var p := providers[index];
    var host, own := Lower(HostOf(p, bucket)), Lower(p.endpoint.value.netloc);
    LowerBucket(bucket);
    LowerConcat(bucket + ".", p.endpoint.value.netloc);
    LowerConcat(bucket, ".");
    assert !p.pathStyle ==> host == bucket + "." + own && host[|host| - |own| - 1..] == "." + own;
    forall i | 0 <= i < |providers| && i != index
      ensures !Claims(providers[i], host)
    {
      if providers[i].endpoint.Some? {
        OthersDoNotClaim(providers[i], p, host, own);
      }
    }
  }

  /** Two dotted suffixes of one host are nested. */
  lemma DottedSuffixes(host: string, a: string, b: string)
    requires EndsWith(host, "." + a) && EndsWith(host, "." + b)
    ensures a == b || EndsWith(a, "." + b) || EndsWith(b, "." + a)
  {
    assert ("." + a)[1..] == a && ("." + b)[1..] == b;
    if |a| < |b| {
      SuffixesNest(host, "." + a, "." + b);
      assert b[|b| - |a| - 1..] == ("." + b)[|b| - |a|..];
    } else if |b| < |a| {
      SuffixesNest(host, "." + b, "." + a);
      assert a[|a| - |b| - 1..] == ("." + a)[|a| - |b|..];
    } else {
      SuffixesNest(host, "." + a, "." + b);
    }
  }

  lemma OthersDoNotClaim(q: Provider, p: Provider, host: string, own: string)
    requires p.endpoint.Some? && q.endpoint.Some? && Apart(q, p) && own == Lower(p.endpoint.value.netloc)
    requires if p.pathStyle then host == own else EndsWith(host, "." + own)
    ensures !Claims(q, host)
  {
    var other := Lower(q.endpoint.value.netloc);
    if !p.pathStyle && EndsWith(host, "." + other) {
      DottedSuffixes(host, own, other);
    }
  }

  // ---------------------------------------------------------------- Amazon hosts

  /** The part of a printed Amazon host between the bucket and ".amazonaws.com". */
  function AwsMiddle(region: string): string {
    if region == "us-east-1" then ".s3" else ".s3." + region
  }

  lemma Regroup(a: string, b: string, c: string, d: string)
    ensures a + b + (c + d) == a + (b + c) + d
  {
  }

  lemma AwsHostParts(region: string, bucket: string)
    ensures bucket + "." + AwsHost(region) == bucket + AwsMiddle(region) + AWS_SUFFIX
  {
    if region == "us-east-1" {
      assert "s3.amazonaws.com" == "s3" + AWS_SUFFIX;
      assert "." + "s3" == ".s3";
      Regroup(bucket, ".", "s3", AWS_SUFFIX);
    } else {
      assert "s3." + region + ".amazonaws.com" == ("s3." + region) + AWS_SUFFIX;
      assert "." + ("s3." + region) == ".s3." + region;
      Regroup(bucket, ".", "s3." + region, AWS_SUFFIX);
    }
  }

  /** After an "s3" that ends at position `t` of the bucket, the pattern accepts the rest only if
      nothing of the bucket is left and the middle is a single label. */
  lemma TailInsideBucket(left: string, middle: string)
    requires |middle| > 1 && middle[0] == '.'
    ensures AwsTail(left + middle + AWS_SUFFIX) <==> left == "" && forall c | c in middle[1..] :: LabelChar(c)
  {
    var rest := left + middle + AWS_SUFFIX;
    assert rest[|rest| - |AWS_SUFFIX|..] == AWS_SUFFIX;
    var found := rest[..|rest| - |AWS_SUFFIX|];
    assert found == left + middle;
    assert !LabelChar('.');
    if left != "" {
      assert found[1..][|left| - 1] == '.';
      assert '.' in found[1..];
    } else {
      assert found == middle;
    }
  }

  lemma MiddleIsLabel(region: string)
    ensures (forall c | c in AwsMiddle(region)[1..] :: LabelChar(c)) <==> region == "us-east-1"
  {
    var middle := AwsMiddle(region);
    if region == "us-east-1" {
      assert middle[1..] == "s3";
    } else {
      assert middle[1..][2] == '.';
      assert !LabelChar('.');
    }
  }

  /** The bucket itself ends with an "s3" that stands alone. */
  predicate EndsWithS3(bucket: string) {
    bucket == "s3" || EndsWith(bucket, ".s3")
  }

  /** Where the bucket's own "s3" would begin. */
  function OwnS3(bucket: string): int {
    if bucket == "s3" then 0 else |bucket| - 3
  }

  lemma AnchoredMatch(bucket: string, region: string)
    requires bucket != ""
    ensures var host := bucket + AwsMiddle(region) + AWS_SUFFIX;
            "s3" <= host && AwsTail(host[2..]) <==> region == "us-east-1" && bucket == "s3"
  {
    var middle := AwsMiddle(region);
    var host := bucket + middle + AWS_SUFFIX;
    MiddleIsLabel(region);
    if |bucket| >= 2 {
      assert host[2..] == bucket[2..] + middle + AWS_SUFFIX;
      TailInsideBucket(bucket[2..], middle);
      assert host[..2] == bucket[..2];
      assert bucket[2..] == "" ==> bucket[..2] == bucket;
    } else {
      assert host[1] == '.' && "s3"[1] == '3';
    }
  }

  lemma DottedMatch(bucket: string, region: string, j: nat)
    requires j < |bucket|
    ensures var host := bucket + AwsMiddle(region) + AWS_SUFFIX;
            host[j..j + 3] == ".s3" && AwsTail(host[j + 3..]) <==> region == "us-east-1" && EndsWith(bucket, ".s3") && j == |bucket| - 3
  {
    var middle := AwsMiddle(region);
    var host := bucket + middle + AWS_SUFFIX;
    MiddleIsLabel(region);
    if j + 3 <= |bucket| {
      assert host[j + 3..] == bucket[j + 3..] + middle + AWS_SUFFIX;
      TailInsideBucket(bucket[j + 3..], middle);
      assert host[j..j + 3] == bucket[j..j + 3];
      assert bucket[j + 3..] == "" ==> bucket[j..] == bucket[j..j + 3];
    } else {
      assert host[|bucket|] == '.' && host[j..j + 3][|bucket| - j] == '.';
      assert ".s3"[1] == 's' && ".s3"[2] == '3';
    }
  }

  /** Before the printed "s3" the pattern matches only at a trailing "s3" of the bucket, and only
      when no region follows. */
  lemma MatchBefore(bucket: string, region: string, j: nat)
    requires ValidBucket(bucket) && j < |bucket|
    ensures AwsMatchesAt(bucket + AwsMiddle(region) + AWS_SUFFIX, j) <==>
            region == "us-east-1" && EndsWithS3(bucket) && j == OwnS3(bucket)
  {
    AnchoredMatch(bucket, region);
    DottedMatch(bucket, region, j);
    assert EndsWith(bucket, ".s3") ==> |bucket| >= 3;
    assert bucket == "s3" ==> |bucket| == 2;
  }

  lemma MatchAtEnd(bucket: string, region: string)
    requires ValidBucket(bucket) && region != "" && forall c | c in region :: LabelChar(c)
    ensures AwsMatchesAt(bucket + AwsMiddle(region) + AWS_SUFFIX, |bucket|)
  {
  }

  lemma {:induction false} SearchFinds(i: nat, end: nat, test: nat -> bool, n: nat)
    requires i <= n <= end && test(n) && forall j: nat :: i <= j < n ==> !test(j)
    ensures SearchFrom(i, end, test) == Some(n)
    decreases n - i
  {
    if i < n {
      SearchFinds(i + 1, end, test, n);
    }
  }

  /** The leftmost match on a printed Amazon host. */
  lemma AwsFound(bucket: string, region: string)
    requires ValidBucket(bucket) && region != "" && forall c | c in region :: LabelChar(c)
    ensures AwsSearch(bucket + AwsMiddle(region) + AWS_SUFFIX)
         == Some(if region == "us-east-1" && EndsWithS3(bucket) then OwnS3(bucket) else |bucket|)
  {
    var host := bucket + AwsMiddle(region) + AWS_SUFFIX;
    MatchAtEnd(bucket, region);
    var n: nat := if region == "us-east-1" && EndsWithS3(bucket) then OwnS3(bucket) else |bucket|;
    forall j: nat | j < n
      ensures !AwsMatcher(host)(j)
    {
      MatchBefore(bucket, region, j);
    }
    if n < |bucket| {
      MatchBefore(bucket, region, n);
    }
    SearchFinds(0, |host|, AwsMatcher(host), n);
  }

  /** The bucket names that survive on Amazon hosts. */
  predicate AwsReadable(region: string, bucket: string)
    requires bucket != ""
  {
    bucket[|bucket| - 1] != '.' && (region == "us-east-1" ==> !EndsWithS3(bucket))
  }

  lemma LowerAwsHost(bucket: string, region: string)
    requires ValidBucket(bucket) && forall c | c in region :: LabelChar(c)
    ensures Lower(bucket + AwsMiddle(region) + AWS_SUFFIX) == bucket + AwsMiddle(region) + AWS_SUFFIX
  {
    var host := bucket + AwsMiddle(region) + AWS_SUFFIX;
    assert forall c | c in host :: LowerChar(c) == c by {
      assert forall c | c in AWS_SUFFIX :: LowerChar(c) == c;
      assert forall c | c in AwsMiddle(region) :: LowerChar(c) == c;
    }
    assert forall i :: 0 <= i < |host| ==> host[i] in host;
  }

  /** What TryAws answers when its match begins before the end of the bucket or the bucket ends
      with a dot: never the bucket and key that were printed. */
  lemma ShorterPrefixMisreads(bucket: string, key: string, host: string, n: nat)
    requires ValidBucket(bucket) && n <= |host| && AwsSearch(host) == Some(n)
    requires |StripRight(host[..n], '.')| < |bucket|
    ensures match TryAws(StripLeft(key, '/'), host)
            case Some(r) => r.bucket != Some(bucket) || StripLeft(r.key, '/') != key
            case None => true
  {
    var pathname := StripLeft(key, '/');
    StripLeftShape(key, '/');
    var (first, found, rest) := Partition(pathname, '/');
    StripLeftShape(rest, '/');
  }

  /** For an unclaimed Amazon URL the splitter's answer is that of the Amazon pattern. */
  lemma AwsSplit(providers: seq<Provider>, p: Provider, bucket: string, key: string)
    requires ValidProvider(p) && p.endpoint.None? && ValidBucket(bucket) && IsKey(key)
    requires Unclaimed(providers, -1, Lower(HostOf(p, bucket)))
    ensures SplitObjectReference(providers, ObjectUrl(p, bucket, key))
         == match TryAws(StripLeft(key, '/'), bucket + AwsMiddle(p.region) + AWS_SUFFIX)
            case Some(r) => r.(key := StripLeft(r.key, '/'))
            case None => Reference(None, StripLeft(key, '/'), None)
  {
    SplitPrinted(providers, p, bucket, key);
    AwsHostParts(p.region, bucket);
    LowerAwsHost(bucket, p.region);
    NobodyClaims(providers, StripLeft(key, '/'), bucket + AwsMiddle(p.region) + AWS_SUFFIX);
  }

  /** Amazon URLs: the splitter returns what was printed if and only if the key has no leading
      slash, the bucket does not end with a dot and, in the region without a region label, the
      bucket does not end with an "s3" of its own. */
  lemma AwsUrlRoundTrip(providers: seq<Provider>, p: Provider, bucket: string, key: string)
    requires ValidProvider(p) && p.endpoint.None? && ValidBucket(bucket) && IsKey(key)
    requires Unclaimed(providers, -1, Lower(HostOf(p, bucket)))
    ensures SplitObjectReference(providers, ObjectUrl(p, bucket, key)) == Reference(Some(bucket), key, Some("aws"))
            <==> AwsReadable(p.region, bucket) && !("/" <= key)
  {
    var host := bucket + AwsMiddle(p.region) + AWS_SUFFIX;
    AwsSplit(providers, p, bucket, key);
    AwsFound(bucket, p.region);
    AwsAnswer(bucket, key, host, AwsSearch(host).value, AwsReadable(p.region, bucket));
  }

  /** What the pattern's first match makes of bucket and key. */
  lemma AwsAnswer(bucket: string, key: string, host: string, n: nat, readable: bool)
    requires ValidBucket(bucket) && bucket <= host && n <= |bucket| && AwsSearch(host) == Some(n)
    requires readable <==> n == |bucket| && bucket[|bucket| - 1] != '.'
    ensures var answer := match TryAws(StripLeft(key, '/'), host)
                          case Some(r) => r.(key := StripLeft(r.key, '/'))
                          case None => Reference(None, StripLeft(key, '/'), None);
            answer == Reference(Some(bucket), key, Some("aws")) <==> readable && !("/" <= key)
  {
    if readable {
      ReadableAnswer(bucket, key, host);
    } else {
      StripRightShape(host[..n], '.');
      assert n == |bucket| ==> host[..n] == bucket;
      ShorterPrefixMisreads(bucket, key, host, n);
    }
  }

  lemma ReadableAnswer(bucket: string, key: string, host: string)
    requires ValidBucket(bucket) && bucket <= host && AwsSearch(host) == Some(|bucket|) && bucket[|bucket| - 1] != '.'
    ensures TryAws(StripLeft(key, '/'), host) == Some(Reference(Some(bucket), StripLeft(key, '/'), Some("aws")))
    ensures StripLeft(StripLeft(key, '/'), '/') == key <==> !("/" <= key)
  {
    assert host[..|bucket|] == bucket;
    StripRightShape(bucket, '.');
    StripLeftShape(key, '/');
    StripLeftShape(StripLeft(key, '/'), '/');
    assert key != "" && key[0] == '/' <==> "/" <= key;
  }

  /** For instance a bucket of that kind without a region label is misread. */
  lemma AwsMisreading()
    ensures var p := Provider("aws", None, "us-east-1", false);
            SplitObjectReference([], ObjectUrl(p, "school.s3", "photo")) != Reference(Some("school.s3"), "photo", Some("aws"))
  {
    var p := Provider("aws", None, "us-east-1", false);
    assert "school.s3"[6..] == ".s3";
    AwsUrlRoundTrip([], p, "school.s3", "photo");
  }
}

/** Whose host a URL names, and which bucket and key it means there. */
module UrlHosts {
  import opened ArchiveKeys
  import opened Basics
  import opened PyStrings
  import opened PercentCoding
  import opened Urls
  import opened UrlRoundTrip
  import opened UrlForms

  // ---------------------------------------------------------------- configured providers

  /** The first segment of a path and what follows it. */
  predicate FirstSegment(pathname: string, bucket: string, key: string) {
    bucket != "" && '/' !in bucket && ((pathname == bucket && key == "") || pathname == bucket + "/" + key)
  }

  /** At this provider the URL means the object: on the endpoint's own host the first segment of the path is the
      bucket, on a host below it what stands before it is, and the whole path is the key. */
  predicate Means(p: Provider, pathname: string, host: string, bucket: string, key: string) {
    p.endpoint.Some? && p.endpoint.value.netloc != "" &&
    if p.pathStyle then host == Lower(p.endpoint.value.netloc) && FirstSegment(pathname, bucket, key)
    else bucket != "" && host == bucket + "." + Lower(p.endpoint.value.netloc) && key == pathname
  }

  ghost predicate MeansNothing(p: Provider, pathname: string, host: string) {
    forall bucket, key :: !Means(p, pathname, host, bucket, key)
  }

  lemma SegmentExactly(pathname: string, bucket: string, key: string)
    ensures var (head, _, tail) := Partition(pathname, '/');
            FirstSegment(pathname, bucket, key) <==> head != "" && head == bucket && tail == key
  {
    var (head, found, tail) := Partition(pathname, '/');
    SegmentIs(pathname);
    if FirstSegment(pathname, bucket, key) {
      if pathname == bucket + "/" + key {
        assert bucket + "/" + key == bucket + ['/'] + key;
        PartitionJoined(bucket, '/', key);
      } else {
        PartitionWhole(bucket);
      }
    }
  }

  lemma PartitionWhole(s: string)
    requires '/' !in s
    ensures Partition(s, '/') == (s, false, "")
  {
  }

  lemma SegmentIs(pathname: string)
    ensures var (head, _, tail) := Partition(pathname, '/'); head != "" ==> FirstSegment(pathname, head, tail)
  {
    var (head, found, tail) := Partition(pathname, '/');
    if found {
      assert pathname == head + "/" + tail;
    }
  }

  lemma HostExactly(host: string, endpoint: string, bucket: string)
    ensures host == bucket + "." + endpoint
       <==> EndsWith(host, "." + endpoint) && bucket == host[..|host| - |endpoint| - 1]
  {
    if host == bucket + "." + endpoint {
      assert host == bucket + ("." + endpoint);
    }
    if EndsWith(host, "." + endpoint) && bucket == host[..|host| - |endpoint| - 1] {
      assert host == bucket + ("." + endpoint);
    }
  }

  /** One turn of the loop over the providers. */
  lemma TryExactly(p: Provider, pathname: string, host: string, bucket: string, key: string)
    ensures TryProvider(p, pathname, host) == Some(Reference(Some(bucket), key, Some(p.key))) <==> Means(p, pathname, host, bucket, key)
  {
    if p.endpoint.Some? {
      SegmentExactly(pathname, bucket, key);
      HostExactly(host, Lower(p.endpoint.value.netloc), bucket);
    }
  }

  lemma TryShape(p: Provider, pathname: string, host: string)
    ensures var r := TryProvider(p, pathname, host);
            r.Some? ==> r.value.bucket.Some? && r == Some(Reference(Some(r.value.bucket.value), r.value.key, Some(p.key)))
  {
  }

  lemma TryNothing(p: Provider, pathname: string, host: string)
    requires MeansNothing(p, pathname, host)
    ensures TryProvider(p, pathname, host) == None
  {
    TryShape(p, pathname, host);
    var r := TryProvider(p, pathname, host);
    if r.Some? {
      TryExactly(p, pathname, host, r.value.bucket.value, r.value.key);
    }
  }

  /** The first provider that the URL means something at is taken. */
  lemma {:induction false} FirstProvider(providers: seq<Provider>, pathname: string, host: string, i: nat, bucket: string, key: string)
    requires i < |providers| && Means(providers[i], pathname, host, bucket, key)
    requires forall j :: 0 <= j < i ==> MeansNothing(providers[j], pathname, host)
    ensures TryProviders(providers, pathname, host) == Some(Reference(Some(bucket), key, Some(providers[i].key)))
  {
    if i == 0 {
      TryExactly(providers[0], pathname, host, bucket, key);
    } else {
      TryNothing(providers[0], pathname, host);
      FirstProvider(providers[1..], pathname, host, i - 1, bucket, key);
    }
  }

  lemma {:induction false} NoProvider(providers: seq<Provider>, pathname: string, host: string)
    requires forall j :: 0 <= j < |providers| ==> MeansNothing(providers[j], pathname, host)
    ensures TryProviders(providers, pathname, host) == None
  {
    if providers != [] {
      TryNothing(providers[0], pathname, host);
      NoProvider(providers[1..], pathname, host);
    }
  }

  // ---------------------------------------------------------------- Amazon

  /** Nothing, or one label with a dot or a hyphen before it. */
  predicate Label(middle: string) {
    middle == "" || (|middle| > 1 && middle[0] in ".-" && forall i :: 1 <= i < |middle| ==>
      'a' <= middle[i] <= 'z' || '0' <= middle[i] <= '9' || middle[i] == '-')
  }

  /** The label, if any, and the domain of Amazon. */
  ghost predicate AmazonTail(rest: string) {
    exists middle :: Label(middle) && rest == middle + ".amazonaws.com"
  }

  /** From place `i` on the host is "s3", perhaps a label, and the domain of Amazon; before it is nothing, or the
      match begins with a dot. */
  ghost predicate AmazonAt(host: string, i: int) {
    0 <= i <= |host| &&
    exists rest :: AmazonTail(rest) && ((i == 0 && host == "s3" + rest) || host[i..] == ".s3" + rest)
  }

  lemma LabelTail(middle: string)
    requires Label(middle)
    ensures AwsTail(middle + ".amazonaws.com")
  {
    var rest := middle + ".amazonaws.com";
    assert rest[..|rest| - |AWS_SUFFIX|] == middle;
    if middle != "" {
      forall c | c in middle[1..]
        ensures LabelChar(c)
      {
        var i :| 0 <= i < |middle[1..]| && middle[1..][i] == c;
        assert middle[i + 1] == c;
      }
    }
  }

  lemma TailLabel(rest: string)
    requires AwsTail(rest)
    ensures AmazonTail(rest)
  {
    var middle := rest[..|rest| - |AWS_SUFFIX|];
    forall i | 1 <= i < |middle|
      ensures LabelChar(middle[i])
    {
      assert middle[i] == middle[1..][i - 1] && middle[i] in middle[1..];
    }
    assert Label(middle) && rest == middle + ".amazonaws.com";
  }

  lemma TailExactly(rest: string)
    ensures AwsTail(rest) <==> AmazonTail(rest)
  {
    if AwsTail(rest) {
      TailLabel(rest);
    }
    if middle :| Label(middle) && rest == middle + ".amazonaws.com" {
      LabelTail(middle);
    }
  }

  lemma HeadThenTail(s: string, head: string, rest: string)
    ensures s == head + rest <==> head <= s && s[|head|..] == rest
  {
    if head <= s && s[|head|..] == rest {
      assert s == s[..|head|] + s[|head|..];
    }
  }

  lemma HeadedExactly(s: string, head: string)
    ensures (exists rest :: AmazonTail(rest) && s == head + rest) <==> head <= s && AwsTail(s[|head|..])
  {
    if head <= s {
      TailExactly(s[|head|..]);
      HeadThenTail(s, head, s[|head|..]);
    }
  }

  lemma SliceStarts(host: string, i: nat)
    requires i <= |host|
    ensures ".s3" <= host[i..] <==> i + 3 <= |host| && host[i..i + 3] == ".s3"
    ensures i + 3 <= |host| ==> host[i..][3..] == host[i + 3..]
  {
    if i + 3 <= |host| {
      assert host[i..][..3] == host[i..i + 3];
    }
  }

  lemma AmazonExactly(host: string, i: nat)
    requires i <= |host|
    ensures AwsMatchesAt(host, i) <==> AmazonAt(host, i)
  {
    SliceStarts(host, i);
    HeadedExactly(host, "s3");
    HeadedExactly(host[i..], ".s3");
    AmazonForms(host, i);
  }

  lemma AmazonForms(host: string, i: nat)
    requires i <= |host|
    ensures AmazonAt(host, i)
       <==> || (i == 0 && exists rest :: AmazonTail(rest) && host == "s3" + rest)
            || (exists rest :: AmazonTail(rest) && host[i..] == ".s3" + rest)
  {
  }

  predicate AllDots(s: string) {
    forall i :: 0 <= i < |s| ==> s[i] == '.'
  }

  lemma {:induction false} StripDots(prefix: string, dots: string)
    requires AllDots(dots) && (prefix == "" || prefix[|prefix| - 1] != '.')
    ensures StripRight(prefix + dots, '.') == prefix
  {
    if dots == "" {
      assert prefix + dots == prefix;
    } else {
      var n := |prefix + dots| - 1;
      assert (prefix + dots)[..n] == prefix + dots[..|dots| - 1] && (prefix + dots)[n] == dots[|dots| - 1];
      StripDots(prefix, dots[..|dots| - 1]);
    }
  }

  lemma AmazonFound(host: string, i: nat)
    requires AmazonAt(host, i) && forall j :: 0 <= j < i ==> !AmazonAt(host, j)
    ensures AwsSearch(host) == Some(i)
  {
    forall j: nat | j <= i
      ensures AwsMatcher(host)(j) <==> AmazonAt(host, j)
    {
      AmazonExactly(host, j);
    }
    SearchFinds(0, |host|, AwsMatcher(host), i);
  }

  lemma AmazonMissed(host: string)
    requires forall j :: !AmazonAt(host, j)
    ensures AwsSearch(host) == None
  {
    forall j: nat | j <= |host|
      ensures !AwsMatcher(host)(j)
    {
      AmazonExactly(host, j);
    }
    NoneFound(0, |host|, AwsMatcher(host));
  }

  /** On Amazon: what stands before the first match, without the dots, is the bucket, and the whole path the key. */
  lemma AmazonBucketHost(pathname: string, host: string, i: nat, bucket: string, dots: string)
    requires AmazonAt(host, i) && forall j :: 0 <= j < i ==> !AmazonAt(host, j)
    requires host[..i] == bucket + dots && AllDots(dots) && bucket != "" && bucket[|bucket| - 1] != '.'
    ensures TryAws(pathname, host) == Some(Reference(Some(bucket), pathname, Some("aws")))
  {
    AmazonFound(host, i);
    StripDots(bucket, dots);
  }

  /** With nothing before it but dots, the first segment of the path is the bucket; without one there is none. */
  lemma AmazonPath(pathname: string, host: string, i: nat)
    requires AmazonAt(host, i) && (forall j :: 0 <= j < i ==> !AmazonAt(host, j)) && AllDots(host[..i])
    ensures forall bucket, key :: FirstSegment(pathname, bucket, key) ==>
              TryAws(pathname, host) == Some(Reference(Some(bucket), key, Some("aws")))
    ensures (forall bucket, key :: !FirstSegment(pathname, bucket, key)) ==> TryAws(pathname, host) == None
  {
    AmazonFound(host, i);
    StripDots("", host[..i]);
    assert "" + host[..i] == host[..i];
    SegmentIs(pathname);
    forall bucket, key | FirstSegment(pathname, bucket, key)
      ensures TryAws(pathname, host) == Some(Reference(Some(bucket), key, Some("aws")))
    {
      SegmentExactly(pathname, bucket, key);
    }
  }

  // ---------------------------------------------------------------- whole URLs

  /** A URL as it may stand in a column: blanks around it, slashes before its encoded key, and parameters, a
      query or a fragment after it. */
  datatype UrlText = UrlText(pre: string, scheme: string, host: string, slashes: string, key: string,
                             params: string, tail: string, post: string)
  {
    ghost predicate Valid() {
      && AllBlank(pre) && AllBlank(post) && (scheme == "http" || scheme == "https")
      && (forall c | c in host :: NetChar(c)) && IsParams(params) && IsTail(tail)
      && AllSlashes(slashes) && slashes != "" && IsKey(key) && (key == "" || key[0] != '/')
    }

    function Text(): string
      requires IsKey(key)
    {
      pre + (scheme + "://" + (host + ((slashes + Quote(key) + params) + tail))) + post
    }
  }

  /** A configured provider: the first at which the URL means an object gives bucket, key and hint. */
  lemma ProviderUrl(providers: seq<Provider>, u: UrlText, i: nat, bucket: string, key: string)
    requires u.Valid() && i < |providers| && Means(providers[i], u.key, Lower(u.host), bucket, key)
    requires forall j :: 0 <= j < i ==> MeansNothing(providers[j], u.key, Lower(u.host))
    ensures SplitObjectReference(providers, u.Text()) == Reference(Some(bucket), StripLeft(key, '/'), Some(providers[i].key))
  {
    AnyUrl(providers, u.pre, u.scheme, u.host, u.slashes, u.key, u.params, u.tail, u.post);
    FirstProvider(providers, u.key, Lower(u.host), i, bucket, key);
  }

  /** Otherwise Amazon: the bucket in front of its host. */
  lemma AmazonHostUrl(providers: seq<Provider>, u: UrlText, i: nat, bucket: string, dots: string)
    requires u.Valid() && forall j :: 0 <= j < |providers| ==> MeansNothing(providers[j], u.key, Lower(u.host))
    requires AmazonAt(Lower(u.host), i) && forall j :: 0 <= j < i ==> !AmazonAt(Lower(u.host), j)
    requires Lower(u.host)[..i] == bucket + dots && AllDots(dots) && bucket != "" && bucket[|bucket| - 1] != '.'
    ensures SplitObjectReference(providers, u.Text()) == Reference(Some(bucket), u.key, Some("aws"))
  {
    AnyUrl(providers, u.pre, u.scheme, u.host, u.slashes, u.key, u.params, u.tail, u.post);
    NoProvider(providers, u.key, Lower(u.host));
    AmazonBucketHost(u.key, Lower(u.host), i, bucket, dots);
    StripSlashes("", u.key);
    assert "" + u.key == u.key;
  }

  /** Or the bucket as the first segment of the path. */
  lemma AmazonPathUrl(providers: seq<Provider>, u: UrlText, i: nat, bucket: string, key: string)
    requires u.Valid() && forall j :: 0 <= j < |providers| ==> MeansNothing(providers[j], u.key, Lower(u.host))
    requires AmazonAt(Lower(u.host), i) && (forall j :: 0 <= j < i ==> !AmazonAt(Lower(u.host), j)) && AllDots(Lower(u.host)[..i])
    requires FirstSegment(u.key, bucket, key)
    ensures SplitObjectReference(providers, u.Text()) == Reference(Some(bucket), StripLeft(key, '/'), Some("aws"))
  {
    AnyUrl(providers, u.pre, u.scheme, u.host, u.slashes, u.key, u.params, u.tail, u.post);
    NoProvider(providers, u.key, Lower(u.host));
    AmazonPath(u.key, Lower(u.host), i);
  }

  /** And otherwise nobody: no bucket, no hint, and the decoded path as the key. */
  lemma NobodysUrl(providers: seq<Provider>, u: UrlText)
    requires u.Valid() && forall j :: 0 <= j < |providers| ==> MeansNothing(providers[j], u.key, Lower(u.host))
    requires (forall i :: !AmazonAt(Lower(u.host), i)) || (u.key == "" && exists i :: FirstAmazonPath(Lower(u.host), i))
    ensures SplitObjectReference(providers, u.Text()) == Reference(None, u.key, None)
  {
    AnyUrl(providers, u.pre, u.scheme, u.host, u.slashes, u.key, u.params, u.tail, u.post);
    NoProvider(providers, u.key, Lower(u.host));
    if forall i :: !AmazonAt(Lower(u.host), i) {
      AmazonMissed(Lower(u.host));
    } else {
      var i :| FirstAmazonPath(Lower(u.host), i);
      AmazonPath(u.key, Lower(u.host), i);
    }
  }

  /** Amazon's host with nothing in front of it. */
  ghost predicate FirstAmazonPath(host: string, i: int) {
    AmazonAt(host, i) && (forall j :: 0 <= j < i ==> !AmazonAt(host, j)) && AllDots(host[..i])
  }
}

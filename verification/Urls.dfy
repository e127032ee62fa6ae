/** Building object URLs and splitting references back into (bucket, key, provider). */
module Urls {
  import opened ArchiveKeys
  import opened Basics
  import opened PyStrings
  import opened PercentCoding

  /** The parts of an endpoint URL that the code reads. */
  datatype Endpoint = Endpoint(scheme: string, netloc: string)

  datatype Provider = Provider(key: string, endpoint: Option<Endpoint>, region: string, pathStyle: bool)

  /** `(bucket, key, provider_hint)`. */
  datatype Reference = Reference(bucket: Option<string>, key: string, hint: Option<string>)

  const AWS_SUFFIX := ".amazonaws.com"

  // ---------------------------------------------------------------- the printer

  function AwsHost(region: string): string {
    if region == "us-east-1" then "s3.amazonaws.com" else "s3." + region + ".amazonaws.com"
  }

  /** The authority part of a bucket's URL. */
  function HostOf(p: Provider, bucket: string): string {
    match p.endpoint
    case Some(e) => if p.pathStyle then e.netloc else bucket + "." + e.netloc
    case None => bucket + "." + AwsHost(p.region)
  }

  function BuildBucketUrl(provider: Option<Provider>, bucket: string): string {
    match provider
    case None => bucket
    case Some(p) =>
      match p.endpoint
      case Some(e) =>
        if p.pathStyle then e.scheme + "://" + e.netloc + "/" + bucket
        else e.scheme + "://" + bucket + "." + e.netloc
      case None => "https://" + bucket + "." + AwsHost(p.region)
  }

  /** A bucket's URL with a percent-encoded key appended. */
  function ObjectUrl(p: Provider, bucket: string, key: string): string
    requires forall c | c in key :: IsByte(c)
  {
    BuildBucketUrl(Some(p), bucket) + "/" + Quote(key)
  }

  // ---------------------------------------------------------------- urlparse

  predicate StartsWithScheme(s: string) {
    "http://" <= Lower(s) || "https://" <= Lower(s)
  }

  /** Where the authority of such a URL begins. */
  function AuthorityStart(s: string): (i: nat)
    requires StartsWithScheme(s)
    ensures i <= |s|
  {
    if "http://" <= Lower(s) then 7 else 8
  }

  predicate EndsAuthority(c: char) {
    c == '/' || c == '?' || c == '#'
  }

  /** urllib drops tabs and line breaks anywhere in a URL. */
  function Clean(s: string): string {
    Filter(s, c => c != '\t' && c != '\r' && c != '\n')
  }

  /** The last path segment loses its parameters. */
  function DropParams(path: string): string {
    var slash := LastSlash(path);
    var i := Find(path, slash, c => c == ';');
    path[..i]
  }

  /** The position of the last slash, or 0. */
  function LastSlash(path: string): (i: nat)
    ensures i <= |path|
  {
    if path == "" then 0
    else if path[|path| - 1] == '/' then |path| - 1
    else LastSlash(path[..|path| - 1])
  }

  /** netloc and path of a cleaned http or https URL; None where urlparse raises. */
  function UrlParse(s: string): Option<(string, string)>
    requires StartsWithScheme(s)
  {
    var start := AuthorityStart(s);
    var end := Find(s, start, c => EndsAuthority(c));
    var netloc := s[start..end];
    if ('[' in netloc) != (']' in netloc) then None
    else
      var rest := s[end..];
      var fragment := Find(rest, 0, c => c == '#');
      var query := Find(rest[..fragment], 0, c => c == '?');
      Some((netloc, DropParams(rest[..query])))
  }

  // ---------------------------------------------------------------- the splitter

  /** One turn of the loop over the configured providers. */
  function TryProvider(p: Provider, pathname: string, host: string): Option<Reference> {
    if p.endpoint.None? || p.endpoint.value.netloc == "" then None
    else
      var endpointHost := Lower(p.endpoint.value.netloc);
      if p.pathStyle && host == endpointHost then
        var (bucket, _, rest) := Partition(pathname, '/');
        if bucket != "" then Some(Reference(Some(bucket), rest, Some(p.key))) else None
      else if !p.pathStyle && EndsWith(host, "." + endpointHost) then
        var bucket := host[..|host| - |endpointHost| - 1];
        if bucket != "" then Some(Reference(Some(bucket), pathname, Some(p.key))) else None
      else None
  }

  function TryProviders(providers: seq<Provider>, pathname: string, host: string): Option<Reference> {
    if providers == [] then None
    else
      var first := TryProvider(providers[0], pathname, host);
      if first.Some? then first else TryProviders(providers[1..], pathname, host)
  }

  predicate LabelChar(c: char) {
    'a' <= c <= 'z' || '0' <= c <= '9' || c == '-'
  }

  /** What the AWS pattern accepts after its "s3": nothing or one label with its separator, then
      ".amazonaws.com" at the end. */
  predicate AwsTail(rest: string) {
    EndsWith(rest, AWS_SUFFIX) &&
    var middle := rest[..|rest| - |AWS_SUFFIX|];
    middle == "" || (|middle| > 1 && (middle[0] == '.' || middle[0] == '-') && forall c | c in middle[1..] :: LabelChar(c))
  }

  /** The AWS pattern matches at position `i`. */
  predicate AwsMatchesAt(host: string, i: nat) {
    || (i == 0 && "s3" <= host && AwsTail(host[2..]))
    || (i + 3 <= |host| && host[i..i + 3] == ".s3" && AwsTail(host[i + 3..]))
  }

  /** The first position from `i` to `end` that satisfies a test. */
  function SearchFrom(i: nat, end: nat, test: nat -> bool): (r: Option<nat>)
    requires i <= end
    ensures r.Some? ==> i <= r.value <= end
    decreases end - i
  {
    if test(i) then Some(i)
    else if i == end then None
    else SearchFrom(i + 1, end, test)
  }

  function AwsMatcher(host: string): nat -> bool {
    (i: nat) => AwsMatchesAt(host, i)
  }

  /** Where the leftmost match of the AWS pattern starts. */
  function AwsSearch(host: string): (r: Option<nat>)
    ensures r.Some? ==> r.value <= |host|
  {
    SearchFrom(0, |host|, AwsMatcher(host))
  }

  function TryAws(pathname: string, host: string): Option<Reference> {
    var found := AwsSearch(host);
    if found.None? then None
    else
      var prefix := StripRight(host[..found.value], '.');
      if prefix != "" then Some(Reference(Some(prefix), pathname, Some("aws")))
      else
        var (bucket, _, rest) := Partition(pathname, '/');
        if bucket != "" then Some(Reference(Some(bucket), rest, Some("aws"))) else None
  }

  function SplitS3StyleUrl(providers: seq<Provider>, pathname: string, netloc: string): Option<Reference> {
    var host := Lower(netloc);
    var configured := TryProviders(providers, pathname, host);
    if configured.Some? then configured else TryAws(pathname, host)
  }

  /** Cleaning does not reach into the scheme. */
  lemma CleanKeepsScheme(s: string)
    requires StartsWithScheme(s)
    ensures StartsWithScheme(Clean(s))
  {
    var n := AuthorityStart(s);
    var keep := (c: char) => c != '\t' && c != '\r' && c != '\n';
    forall i | 0 <= i < n
      ensures keep(s[i])
    {
      assert Lower(s)[i] == LowerChar(s[i]);
    }
    FilterPrefix(s, keep, n);
    var c := Clean(s);
    forall i | 0 <= i < n
      ensures Lower(c)[i] == Lower(s)[i]
    {
      assert c[..n][i] == s[..n][i];
    }
    assert Lower(c)[..n] == Lower(s)[..n];
    assert n == 7 ==> Lower(c)[..7] == "http://";
    assert n == 8 ==> Lower(c)[..8] == "https://";
  }

  lemma {:induction false} FilterPrefix(s: string, keep: char -> bool, n: nat)
    requires n <= |s| && forall i :: 0 <= i < n ==> keep(s[i])
    ensures n <= |Filter(s, keep)| && Filter(s, keep)[..n] == s[..n]
  {
    if n > 0 {
      FilterPrefix(s[1..], keep, n - 1);
    }
  }

  function SplitObjectReference(providers: seq<Provider>, value: string): Reference {
    var trimmed := Trim(value);
    var cleaned := Clean(trimmed);
    if !StartsWithScheme(trimmed) then Reference(None, StripLeft(trimmed, '/'), None)
    else
      CleanKeepsScheme(trimmed);
      match UrlParse(cleaned)
      case None => Reference(None, StripLeft(trimmed, '/'), None)
      case Some((netloc, path)) =>
        var pathname := StripLeft(Unquote(path), '/');
        match SplitS3StyleUrl(providers, pathname, netloc)
        case Some(r) => r.(key := StripLeft(r.key, '/'))
        case None => Reference(None, pathname, None)
  }
}

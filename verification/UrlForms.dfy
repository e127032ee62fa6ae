/** Splitting references that no program printed: bare paths, and URLs of hosts nobody claims. */
module UrlForms {
  import opened ArchiveKeys
  import opened Basics
  import opened PyStrings
  import opened PercentCoding
  import opened Urls
  import opened UrlRoundTrip

  predicate AllSlashes(s: string) {
    forall i :: 0 <= i < |s| ==> s[i] == '/'
  }

  lemma {:induction false} StripSlashes(slashes: string, s: string)
    requires AllSlashes(slashes) && (s == "" || s[0] != '/')
    ensures StripLeft(slashes + s, '/') == s
  {
    if slashes == "" {
      assert slashes + s == s;
    } else {
      assert (slashes + s)[1..] == slashes[1..] + s && (slashes + s)[0] == '/';
      StripSlashes(slashes[1..], s);
    }
  }

  // ---------------------------------------------------------------- bare paths

  /** A value that is no URL names a key in no particular bucket: whatever blanks surround it and however
      many slashes lead it, the key is what follows them. */
  lemma BarePath(providers: seq<Provider>, pre: string, slashes: string, key: string, post: string)
    requires AllBlank(pre) && AllBlank(post) && AllSlashes(slashes)
    requires key == "" || key[0] != '/'
    requires Bounded(slashes + key) && !StartsWithScheme(slashes + key)
    ensures SplitObjectReference(providers, pre + (slashes + key) + post) == Reference(None, key, None)
  {
    TrimBlanks(pre, slashes + key, post);
    StripSlashes(slashes, key);
  }

  /** A leading slash is no scheme. */
  lemma SlashedPath(providers: seq<Provider>, pre: string, slashes: string, key: string, post: string)
    requires AllBlank(pre) && AllBlank(post) && AllSlashes(slashes) && slashes != ""
    requires (key == "" || key[0] != '/') && (key == "" || !IsSpace(key[|key| - 1]))
    ensures SplitObjectReference(providers, pre + (slashes + key) + post) == Reference(None, key, None)
  {
    var s := slashes + key;
    assert s[0] == '/' && s[|s| - 1] == if key == "" then slashes[|slashes| - 1] else key[|key| - 1];
    assert Lower(s)[0] == '/';
    BarePath(providers, pre, slashes, key, post);
  }

  // ---------------------------------------------------------------- URLs of other hosts

  /** A query or a fragment, or nothing. */
  predicate IsTail(tail: string) {
    (tail == "" || tail[0] == '?' || tail[0] == '#') && forall i :: 0 <= i < |tail| ==> tail[i] as int > 32
  }

  /** Neither a query nor a fragment starts here. */
  predicate Plain(path: string) {
    forall c | c in path :: c != '?' && c != '#' && c as int > 32
  }

  /** Parameters of the last path segment, or nothing. */
  predicate IsParams(params: string) {
    (params == "" || params[0] == ';') && Plain(params) && '/' !in params
  }

  lemma TailIgnored(path: string, tail: string)
    requires Plain(path) && IsTail(tail)
    ensures var rest := path + tail;
            var fragment := Find(rest, 0, c => c == '#');
            var query := Find(rest[..fragment], 0, c => c == '?');
            rest[..query] == path
  {
    var rest := path + tail;
    var fragment := Find(rest, 0, c => c == '#');
    var query := Find(rest[..fragment], 0, c => c == '?');
    assert forall k :: 0 <= k < |path| ==> rest[k] == path[k] && path[k] in path;
    if tail != "" {
      assert rest[|path|] == tail[0];
    }
    assert fragment >= |path|;
    assert query >= |path|;
    assert query == |path|;
  }

  lemma AuthorityOf(url: string, start: nat, host: string, rest: string)
    requires start <= |url| && url[start..] == host + rest
    requires (forall c | c in host :: NetChar(c)) && (rest != "" ==> EndsAuthority(rest[0]))
    ensures var end := Find(url, start, c => EndsAuthority(c));
            end == start + |host| && url[start..end] == host && url[end..] == rest
  {
    var end := Find(url, start, c => EndsAuthority(c));
    assert forall k :: start <= k < |url| ==> url[k] == (host + rest)[k - start];
    assert forall k :: start <= k < start + |host| ==> url[k] == host[k - start] && host[k - start] in host;
    if rest != "" {
      assert url[start + |host|] == rest[0];
    }
    assert end == start + |host|;
  }

  lemma {:induction false} LastSlashExtends(path: string, params: string)
    requires path != "" && path[0] == '/' && '/' !in params
    ensures LastSlash(path + params) == LastSlash(path)
  {
    if params == "" {
      assert path + params == path;
    } else {
      var n := |path + params| - 1;
      assert (path + params)[..n] == path + params[..|params| - 1] && (path + params)[n] == params[|params| - 1];
      LastSlashExtends(path, params[..|params| - 1]);
    }
  }

  /** The parameters of the last segment are no part of the path. */
  lemma ParamsDropped(path: string, params: string)
    requires path != "" && path[0] == '/' && ';' !in path && IsParams(params)
    ensures DropParams(path + params) == path
  {
    LastSlashExtends(path, params);
    var all := path + params;
    var i := Find(all, LastSlash(path), c => c == ';');
    assert forall k :: 0 <= k < |path| ==> all[k] == path[k] && path[k] in path;
    if params != "" {
      assert all[|path|] == ';';
    }
    assert i == |path|;
  }

  /** Host and path are read, a query and a fragment are dropped. */
  lemma ParseWithTail(scheme: string, host: string, path: string, tail: string)
    requires scheme == "http" || scheme == "https"
    requires (forall c | c in host :: NetChar(c)) && Plain(path)
    requires (path == "" || path[0] == '/') && IsTail(tail)
    ensures var url := scheme + "://" + (host + (path + tail));
            StartsWithScheme(url) && UrlParse(url) == Some((host, DropParams(path)))
  {
    var url := scheme + "://" + (host + (path + tail));
    var rest := path + tail;
    SchemeRead(scheme, host + rest);
    assert url[|scheme| + 3..] == host + rest;
    assert rest != "" ==> rest[0] == if path != "" then path[0] else tail[0];
    AuthorityOf(url, |scheme| + 3, host, rest);
    TailIgnored(path, tail);
    assert '[' !in host && ']' !in host;
  }

  lemma UrlVisible(scheme: string, host: string, path: string, tail: string)
    requires scheme == "http" || scheme == "https"
    requires (forall c | c in host :: NetChar(c)) && Plain(path) && IsTail(tail)
    ensures var url := scheme + "://" + (host + (path + tail));
            url != "" && (forall c | c in url :: c as int > 32) && Bounded(url)
  {
    var url := scheme + "://" + (host + (path + tail));
    forall c | c in url
      ensures c as int > 32
    {
      if c in tail {
        var i :| 0 <= i < |tail| && tail[i] == c;
      }
    }
    assert url[0] in url && url[|url| - 1] in url;
  }

  /** No configured endpoint and no Amazon pattern matches the host. */
  ghost predicate Foreign(providers: seq<Provider>, host: string) {
    Unclaimed(providers, -1, Lower(host)) && forall i: nat :: i <= |host| ==> !AwsMatchesAt(Lower(host), i)
  }

  lemma {:induction false} NoneFound(i: nat, end: nat, test: nat -> bool)
    requires i <= end && forall k: nat :: i <= k <= end ==> !test(k)
    ensures SearchFrom(i, end, test) == None
    decreases end - i
  {
    if i < end {
      NoneFound(i + 1, end, test);
    }
  }

  lemma ForeignUnsplit(providers: seq<Provider>, pathname: string, host: string)
    requires Foreign(providers, host)
    ensures SplitS3StyleUrl(providers, pathname, host) == None
  {
    var low := Lower(host);
    NobodyClaims(providers, pathname, low);
    NoneFound(0, |low|, AwsMatcher(low));
  }

  lemma {:induction false} SlashesPlain(slashes: string)
    requires AllSlashes(slashes)
    ensures '%' !in slashes && forall c | c in slashes :: PathChar(c)
  {
  }

  /** What splitting a URL comes down to once it is parsed. */
  lemma SplitParsed(providers: seq<Provider>, value: string, url: string, host: string, path: string)
    requires Trim(value) == url && Clean(url) == url && StartsWithScheme(url) && UrlParse(url) == Some((host, path))
    ensures var pathname := StripLeft(Unquote(path), '/');
            SplitObjectReference(providers, value)
            == match SplitS3StyleUrl(providers, pathname, host)
               case Some(r) => r.(key := StripLeft(r.key, '/'))
               case None => Reference(None, pathname, None)
  {
  }

  /** A host that does not end in Amazon's domain is not read as one of Amazon's. */
  lemma NotAmazon(providers: seq<Provider>, host: string)
    requires Unclaimed(providers, -1, Lower(host)) && !EndsWith(Lower(host), ".amazonaws.com")
    ensures Foreign(providers, host)
  {
    var low := Lower(host);
    forall n: nat | n <= |low|
      ensures AwsTail(low[n..]) ==> EndsWith(low, ".amazonaws.com")
    {
      TailOfHost(low, n);
    }
  }

  lemma TailOfHost(low: string, n: nat)
    requires n <= |low|
    ensures AwsTail(low[n..]) ==> EndsWith(low, ".amazonaws.com")
  {
    var rest, m := low[n..], |AWS_SUFFIX|;
    if AwsTail(rest) {
      assert rest[|rest| - m..] == low[|low| - m..];
    }
  }

  lemma PathCharsPlain(path: string)
    requires forall c | c in path :: PathChar(c)
    ensures Plain(path) && ';' !in path
  {
    forall c | c in path
      ensures c != '?' && c != '#' && c as int > 32 && c != ';'
    {
      assert PathChar(c);
    }
  }

  lemma QuotedPath(slashes: string, key: string)
    requires AllSlashes(slashes) && IsKey(key)
    ensures Plain(slashes + Quote(key)) && ';' !in slashes + Quote(key)
  {
    QuotedChars(key);
    SlashesPlain(slashes);
    PathCharsPlain(slashes + Quote(key));
  }

  lemma QuotedKey(slashes: string, key: string)
    requires AllSlashes(slashes) && IsKey(key) && (key == "" || key[0] != '/')
    ensures StripLeft(Unquote(slashes + Quote(key)), '/') == key
  {
    SlashesPlain(slashes);
    UnquotePlain(slashes, Quote(key));
    UnquoteQuote(key);
    StripSlashes(slashes, key);
  }

  /** Splitting a URL, whatever its host: blanks around it, leading slashes of the path, parameters, query and
      fragment make no difference, and what host and decoded path mean decides. */
  lemma AnyUrl(providers: seq<Provider>, pre: string, scheme: string, host: string, slashes: string, key: string,
               params: string, tail: string, post: string)
    requires AllBlank(pre) && AllBlank(post) && (scheme == "http" || scheme == "https")
    requires forall c | c in host :: NetChar(c)
    requires AllSlashes(slashes) && slashes != "" && IsKey(key) && (key == "" || key[0] != '/')
    requires IsParams(params) && IsTail(tail)
    ensures var url := scheme + "://" + (host + ((slashes + Quote(key) + params) + tail));
            SplitObjectReference(providers, pre + url + post)
            == match SplitS3StyleUrl(providers, key, host)
               case Some(r) => r.(key := StripLeft(r.key, '/'))
               case None => Reference(None, key, None)
  {
    var path := slashes + Quote(key);
    var url := scheme + "://" + (host + ((path + params) + tail));
    QuotedPath(slashes, key);
    QuotedKey(slashes, key);
    assert path[0] == '/';
    ParamsDropped(path, params);
    assert (path + params)[0] == '/' && Plain(path + params);
    UrlVisible(scheme, host, path + params, tail);
    TrimBlanks(pre, url, post);
    VisibleUrl(url);
    ParseWithTail(scheme, host, path + params, tail);
    SplitParsed(providers, pre + url + post, url, host, path);
  }

  /** A URL of a host in front of the storage: it names no bucket and no provider, and its key is the
      decoded path without its leading slashes, without parameters, query and fragment, whatever blanks
      surround it. */
  lemma ForeignUrl(providers: seq<Provider>, pre: string, scheme: string, host: string, slashes: string, key: string,
                   params: string, tail: string, post: string)
    requires AllBlank(pre) && AllBlank(post) && (scheme == "http" || scheme == "https")
    requires (forall c | c in host :: NetChar(c)) && Foreign(providers, host)
    requires AllSlashes(slashes) && slashes != "" && IsKey(key) && (key == "" || key[0] != '/')
    requires IsParams(params) && IsTail(tail)
    ensures var url := scheme + "://" + (host + ((slashes + Quote(key) + params) + tail));
            SplitObjectReference(providers, pre + url + post) == Reference(None, key, None)
  {
    AnyUrl(providers, pre, scheme, host, slashes, key, params, tail, post);
    ForeignUnsplit(providers, key, host);
  }

  /** A query or a fragment changes nothing for any host. */
  lemma TailMakesNoDifference(providers: seq<Provider>, scheme: string, host: string, path: string, tail: string)
    requires scheme == "http" || scheme == "https"
    requires (forall c | c in host :: NetChar(c)) && Plain(path)
    requires (path == "" || path[0] == '/') && IsTail(tail)
    ensures SplitObjectReference(providers, scheme + "://" + (host + (path + tail)))
         == SplitObjectReference(providers, scheme + "://" + (host + (path + "")))
  {
    var url, short := scheme + "://" + (host + (path + tail)), scheme + "://" + (host + (path + ""));
    UrlVisible(scheme, host, path, tail);
    UrlVisible(scheme, host, path, "");
    VisibleUrl(url);
    VisibleUrl(short);
    TrimNothing(url);
    TrimNothing(short);
    ParseWithTail(scheme, host, path, tail);
    ParseWithTail(scheme, host, path, "");
    SplitParsed(providers, url, url, host, DropParams(path));
    SplitParsed(providers, short, short, host, DropParams(path));
  }

  /** Of a key printed with leading slashes the splitter returns what follows them. */
  lemma PrintedKeyLosesSlashes(providers: seq<Provider>, index: nat, bucket: string, slashes: string, key: string)
    requires index < |providers| && ValidProvider(providers[index]) && providers[index].endpoint.Some?
    requires ValidBucket(bucket) && AllSlashes(slashes) && IsKey(key) && (key == "" || key[0] != '/')
    requires Unclaimed(providers, index, Lower(HostOf(providers[index], bucket)))
    ensures IsKey(slashes + key)
    ensures SplitObjectReference(providers, ObjectUrl(providers[index], bucket, slashes + key))
         == Reference(Some(bucket), key, Some(providers[index].key))
  {
    StripSlashes(slashes, key);
    forall c | c in slashes + key
      ensures IsByte(c)
    {
    }
    EndpointUrlRoundTrip(providers, index, bucket, slashes + key);
  }

  // ---------------------------------------------------------------- unreadable URLs

  lemma NetlocRead(url: string, start: nat, host: string, path: string)
    requires start <= |url| && url[start..] == host + path
    requires forall c | c in host :: !EndsAuthority(c)
    requires path == "" || path[0] == '/'
    ensures url[start..Find(url, start, c => EndsAuthority(c))] == host
  {
    var end := Find(url, start, c => EndsAuthority(c));
    assert forall k :: start <= k < |url| ==> url[k] == (host + path)[k - start];
    assert forall k :: start <= k < start + |host| ==> url[k] == host[k - start] && host[k - start] in host;
    if path != "" {
      assert url[start + |host|] == path[0];
    }
    assert end == start + |host|;
  }

  lemma VisibleText(scheme: string, host: string, path: string)
    requires scheme == "http" || scheme == "https"
    requires (forall c | c in host :: c as int > 32) && forall c | c in path :: c as int > 32
    ensures var url := scheme + "://" + (host + path);
            url != "" && url[0] == 'h' && Clean(url) == url && Bounded(url)
  {
    var url := scheme + "://" + (host + path);
    assert forall c | c in url :: c as int > 32;
    assert url[0] in url && url[|url| - 1] in url;
    VisibleUrl(url);
  }

  lemma NotParsed(providers: seq<Provider>, value: string, url: string)
    requires Trim(value) == url && Clean(url) == url && StartsWithScheme(url) && UrlParse(url) == None
    requires url != "" && url[0] != '/'
    ensures SplitObjectReference(providers, value) == Reference(None, url, None)
  {
    StripSlashes("", url);
  }

  /** A URL whose host has one kind of bracket only is not parsed; the whole value is taken for a key. */
  lemma UnbalancedHost(providers: seq<Provider>, pre: string, scheme: string, host: string, path: string, post: string)
    requires AllBlank(pre) && AllBlank(post) && (scheme == "http" || scheme == "https")
    requires (forall c | c in host :: !EndsAuthority(c) && c as int > 32) && (('[' in host) != (']' in host))
    requires (path == "" || path[0] == '/') && forall c | c in path :: c as int > 32
    ensures var url := scheme + "://" + (host + path);
            SplitObjectReference(providers, pre + url + post) == Reference(None, url, None)
  {
    var url := scheme + "://" + (host + path);
    SchemeRead(scheme, host + path);
    VisibleText(scheme, host, path);
    TrimBlanks(pre, url, post);
    NetlocRead(url, |scheme| + 3, host, path);
    NotParsed(providers, pre + url + post, url);
  }
}

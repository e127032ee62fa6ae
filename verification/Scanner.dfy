/** Finding object keys inside rich text. */
module Scanner {
  import opened ArchiveKeys
  import opened Basics
  import opened PyStrings
  import opened PercentCoding
  import opened Urls
  import opened UrlRoundTrip

  /** The characters a URL in running text may contain. */
  predicate UrlChar(c: char) {
    !IsSpace(c) && c != '"' && c != '\'' && c != '<' && c != '>' && c != ')'
  }

  /** The length of the scheme part at position `i`, or 0. */
  function SchemeAt(text: string, i: nat): nat
    requires i <= |text|
  {
    if i + 7 <= |text| && Lower(text[i..i + 7]) == "http://" then 7
    else if i + 8 <= |text| && Lower(text[i..i + 8]) == "https://" then 8
    else 0
  }

  /** Where the match that begins at `i` ends, or None: a scheme, then at least one URL character,
      taken greedily. */
  function MatchEnd(text: string, i: nat): (e: Option<nat>)
    requires i <= |text|
    ensures e.Some? ==> i < e.value <= |text|
  {
    var n := SchemeAt(text, i);
    if n == 0 then None
    else
      var e := Find(text, i + n, c => !UrlChar(c));
      if e > i + n then Some(e) else None
  }

  /** The matches from position `i` on, left to right, none overlapping another. */
  function FindUrls(text: string, i: nat): seq<string>
    requires i <= |text|
    decreases |text| - i
  {
    if i == |text| then []
    else
      var e := MatchEnd(text, i);
      if e.Some? then [text[i..e.value]] + FindUrls(text, e.value) else FindUrls(text, i + 1)
  }

  /** The key a URL contributes, if any. */
  predicate Contributes(providers: seq<Provider>, buckets: set<string>, url: string, key: string) {
    var r := SplitObjectReference(providers, url);
    r.key == key && key != "" && (r.bucket.Some? ==> r.bucket.value in buckets)
  }

  ghost predicate Embedded(providers: seq<Provider>, buckets: set<string>, text: string, key: string) {
    exists url :: url in FindUrls(text, 0) && Contributes(providers, buckets, url, key)
  }

  /** All keys that a text contributes. */
  function EmbeddedKeys(providers: seq<Provider>, text: string, buckets: set<string>): (keys: set<string>)
    ensures forall key :: key in keys <==> Embedded(providers, buckets, text, key)
  {
    set url | url in FindUrls(text, 0) && Contributes(providers, buckets, url, SplitObjectReference(providers, url).key)
      :: SplitObjectReference(providers, url).key
  }

  /** The loop variable of a `finditer`: all matches, in order. */
  method FindAll(text: string) returns (urls: seq<string>)
    ensures urls == FindUrls(text, 0)
  {
    urls := [];
    var i := 0;
    while i < |text|
      invariant i <= |text| && FindUrls(text, 0) == urls + FindUrls(text, i)
    {
      var e := MatchEnd(text, i);
      if e.Some? {
        assert urls + FindUrls(text, i) == urls + [text[i..e.value]] + FindUrls(text, e.value);
        urls, i := urls + [text[i..e.value]], e.value;
      } else {
        i := i + 1;
      }
    }
  }

  method AddKey(providers: seq<Provider>, buckets: set<string>, url: string, keys: set<string>) returns (after: set<string>)
    ensures forall key :: key in after <==> key in keys || Contributes(providers, buckets, url, key)
  {
    var r := SplitObjectReference(providers, url);
    if r.key == "" || (r.bucket.Some? && r.bucket.value !in buckets) {
      return keys;
    }
    after := keys + {r.key};
  }

  method ExtractEmbeddedKeys(providers: seq<Provider>, text: string, buckets: set<string>) returns (keys: set<string>)
    ensures keys == EmbeddedKeys(providers, text, buckets)
  {
    var urls := FindAll(text);
    keys := {};
    for i := 0 to |urls|
      invariant forall key :: key in keys <==> exists j :: 0 <= j < i && Contributes(providers, buckets, urls[j], key)
    {
      keys := AddKey(providers, buckets, urls[i], keys);
    }
  }

  lemma SchemeChars(text: string, i: nat)
    requires i <= |text|
    ensures i + SchemeAt(text, i) <= |text|
    ensures forall k :: i <= k < i + SchemeAt(text, i) ==> UrlChar(text[k])
  {
    var n := SchemeAt(text, i);
    var scheme := Lower(text[i..i + n]);
    if n == 7 {
      assert forall c | c in "http://" :: UrlChar(c);
    } else if n == 8 {
      assert forall c | c in "https://" :: UrlChar(c);
    }
    forall k | i <= k < i + n
      ensures UrlChar(text[k])
    {
      assert scheme[k - i] in scheme;
    }
  }

  /** A match does not run over a character that no URL contains. */
  lemma MatchStops(text: string, i: nat, stop: nat)
    requires i < stop < |text| && !UrlChar(text[stop]) && MatchEnd(text, i).Some?
    ensures MatchEnd(text, i).value <= stop
  {
    SchemeChars(text, i);
  }

  /** The scan comes to every match that follows a delimiter. */
  lemma {:induction false} ScanReaches(text: string, i: nat, at: nat)
    requires i <= at < |text| && MatchEnd(text, at).Some?
    requires at == i || !UrlChar(text[at - 1])
    ensures text[at..MatchEnd(text, at).value] in FindUrls(text, i)
    decreases at - i
  {
    if i < at {
      var e := MatchEnd(text, i);
      if e.Some? {
        if i < at - 1 {
          MatchStops(text, i, at - 1);
        } else {
          SchemeChars(text, i);
        }
        ScanReaches(text, e.value, at);
      } else {
        ScanReaches(text, i + 1, at);
      }
    }
  }

  /** A scheme is recognised wherever the URL stands. */
  lemma SchemeAnywhere(text: string, at: nat, url: string)
    requires at + |url| <= |text| && text[at..at + |url|] == url && SchemeAt(url, 0) > 0
    ensures SchemeAt(text, at) == SchemeAt(url, 0)
  {
    var n := SchemeAt(url, 0);
    assert text[at..at + n] == url[0..n];
    if n == 8 {
      assert Lower(url[0..8])[4] == 's' && Lower(text[at..at + 7])[4] == Lower(url[0..8])[4];
    }
  }

  lemma MatchToEnd(text: string, at: nat, url: string)
    requires at + |url| < |text| && text[at..at + |url|] == url && !UrlChar(text[at + |url|])
    requires forall c | c in url :: UrlChar(c)
    requires SchemeAt(url, 0) > 0 && |url| > SchemeAt(url, 0)
    ensures MatchEnd(text, at) == Some(at + |url|)
  {
    SchemeAnywhere(text, at, url);
    assert forall k :: at <= k < at + |url| ==> text[k] == url[k - at] && url[k - at] in url;
  }

  lemma DelimitedUrlMatches(before: string, open: char, url: string, close: char, after: string)
    requires !UrlChar(open) && !UrlChar(close)
    requires forall c | c in url :: UrlChar(c)
    requires SchemeAt(url, 0) > 0 && |url| > SchemeAt(url, 0)
    ensures var text := before + [open] + url + [close] + after;
            MatchEnd(text, |before| + 1) == Some(|before| + 1 + |url|)
  {
    var text := before + [open] + url + [close] + after;
    var at := |before| + 1;
    assert text[at..at + |url|] == url && text[at + |url|] == close;
    MatchToEnd(text, at, url);
  }

  /** Completeness: whatever surrounds it, a URL between two characters that cannot belong to a
      URL, such as the quotes of an attribute, is found. */
  lemma DelimitedUrlFound(before: string, open: char, url: string, close: char, after: string)
    requires !UrlChar(open) && !UrlChar(close)
    requires forall c | c in url :: UrlChar(c)
    requires SchemeAt(url, 0) > 0 && |url| > SchemeAt(url, 0)
    ensures url in FindUrls(before + [open] + url + [close] + after, 0)
  {
    var text := before + [open] + url + [close] + after;
    assert text[|before| + 1..|before| + 1 + |url|] == url;
    DelimitedUrlMatches(before, open, url, close, after);
    ScanReaches(text, 0, |before| + 1);
  }

  lemma NoMatchAtQuote(text: string, i: nat)
    requires i < |text| && text[i] == '"'
    ensures MatchEnd(text, i) == None
  {
    assert i + 7 <= |text| ==> Lower(text[i..i + 7])[0] == '"';
    assert i + 8 <= |text| ==> Lower(text[i..i + 8])[0] == '"';
  }

  /** A text that is one quoted URL has no other match. */
  lemma OnlyUrl(text: string, url: string)
    requires forall c | c in url :: UrlChar(c)
    requires SchemeAt(url, 0) > 0 && |url| > SchemeAt(url, 0)
    requires text == "" + ['"'] + url + ['"'] + ""
    ensures FindUrls(text, 0) == [url]
  {
    var end := 1 + |url|;
    DelimitedUrlMatches("", '"', url, '"', "");
    NoMatchAtQuote(text, 0);
    NoMatchAtQuote(text, end);
    assert text[1..end] == url;
    assert FindUrls(text, end) == FindUrls(text, end + 1) == [];
    assert FindUrls(text, 1) == [url] + [];
  }

  lemma SchemeMatches(scheme: string, rest: string)
    requires scheme == "http" || scheme == "https"
    ensures SchemeAt(scheme + "://" + rest, 0) == |scheme| + 3
  {
    var url := scheme + "://" + rest;
    if scheme == "http" {
      assert Lower(url[0..7]) == "http://";
    } else {
      assert Lower(url[0..8]) == "https://";
      assert Lower(url[0..7])[4] == 's';
    }
  }

  lemma VisibleIsUrl(scheme: string, host: string, path: string)
    requires scheme == "http" || scheme == "https"
    requires (forall c | c in host :: NetChar(c)) && (forall c | c in path :: PathChar(c))
    ensures forall c | c in scheme + "://" + host + path :: UrlChar(c)
  {
  }

  lemma PrintedIsUrl(p: Provider, bucket: string, key: string)
    requires ValidProvider(p) && ValidBucket(bucket) && IsKey(key)
    ensures var url := ObjectUrl(p, bucket, key);
            (forall c | c in url :: UrlChar(c)) && SchemeAt(url, 0) > 0 && |url| > SchemeAt(url, 0)
  {
    var scheme, host, path := SchemeOf(p), HostOf(p, bucket), PathOf(p, bucket, key);
    PrintedParts(p, bucket, key);
    VisibleIsUrl(scheme, host, path);
    Regroup(scheme, "://", host, path);
    SchemeMatches(scheme, host + path);
  }

  lemma Regroup(a: string, b: string, c: string, d: string)
    ensures a + b + c + d == a + b + (c + d)
  {
  }

  /** End to end: in any text, a quoted object URL whose splitting gives back its bucket and its
      non-empty key puts that key among the extracted ones, if the bucket is in scope. */
  lemma QuotedUrlExtracted(providers: seq<Provider>, buckets: set<string>, before: string, after: string,
                           p: Provider, bucket: string, key: string)
    requires ValidProvider(p) && ValidBucket(bucket) && IsKey(key) && key != "" && bucket in buckets
    requires var r := SplitObjectReference(providers, ObjectUrl(p, bucket, key)); r.bucket == Some(bucket) && r.key == key
    ensures Embedded(providers, buckets, before + "\"" + ObjectUrl(p, bucket, key) + "\"" + after, key)
  {
    var url := ObjectUrl(p, bucket, key);
    PrintedIsUrl(p, bucket, key);
    DelimitedUrlFound(before, '"', url, '"', after);
    assert Contributes(providers, buckets, url, key);
  }
}

/** Which URLs are found in a text, told by the text. */
module ScannerRules {
  import opened Basics
  import opened PyStrings
  import opened Scanner

  /** Neither white space nor one of the characters that end a URL in running text. */
  predicate BodyChar(c: char) {
    !(9 <= c as int <= 13 || 28 <= c as int <= 32) && c !in "\"'<>)"
  }

  /** The scheme at `i`, in letters of any case, ends before `n`. */
  predicate SchemeEnds(text: string, i: int, n: int) {
    0 <= i && n <= |text| &&
    ((n == i + 7 && Lower(text[i..n]) == "http://") || (n == i + 8 && Lower(text[i..n]) == "https://"))
  }

  /** The text from `n` to `e` is as long a run of body characters as it can be, and not empty. */
  predicate LongestBody(text: string, n: int, e: int) {
    0 <= n < e <= |text| && (forall k :: n <= k < e ==> BodyChar(text[k])) && (e < |text| ==> !BodyChar(text[e]))
  }

  /** A URL that reaches from `i` to `e`. */
  ghost predicate UrlFrom(text: string, i: int, e: int) {
    exists n :: SchemeEnds(text, i, n) && LongestBody(text, n, e)
  }

  lemma SameChars(c: char)
    ensures BodyChar(c) <==> UrlChar(c)
  {
  }

  lemma SchemeExactly(text: string, i: nat, n: int)
    requires i <= |text|
    ensures SchemeEnds(text, i, n) <==> SchemeAt(text, i) > 0 && n == i + SchemeAt(text, i)
  {
    if i + 8 <= |text| {
      assert Lower(text[i..i + 8])[4] == Lower(text[i..i + 7])[4];
    }
  }

  lemma BodyExactly(text: string, n: nat, e: int)
    requires n <= |text|
    ensures LongestBody(text, n, e) <==> e > n && e == Find(text, n, c => !UrlChar(c))
  {
    forall c
      ensures BodyChar(c) <==> UrlChar(c)
    {
      SameChars(c);
    }
    var f := Find(text, n, c => !UrlChar(c));
    if LongestBody(text, n, e) {
      assert e <= f;
    }
  }

  lemma MatchExactly(text: string, i: nat, e: int)
    requires i <= |text|
    ensures UrlFrom(text, i, e) <==> e >= 0 && MatchEnd(text, i) == Some(e)
  {
    var n := i + SchemeAt(text, i);
    forall m
      ensures SchemeEnds(text, i, m) <==> SchemeAt(text, i) > 0 && m == n
    {
      SchemeExactly(text, i, m);
    }
    SchemeChars(text, i);
    BodyExactly(text, n, e);
  }

  /** The place belongs to one of the stretches. */
  ghost predicate Inside(starts: seq<nat>, ends: seq<nat>, p: int) {
    exists k :: 0 <= k < |starts| && k < |ends| && starts[k] <= p < ends[k]
  }

  ghost predicate Stretches(text: string, from: nat, urls: seq<string>, starts: seq<nat>, ends: seq<nat>) {
    && |starts| == |urls| && |ends| == |urls|
    && forall k :: 0 <= k < |urls| ==>
         from <= starts[k] < ends[k] <= |text| && UrlFrom(text, starts[k], ends[k]) && urls[k] == text[starts[k]..ends[k]]
  }

  ghost predicate Apart(starts: seq<nat>, ends: seq<nat>) {
    |starts| == |ends| && forall k, m :: 0 <= k < m < |starts| ==> ends[k] <= starts[m]
  }

  /** No URL begins outside the stretches. */
  ghost predicate NothingElse(text: string, from: nat, starts: seq<nat>, ends: seq<nat>) {
    forall p, e :: from <= p < |text| && UrlFrom(text, p, e) ==> Inside(starts, ends, p)
  }

  lemma OneMoreStretch(text: string, from: nat, e: nat, urls: seq<string>, starts: seq<nat>, ends: seq<nat>)
    requires from < e <= |text| && UrlFrom(text, from, e) && Stretches(text, e, urls, starts, ends)
    ensures Stretches(text, from, [text[from..e]] + urls, [from] + starts, [e] + ends)
  {
  }

  lemma StillApart(from: nat, e: nat, text: string, urls: seq<string>, starts: seq<nat>, ends: seq<nat>)
    requires from < e && Stretches(text, e, urls, starts, ends) && Apart(starts, ends)
    ensures Apart([from] + starts, [e] + ends)
  {
  }

  lemma StillNothingElse(text: string, from: nat, e: nat, starts: seq<nat>, ends: seq<nat>)
    requires from < e <= |text| && NothingElse(text, e, starts, ends) && |starts| == |ends|
    ensures NothingElse(text, from, [from] + starts, [e] + ends)
  {
    var first, last := [from] + starts, [e] + ends;
    forall p, f | from <= p < |text| && UrlFrom(text, p, f)
      ensures Inside(first, last, p)
    {
      if p < e {
        assert first[0] <= p < last[0];
      } else {
        var k :| 0 <= k < |starts| && k < |ends| && starts[k] <= p < ends[k];
        assert first[k + 1] <= p < last[k + 1];
      }
    }
  }

  ghost predicate FoundAt(text: string, from: nat, urls: seq<string>, starts: seq<nat>, ends: seq<nat>) {
    Stretches(text, from, urls, starts, ends) && Apart(starts, ends) && NothingElse(text, from, starts, ends)
  }

  lemma FoundHere(text: string, from: nat, e: nat, urls: seq<string>, starts: seq<nat>, ends: seq<nat>)
    requires from < e <= |text| && UrlFrom(text, from, e) && FoundAt(text, e, urls, starts, ends)
    ensures FoundAt(text, from, [text[from..e]] + urls, [from] + starts, [e] + ends)
  {
    OneMoreStretch(text, from, e, urls, starts, ends);
    StillApart(from, e, text, urls, starts, ends);
    StillNothingElse(text, from, e, starts, ends);
  }

  lemma FoundLater(text: string, from: nat, urls: seq<string>, starts: seq<nat>, ends: seq<nat>)
    requires (forall e :: !UrlFrom(text, from, e)) && FoundAt(text, from + 1, urls, starts, ends)
    ensures FoundAt(text, from, urls, starts, ends)
  {
  }

  lemma NoneHere(text: string, from: nat)
    requires from <= |text| && MatchEnd(text, from).None?
    ensures forall e :: !UrlFrom(text, from, e)
  {
    forall e
      ensures !UrlFrom(text, from, e)
    {
      MatchExactly(text, from, e);
    }
  }

  /** The URLs of a text from a place on: they are stretches of it, none overlaps another, each is a scheme
      with as long a body as there is, they come in order, and no URL begins outside them. */
  lemma {:induction false} FoundExactly(text: string, from: nat) returns (starts: seq<nat>, ends: seq<nat>)
    requires from <= |text|
    ensures FoundAt(text, from, FindUrls(text, from), starts, ends)
    decreases |text| - from
  {
    if from == |text| {
      return [], [];
    }
    var found := MatchEnd(text, from);
    if found.Some? {
      var e := found.value;
      MatchExactly(text, from, e);
      starts, ends := FoundExactly(text, e);
      FoundHere(text, from, e, FindUrls(text, e), starts, ends);
      return [from] + starts, [e] + ends;
    }
    NoneHere(text, from);
    starts, ends := FoundExactly(text, from + 1);
    FoundLater(text, from, FindUrls(text, from + 1), starts, ends);
  }
}

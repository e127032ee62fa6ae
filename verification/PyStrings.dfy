/** The Python string operations the URL code relies on.  A string stands for its UTF-8 bytes,
    one character per byte. */
module PyStrings {

  function LowerChar(c: char): char {
    if 'A' <= c <= 'Z' then (c as int + 32) as char else c
  }

  function Lower(s: string): (r: string)
    ensures |r| == |s| && forall i :: 0 <= i < |s| ==> r[i] == LowerChar(s[i])
  {
    seq(|s|, i requires 0 <= i < |s| => LowerChar(s[i]))
  }

  /** ASCII white space, as `str.isspace` and `\s` see it. */
  predicate IsSpace(c: char) {
    '\t' <= c <= '\r' || 28 <= c as int <= 32
  }

  /** `s.lstrip(c)`. */
  function StripLeft(s: string, c: char): string {
    if s != "" && s[0] == c then StripLeft(s[1..], c) else s
  }

  /** `s.rstrip(c)`. */
  function StripRight(s: string, c: char): string {
    if s != "" && s[|s| - 1] == c then StripRight(s[..|s| - 1], c) else s
  }

  function TrimLeft(s: string): string {
    if s != "" && IsSpace(s[0]) then TrimLeft(s[1..]) else s
  }

  function TrimRight(s: string): string {
    if s != "" && IsSpace(s[|s| - 1]) then TrimRight(s[..|s| - 1]) else s
  }

  /** `s.strip()`. */
  function Trim(s: string): string {
    TrimRight(TrimLeft(s))
  }

  predicate EndsWith(s: string, suffix: string) {
    |suffix| <= |s| && s[|s| - |suffix|..] == suffix
  }

  /** The first position at or after `i` whose character satisfies `stop`, or the length. */
  function Find(s: string, i: nat, stop: char -> bool): (j: nat)
    requires i <= |s|
    ensures i <= j <= |s|
    ensures forall k :: i <= k < j ==> !stop(s[k])
    ensures j < |s| ==> stop(s[j])
    decreases |s| - i
  {
    if i == |s| || stop(s[i]) then i else Find(s, i + 1, stop)
  }

  /** The characters of `s` that satisfy `keep`, in order. */
  function Filter(s: string, keep: char -> bool): string {
    if s == "" then "" else (if keep(s[0]) then [s[0]] else "") + Filter(s[1..], keep)
  }

  lemma {:induction false} FilterAll(s: string, keep: char -> bool)
    requires forall c | c in s :: keep(c)
    ensures Filter(s, keep) == s
  {
    if s != "" {
      FilterAll(s[1..], keep);
      assert s == [s[0]] + s[1..];
    }
  }

  lemma TrimNothing(s: string)
    requires s != "" && !IsSpace(s[0]) && !IsSpace(s[|s| - 1])
    ensures Trim(s) == s
  {
  }

  predicate AllBlank(s: string) {
    forall i :: 0 <= i < |s| ==> IsSpace(s[i])
  }

  /** The text is empty or begins and ends with visible characters. */
  predicate Bounded(s: string) {
    s != "" ==> !IsSpace(s[0]) && !IsSpace(s[|s| - 1])
  }

  lemma {:induction false} TrimLeftBlank(pre: string, s: string)
    requires AllBlank(pre)
    ensures TrimLeft(pre + s) == TrimLeft(s)
  {
    if pre == "" {
      assert pre + s == s;
    } else {
      assert (pre + s)[1..] == pre[1..] + s && (pre + s)[0] == pre[0];
      TrimLeftBlank(pre[1..], s);
    }
  }

  lemma {:induction false} TrimRightBlank(s: string, post: string)
    requires AllBlank(post)
    ensures TrimRight(s + post) == TrimRight(s)
  {
    if post == "" {
      assert s + post == s;
    } else {
      var n := |s + post| - 1;
      assert (s + post)[..n] == s + post[..|post| - 1] && (s + post)[n] == post[|post| - 1];
      TrimRightBlank(s, post[..|post| - 1]);
    }
  }

  /** Trimming removes exactly the blanks around a text. */
  lemma TrimBlanks(pre: string, s: string, post: string)
    requires AllBlank(pre) && AllBlank(post) && Bounded(s)
    ensures Trim(pre + s + post) == s
  {
    assert pre + s + post == pre + (s + post);
    TrimLeftBlank(pre, s + post);
    if s == "" {
      assert s + post == post;
      TrimLeftBlank(post, "");
      assert post + "" == post;
    } else {
      assert (s + post)[0] == s[0];
      TrimRightBlank(s, post);
    }
  }

  lemma {:induction false} TrimLeftParts(s: string)
    ensures |TrimLeft(s)| <= |s| && AllBlank(s[..|s| - |TrimLeft(s)|]) && s[|s| - |TrimLeft(s)|..] == TrimLeft(s)
    ensures TrimLeft(s) != "" ==> !IsSpace(TrimLeft(s)[0])
  {
    if s != "" && IsSpace(s[0]) {
      TrimLeftParts(s[1..]);
      var n := |s| - |TrimLeft(s)|;
      assert s[..n] == [s[0]] + s[1..][..n - 1] && s[n..] == s[1..][n - 1..];
    }
  }

  lemma {:induction false} TrimRightParts(s: string)
    ensures |TrimRight(s)| <= |s| && AllBlank(s[|TrimRight(s)|..]) && s[..|TrimRight(s)|] == TrimRight(s)
    ensures TrimRight(s) != "" ==> TrimRight(s)[0] == s[0] && !IsSpace(TrimRight(s)[|TrimRight(s)| - 1])
  {
    if s != "" && IsSpace(s[|s| - 1]) {
      TrimRightParts(s[..|s| - 1]);
      var n := |TrimRight(s)|;
      assert s[n..] == s[..|s| - 1][n..] + [s[|s| - 1]] && s[..n] == s[..|s| - 1][..n];
    }
  }

  /** What trimming returns, and what it leaves off. */
  lemma TrimParts(s: string) returns (a: nat, b: nat)
    ensures a <= b <= |s| && AllBlank(s[..a]) && AllBlank(s[b..]) && Trim(s) == s[a..b] && Bounded(Trim(s))
  {
    TrimLeftParts(s);
    var left := TrimLeft(s);
    TrimRightParts(left);
    a := |s| - |left|;
    b := a + |Trim(s)|;
    assert s[b..] == left[|Trim(s)|..] && s[a..b] == left[..|Trim(s)|];
  }

  lemma LowerConcat(a: string, b: string)
    ensures Lower(a + b) == Lower(a) + Lower(b)
  {
  }

  /** `StripLeft` returns a suffix that does not begin with the character. */
  lemma {:induction false} StripLeftShape(s: string, c: char)
    ensures StripLeft(s, c) == "" || StripLeft(s, c)[0] != c
    ensures |StripLeft(s, c)| <= |s| && StripLeft(s, c) == s[|s| - |StripLeft(s, c)|..]
    ensures StripLeft(s, c) == s <==> s == "" || s[0] != c
  {
    if s != "" && s[0] == c {
      StripLeftShape(s[1..], c);
    }
  }

  lemma {:induction false} StripRightShape(s: string, c: char)
    ensures StripRight(s, c) == "" || StripRight(s, c)[|StripRight(s, c)| - 1] != c
    ensures |StripRight(s, c)| <= |s| && StripRight(s, c) == s[..|StripRight(s, c)|]
    ensures StripRight(s, c) == s <==> s == "" || s[|s| - 1] != c
  {
    if s != "" && s[|s| - 1] == c {
      StripRightShape(s[..|s| - 1], c);
    }
  }
}

/** Percent-encoding (sections 2.1 and 2.3 of RFC 3986) as `urllib.parse` does it. */
module PercentCoding {
  import opened PyStrings

  /** The characters `quote` leaves alone: the unreserved ones and the slash. */
  predicate Safe(c: char) {
    'a' <= c <= 'z' || 'A' <= c <= 'Z' || '0' <= c <= '9' ||
    c == '_' || c == '.' || c == '-' || c == '~' || c == '/'
  }

  function HexDigit(n: nat): (c: char)
    requires n < 16
    ensures '0' <= c <= '9' || 'A' <= c <= 'F'
  {
    if n < 10 then ('0' as int + n) as char else ('A' as int + n - 10) as char
  }

  /** The value of a hexadecimal digit of either case, or -1. */
  function HexValue(c: char): (n: int)
    ensures -1 <= n < 16
  {
    if '0' <= c <= '9' then c as int - '0' as int
    else if 'A' <= c <= 'F' then c as int - 'A' as int + 10
    else if 'a' <= c <= 'f' then c as int - 'a' as int + 10
    else -1
  }

  predicate IsByte(c: char) {
    c as int < 256
  }

  function EncodeChar(c: char): string
    requires IsByte(c)
  {
    if Safe(c) then [c] else ['%', HexDigit(c as int / 16), HexDigit(c as int % 16)]
  }

  function Quote(s: string): string
    requires forall c | c in s :: IsByte(c)
  {
    if s == "" then "" else EncodeChar(s[0]) + Quote(s[1..])
  }

  /** A valid escape is replaced by its byte, anything else stays. */
  function Unquote(s: string): string {
    if s == "" then ""
    else if s[0] == '%' && |s| >= 3 && HexValue(s[1]) >= 0 && HexValue(s[2]) >= 0 then
      [(HexValue(s[1]) * 16 + HexValue(s[2])) as char] + Unquote(s[3..])
    else [s[0]] + Unquote(s[1..])
  }

  lemma HexRoundTrip(n: nat)
    requires n < 16
    ensures HexValue(HexDigit(n)) == n
  {
  }

  lemma UnquoteEncoded(c: char, rest: string)
    requires IsByte(c)
    ensures Unquote(EncodeChar(c) + rest) == [c] + Unquote(rest)
  {
    var code := EncodeChar(c);
    if Safe(c) {
      assert (code + rest)[1..] == rest;
    } else {
      var high, low := c as int / 16, c as int % 16;
      HexRoundTrip(high);
      HexRoundTrip(low);
      assert (code + rest)[3..] == rest;
      assert high * 16 + low == c as int;
    }
  }

  lemma UnquoteFirst(s: string)
    requires s != "" && s[0] != '%'
    ensures Unquote(s) == [s[0]] + Unquote(s[1..])
  {
  }

  lemma {:induction false} UnquotePlain(plain: string, rest: string)
    requires '%' !in plain
    ensures Unquote(plain + rest) == plain + Unquote(rest)
  {
    if plain == "" {
      assert plain + rest == rest;
    } else {
      UnquotePlain(plain[1..], rest);
      UnquoteFirst(plain + rest);
      FirstShifts(plain, rest);
      FirstShifts(plain, Unquote(rest));
    }
  }

  lemma FirstShifts(a: string, b: string)
    requires a != ""
    ensures (a + b)[0] == a[0] && (a + b)[1..] == a[1..] + b
    ensures a + b == [a[0]] + (a[1..] + b)
  {
  }

  /** Decoding an encoded text gives it back. */
  lemma {:induction false} UnquoteQuote(s: string)
    requires forall c | c in s :: IsByte(c)
    ensures Unquote(Quote(s)) == s
  {
    if s != "" {
      UnquoteEncoded(s[0], Quote(s[1..]));
      UnquoteQuote(s[1..]);
    }
  }

  /** An encoded text consists of safe characters and escapes. */
  lemma {:induction false} QuotedChars(s: string)
    requires forall c | c in s :: IsByte(c)
    ensures forall c | c in Quote(s) :: Safe(c) || c == '%'
  {
    if s != "" {
      QuotedChars(s[1..]);
      assert forall c | c in EncodeChar(s[0]) :: Safe(c) || c == '%';
    }
  }
}

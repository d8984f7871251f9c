/** Percent-encoding of the search text as done by Python's `urllib.parse.quote(q)` with its
    default `safe='/'`: the unreserved characters of section 2.3 of RFC 3986 and `/` stay as they
    are; every other character is encoded as UTF-8 and each byte written as `%` followed by two
    upper-case hexadecimal digits (section 2.1 of RFC 3986). */
module Percent {
  import opened Wrappers

  /** ALPHA / DIGIT / "-" / "." / "_" / "~" (section 2.3 of RFC 3986). */
  predicate IsUnreserved(c: char)
  {
    'A' <= c <= 'Z' || 'a' <= c <= 'z' || '0' <= c <= '9' || c == '-' || c == '.' || c == '_' || c == '~'
  }

  predicate IsSafe(c: char)
  {
    IsUnreserved(c) || c == '/'
  }

  predicate IsByte(b: int)
  {
    0 <= b < 256
  }

  /** The UTF-8 encoding of one Unicode scalar value. */
  function Utf8(c: char): (bs: seq<int>)
    ensures 1 <= |bs| <= 4
    ensures forall k :: 0 <= k < |bs| ==> IsByte(bs[k])
  {
    var n := c as int;
    if n < 0x80 then [n]
    else if n < 0x800 then [0xC0 + n / 64, 0x80 + n % 64]
    else if n < 0x10000 then [0xE0 + n / 4096, 0x80 + (n / 64) % 64, 0x80 + n % 64]
    else [0xF0 + n / 262144, 0x80 + (n / 4096) % 64, 0x80 + (n / 64) % 64, 0x80 + n % 64]
  }

  function HexDigit(n: int): (c: char)
    requires 0 <= n < 16
    ensures IsUnreserved(c)
  {
    if n < 10 then (('0' as int) + n) as char else (('A' as int) + n - 10) as char
  }

  /** One byte as `%XX`. */
  function PercentByte(b: int): (t: string)
    requires IsByte(b)
    ensures |t| == 3 && t[0] == '%' && IsUnreserved(t[1]) && IsUnreserved(t[2])
  {
    ['%', HexDigit(b / 16), HexDigit(b % 16)]
  }

  function PercentBytes(bs: seq<int>): (t: string)
    requires forall k :: 0 <= k < |bs| ==> IsByte(bs[k])
    ensures |t| == 3 * |bs|
  {
    if bs == [] then [] else PercentByte(bs[0]) + PercentBytes(bs[1..])
  }

  function QuoteChar(c: char): string
  {
    if IsSafe(c) then [c] else PercentBytes(Utf8(c))
  }

  /** `urllib.parse.quote(s)` */
  function Quote(s: string): string
  {
    if s == [] then [] else QuoteChar(s[0]) + Quote(s[1..])
  }

  /** Every character of the encoding is unreserved, `/` or `%`; in particular none of the
      characters that delimit a query string (`&`, `=`, `#`, `?`) nor `,`. */
  predicate IsEncoded(t: string)
  {
    forall k :: 0 <= k < |t| ==> IsSafe(t[k]) || t[k] == '%'
  }

  lemma {:induction false} PercentBytesEncoded(bs: seq<int>)
    requires forall k :: 0 <= k < |bs| ==> IsByte(bs[k])
    ensures IsEncoded(PercentBytes(bs))
  {
    if bs != [] {
      PercentBytesEncoded(bs[1..]);
    }
  }

  /** The output of `quote` uses only the encoded alphabet. */
  lemma {:induction false} QuoteEncoded(s: string)
    ensures IsEncoded(Quote(s))
  {
    if s != [] {
      QuoteEncoded(s[1..]);
      if !IsSafe(s[0]) {
        PercentBytesEncoded(Utf8(s[0]));
      }
    }
  }

  // ---- a strict decoder, the inverse that `quote` is proved against ----

  function HexValue(c: char): Option<nat>
  {
    if '0' <= c <= '9' then Some((c as int) - ('0' as int))
    else if 'A' <= c <= 'F' then Some((c as int) - ('A' as int) + 10)
    else None
  }

  /** The byte written as `%XX` at the start of `t`. */
  function ReadByte(t: string): Option<int>
  {
    if |t| < 3 || t[0] != '%' then None
    else match (HexValue(t[1]), HexValue(t[2]))
      case (Some(hi), Some(lo)) => Some(16 * hi + lo)
      case _ => None
  }

  /** `n` consecutive `%XX` bytes at the start of `t`. */
  function ReadBytes(t: string, n: nat): Option<seq<int>>
  {
    if n == 0 then Some([])
    else if |t| < 3 then None
    else match (ReadByte(t), ReadBytes(t[3..], n - 1))
      case (Some(b), Some(bs)) => Some([b] + bs)
      case _ => None
  }

  /** How many bytes a UTF-8 sequence starting with lead byte `b` has (0: not a lead byte). */
  function LeadLength(b: int): nat
  {
    if 0 <= b < 0x80 then 1
    else if 0xC0 <= b < 0xE0 then 2
    else if 0xE0 <= b < 0xF0 then 3
    else if 0xF0 <= b < 0xF8 then 4
    else 0
  }

  function CodePoint(bs: seq<int>): int
  {
    if |bs| == 1 then bs[0]
    else if |bs| == 2 then (bs[0] - 0xC0) * 64 + (bs[1] - 0x80)
    else if |bs| == 3 then (bs[0] - 0xE0) * 4096 + (bs[1] - 0x80) * 64 + (bs[2] - 0x80)
    else if |bs| == 4 then (bs[0] - 0xF0) * 262144 + (bs[1] - 0x80) * 4096 + (bs[2] - 0x80) * 64 + (bs[3] - 0x80)
    else -1
  }

  function DecodeUtf8(bs: seq<int>): Option<char>
  {
    var n := CodePoint(bs);
    if 0 <= n < 0xD800 || 0xE000 <= n < 0x11_0000 then Some(n as char) else None
  }

  /** Decodes a string produced by `Quote`; `None` for anything `Quote` cannot produce a prefix of. */
  function Unquote(t: string): Option<string>
    decreases |t|
  {
    if t == [] then Some([])
    else if t[0] != '%' then
      match Unquote(t[1..])
      case Some(r) => Some([t[0]] + r)
      case None => None
    else match ReadByte(t)
      case None => None
      case Some(b) =>
        var n := LeadLength(b);
        if n == 0 || |t| < 3 * n then None
        else match (ReadBytes(t, n), Unquote(t[3 * n..]))
          case (Some(bs), Some(r)) =>
            (match DecodeUtf8(bs)
             case Some(c) => Some([c] + r)
             case None => None)
          case _ => None
  }

  lemma ReadPercentByte(b: int, rest: string)
    requires IsByte(b)
    ensures ReadByte(PercentByte(b) + rest) == Some(b)
  {
    var t := PercentByte(b) + rest;
    assert t[1] == HexDigit(b / 16) && t[2] == HexDigit(b % 16);
  }

  lemma SplitAfterByte(b: string, bs: string, rest: string)
    requires |b| == 3
    ensures b + bs + rest == b + (bs + rest)
    ensures (b + bs + rest)[3..] == bs + rest
  {
  }

  lemma {:induction false} ReadPercentBytes(bs: seq<int>, rest: string)
    requires forall k :: 0 <= k < |bs| ==> IsByte(bs[k])
    ensures ReadBytes(PercentBytes(bs) + rest, |bs|) == Some(bs)
  {
    if bs != [] {
      var tail := PercentBytes(bs[1..]) + rest;
      SplitAfterByte(PercentByte(bs[0]), PercentBytes(bs[1..]), rest);
      ReadPercentByte(bs[0], tail);
      ReadPercentBytes(bs[1..], rest);
      assert [bs[0]] + bs[1..] == bs;
    }
  }

  lemma CodePointTwo(n: int)
    requires 0x80 <= n < 0x800
    ensures CodePoint([0xC0 + n / 64, 0x80 + n % 64]) == n
  {
    var a, b := n / 64, n % 64;
    assert n == 64 * a + b;
  }

  lemma CodePointThree(n: int)
    requires 0x800 <= n < 0x10000
    ensures CodePoint([0xE0 + n / 4096, 0x80 + (n / 64) % 64, 0x80 + n % 64]) == n
  {
    var q, r := n / 64, n % 64;
    assert n == 64 * q + r;
    var a, b := q / 64, q % 64;
    assert q == 64 * a + b;
    assert n / 4096 == a;
  }

  lemma CodePointFour(n: int)
    requires 0x10000 <= n < 0x11_0000
    ensures CodePoint([0xF0 + n / 262144, 0x80 + (n / 4096) % 64, 0x80 + (n / 64) % 64, 0x80 + n % 64]) == n
  {
    var q, r := n / 64, n % 64;
    assert n == 64 * q + r;
    var q2, r2 := q / 64, q % 64;
    assert q == 64 * q2 + r2;
    assert n / 4096 == q2;
    var a, b := q2 / 64, q2 % 64;
    assert q2 == 64 * a + b;
    assert n / 262144 == a;
  }

  /** UTF-8 decoding inverts UTF-8 encoding, and the lead byte announces the length. */
  lemma Utf8RoundTrip(c: char)
    ensures LeadLength(Utf8(c)[0]) == |Utf8(c)|
    ensures DecodeUtf8(Utf8(c)) == Some(c)
  {
    var n := c as int;
    if n < 0x80 {
    } else if n < 0x800 {
      CodePointTwo(n);
    } else if n < 0x10000 {
      CodePointThree(n);
    } else {
      CodePointFour(n);
    }
  }

  /** One decoding step over a `%`-encoded character. */
  lemma UnquoteStep(t: string, bs: seq<int>, c: char, rest: string)
    requires |bs| >= 1 && |t| >= 3 * |bs|
    requires ReadByte(t) == Some(bs[0]) && LeadLength(bs[0]) == |bs|
    requires ReadBytes(t, |bs|) == Some(bs) && DecodeUtf8(bs) == Some(c)
    requires t[3 * |bs|..] == rest
    ensures Unquote(t) == match Unquote(rest)
      case Some(r) => Some([c] + r)
      case None => None
  {
  }

  lemma UnquoteQuoteChar(c: char, rest: string)
    ensures Unquote(QuoteChar(c) + rest) == match Unquote(rest)
      case Some(r) => Some([c] + r)
      case None => None
  {
    if IsSafe(c) {
      var t := [c] + rest;
      assert t[0] == c && t[1..] == rest;
    } else {
      UnquoteEncodedChar(c, rest);
    }
  }

  lemma UnquoteEncodedChar(c: char, rest: string)
    requires !IsSafe(c)
    ensures Unquote(PercentBytes(Utf8(c)) + rest) == match Unquote(rest)
      case Some(r) => Some([c] + r)
      case None => None
  {
    Utf8RoundTrip(c);
    UnquoteEncodedBytes(Utf8(c), c, rest);
  }

  /** Decoding the `%XX` form of a well-formed UTF-8 sequence yields its character. */
  lemma UnquoteEncodedBytes(bs: seq<int>, c: char, rest: string)
    requires 1 <= |bs| && forall k :: 0 <= k < |bs| ==> IsByte(bs[k])
    requires LeadLength(bs[0]) == |bs| && DecodeUtf8(bs) == Some(c)
    ensures Unquote(PercentBytes(bs) + rest) == match Unquote(rest)
      case Some(r) => Some([c] + r)
      case None => None
  {
    var t := PercentBytes(bs) + rest;
    ReadPercentBytes(bs, rest);
    assert ReadByte(t) == Some(bs[0]);
    assert t[3 * |bs|..] == rest;
    UnquoteStep(t, bs, c, rest);
  }

  /** Round trip: the percent-encoded search text decodes to the original text. */
  lemma {:induction false} UnquoteQuote(s: string)
    ensures Unquote(Quote(s)) == Some(s)
  {
    if s != [] {
      UnquoteQuote(s[1..]);
      UnquoteQuoteChar(s[0], Quote(s[1..]));
      assert [s[0]] + s[1..] == s;
    }
  }

  /** Characters that are already safe are copied unchanged. */
  lemma {:induction false} QuoteSafeUnchanged(s: string)
    requires forall k :: 0 <= k < |s| ==> IsSafe(s[k])
    ensures Quote(s) == s
  {
    if s != [] {
      QuoteSafeUnchanged(s[1..]);
      assert [s[0]] + s[1..] == s;
    }
  }
}

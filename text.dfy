/** The handful of Python `str` operations the core relies on. */
module Text {

  /** `str.isspace()` for one character: the ASCII separators and controls plus the
      Unicode spaces Python treats as whitespace. */
  predicate IsSpace(c: char)
  {
    || '\t' <= c <= '\r'
    || '\U{1C}' <= c <= ' '
    || c == '\U{85}' || c == '\U{A0}' || c == '\U{1680}'
    || '\U{2000}' <= c <= '\U{200A}'
    || c == '\U{2028}' || c == '\U{2029}' || c == '\U{202F}' || c == '\U{205F}' || c == '\U{3000}'
  }

  // The stripping functions are written for any character class `p`; `strip` uses `IsSpace`.

  /** Every character of `s` is in the class `p`. */
  predicate All(s: string, p: char -> bool)
  {
    forall k :: 0 <= k < |s| ==> p(s[k])
  }

  predicate AllSpace(s: string)
  {
    All(s, IsSpace)
  }

  lemma AllCons(s: string, n: nat, p: char -> bool)
    requires 0 < n <= |s| && p(s[0]) && All(s[1..][..n - 1], p)
    ensures All(s[..n], p)
  {
    forall k | 0 < k < n ensures p(s[..n][k]) {
      assert s[..n][k] == s[1..][..n - 1][k - 1];
    }
  }

  lemma AllSnoc(s: string, m: nat, p: char -> bool)
    requires m < |s| && p(s[|s| - 1]) && All(s[..|s| - 1][m..], p)
    ensures All(s[m..], p)
  {
    forall k | 0 <= k < |s| - m - 1 ensures p(s[m..][k]) {
      assert s[m..][k] == s[..|s| - 1][m..][k];
    }
  }

  lemma DropSlice(s: string, m: nat)
    requires 1 <= m <= |s|
    ensures s[1..][m - 1..] == s[m..]
  {
  }

  /** Drops the characters of class `p` at the front. */
  function DropLeading(s: string, p: char -> bool): (r: string)
    ensures |r| <= |s| && r == s[|s| - |r|..]
    ensures All(s[..|s| - |r|], p)
    ensures r == [] || !p(r[0])
  {
    if s != [] && p(s[0]) then
      var r := DropLeading(s[1..], p);
      DropSlice(s, |s| - |r|);
      AllCons(s, |s| - |r|, p);
      r
    else s
  }

  /** Drops the characters of class `p` at the end. */
  function DropTrailing(s: string, p: char -> bool): (r: string)
    ensures |r| <= |s| && r == s[..|r|]
    ensures All(s[|r|..], p)
    ensures r == [] || !p(r[|r| - 1])
  {
    if s != [] && p(s[|s| - 1]) then
      var r := DropTrailing(s[..|s| - 1], p);
      assert s[..|s| - 1][..|r|] == s[..|r|];
      AllSnoc(s, |r|, p);
      r
    else s
  }

  /** How many characters of class `p` lead `s`. */
  function LeadingBy(s: string, p: char -> bool): (n: nat)
    ensures n <= |s|
  {
    |s| - |DropLeading(s, p)|
  }

  /** Drops the characters of class `p` at both ends: the infix that remains neither starts nor
      ends with one of them, and only such characters were dropped. */
  function Trim(s: string, p: char -> bool): (r: string)
    ensures |r| <= |s| - LeadingBy(s, p)
    ensures r == [] || (!p(r[0]) && !p(r[|r| - 1]))
    ensures r == s[LeadingBy(s, p)..LeadingBy(s, p) + |r|]
    ensures All(s[..LeadingBy(s, p)], p) && All(s[LeadingBy(s, p) + |r|..], p)
  {
    var n := LeadingBy(s, p);
    var m := |DropTrailing(s[n..], p)|;
    TrimParts(s, n, DropTrailing(s[n..], p), p);
    s[n..n + m]
  }

  /** What is kept at the end of a suffix of `s`, seen as a slice of `s`. */
  lemma TrimParts(s: string, n: nat, r: string, p: char -> bool)
    requires n <= |s| && |r| <= |s| - n && r == s[n..][..|r|] && All(s[n..][|r|..], p)
    ensures r == s[n..n + |r|] && All(s[n + |r|..], p)
  {
    assert s[n..][|r|..] == s[n + |r|..];
  }

  /** A string that neither starts nor ends with a character of class `p` is left as it is. */
  lemma TrimUnchanged(s: string, p: char -> bool)
    requires s == [] || (!p(s[0]) && !p(s[|s| - 1]))
    ensures Trim(s, p) == s
  {
  }

  /** How many whitespace characters `strip` drops at the front. */
  function Leading(s: string): (n: nat)
    ensures n <= |s|
  {
    LeadingBy(s, IsSpace)
  }

  /** `str.strip()`: the infix of `s` left after dropping leading and trailing whitespace;
      it neither starts nor ends with whitespace, and only whitespace was dropped. */
  function Strip(s: string): (r: string)
    ensures |r| <= |s| - Leading(s)
    ensures r == [] || (!IsSpace(r[0]) && !IsSpace(r[|r| - 1]))
    ensures r == s[Leading(s)..Leading(s) + |r|]
    ensures AllSpace(s[..Leading(s)]) && AllSpace(s[Leading(s) + |r|..])
  {
    Trim(s, IsSpace)
  }

  /** A string without surrounding whitespace is left as it is by `strip`. */
  lemma StripUnchanged(s: string)
    requires s == [] || (!IsSpace(s[0]) && !IsSpace(s[|s| - 1]))
    ensures Strip(s) == s
  {
    TrimUnchanged(s, IsSpace);
  }

  /** `strip` is idempotent. */
  lemma StripIdempotent(s: string)
    ensures Strip(Strip(s)) == Strip(s)
  {
    StripUnchanged(Strip(s));
  }

  /** A line read with its newline strips back to the line when the line has no surrounding
      whitespace. */
  lemma StripLine(s: string)
    requires s != [] && !IsSpace(s[0]) && !IsSpace(s[|s| - 1])
    ensures Strip(s + "\n") == s
  {
    var t := s + "\n";
    assert DropLeading(t, IsSpace) == t;
    assert t[..|t| - 1] == s;
    assert DropTrailing(s, IsSpace) == s;
    assert DropTrailing(t, IsSpace) == s;
  }

  /** Reading a file in text mode with universal newlines: `\r\n` and a lone `\r` become `\n`. */
  function UniversalNewlines(s: string): (t: string)
    ensures '\r' !in t
    ensures |t| <= |s|
  {
    if s == [] then []
    else if s[0] == '\r' then
      if |s| > 1 && s[1] == '\n' then "\n" + UniversalNewlines(s[2..]) else "\n" + UniversalNewlines(s[1..])
    else [s[0]] + UniversalNewlines(s[1..])
  }

  /** Text without carriage returns is read as it is stored. */
  lemma {:induction false} UniversalNewlinesPrefix(a: string, b: string)
    requires '\r' !in a
    ensures UniversalNewlines(a + b) == a + UniversalNewlines(b)
  {
    if a == [] {
      assert a + b == b;
    } else {
      assert a[0] in a;
      assert (a + b)[0] == a[0] != '\r';
      assert (a + b)[1..] == a[1..] + b;
      assert '\r' !in a[1..] by {
        forall k | 0 <= k < |a[1..]| ensures a[1..][k] != '\r' {
          assert a[1..][k] == a[k + 1];
          assert a[k + 1] in a;
        }
      }
      UniversalNewlinesPrefix(a[1..], b);
      assert [a[0]] + (a[1..] + UniversalNewlines(b)) == a + UniversalNewlines(b);
    }
  }

  /** The line ends text mode recognises. */
  predicate IsLineEnd(eol: string)
  {
    eol == "\n" || eol == "\r" || eol == "\r\n"
  }

  /** What follows the line end `eol` once a `\r` has taken a `\n` after it into a `\r\n`. */
  function AfterLineEnd(eol: string, b: string): string
  {
    if eol == "\r" && b != [] && b[0] == '\n' then b[1..] else b
  }

  /** Every line end is read as one `\n`; a `\r` directly followed by `\n` is read as one line end. */
  lemma LineEndRead(eol: string, b: string)
    requires IsLineEnd(eol)
    ensures UniversalNewlines(eol + b) == "\n" + UniversalNewlines(AfterLineEnd(eol, b))
  {
    var s := eol + b;
    if eol == "\n" {
      assert s[0] == '\n' && s[1..] == b;
    } else if eol == "\r" {
      assert s[0] == '\r' && s[1..] == b;
      if |s| > 1 && s[1] == '\n' {
        assert UniversalNewlines(s) == "\n" + UniversalNewlines(s[2..]);
      } else {
        assert UniversalNewlines(s) == "\n" + UniversalNewlines(b);
      }
    } else {
      assert s[0] == '\r' && s[1] == '\n' && s[2..] == b;
    }
  }

  /** `file.readline()` on the unread text `s`, after newline translation: the next line with its
      newline, and what remains. At the end of the file the line is empty. */
  function ReadLine(s: string): (r: (string, string))
    ensures r.0 + r.1 == s
    ensures forall k :: 0 <= k < |r.0| - 1 ==> r.0[k] != '\n'
    ensures r.1 != [] ==> r.0 != [] && r.0[|r.0| - 1] == '\n'
    ensures r.0 == [] <==> s == []
  {
    if s == [] then ([], [])
    else if s[0] == '\n' then ([s[0]], s[1..])
    else
      var (line, rest) := ReadLine(s[1..]);
      ([s[0]] + line, rest)
  }

  /** A line stored with any line end is read back with a `\n`, provided it holds neither `\r` nor
      `\n`; the rest of the file is read from after that line end. */
  lemma ReadLineOfLine(line: string, eol: string, rest: string)
    requires '\n' !in line && '\r' !in line && IsLineEnd(eol)
    ensures ReadLine(UniversalNewlines(line + eol + rest)) ==
      (line + "\n", UniversalNewlines(AfterLineEnd(eol, rest)))
  {
    var t := UniversalNewlines(AfterLineEnd(eol, rest));
    AppendAssoc(line, eol, rest);
    UniversalNewlinesPrefix(line, eol + rest);
    LineEndRead(eol, rest);
    AppendAssoc(line, "\n", t);
    ReadLineOfText(line, t);
  }


  /** A line ended by a newline is read back exactly, whatever follows it. */
  lemma {:induction false} ReadLineOfText(line: string, rest: string)
    requires '\n' !in line
    ensures ReadLine(line + "\n" + rest) == (line + "\n", rest)
  {
    if line != [] {
      var s := line + "\n" + rest;
      assert s[0] == line[0] != '\n';
      assert s[1..] == line[1..] + "\n" + rest;
      ReadLineOfText(line[1..], rest);
      assert [line[0]] + (line[1..] + "\n") == line + "\n";
    }
  }

  /** `str.split(d)` for a one-character separator `d`. */
  function SplitChar(s: string, d: char): (parts: seq<string>)
    ensures |parts| >= 1
    ensures forall i :: 0 <= i < |parts| ==> d !in parts[i]
  {
    if s == [] then [[]]
    else if s[0] == d then [[]] + SplitChar(s[1..], d)
    else
      var p := SplitChar(s[1..], d);
      [[s[0]] + p[0]] + p[1..]
  }

  /** `sep.join(parts)` */
  function Join(parts: seq<string>, sep: string): string
  {
    if |parts| == 0 then []
    else if |parts| == 1 then parts[0]
    else parts[0] + sep + Join(parts[1..], sep)
  }

  /** Splitting a joined list gives the list back when no element holds the separator. */
  lemma {:induction false} SplitJoin(parts: seq<string>, d: char)
    requires |parts| >= 1
    requires forall i :: 0 <= i < |parts| ==> d !in parts[i]
    ensures SplitChar(Join(parts, [d]), d) == parts
  {
    if |parts| == 1 {
      SplitNoSeparator(parts[0], d);
    } else {
      SplitJoin(parts[1..], d);
      SplitAfterFirst(parts[0], Join(parts[1..], [d]), d);
    }
  }

  /** Joining the pieces of a split restores the string. */
  lemma {:induction false} JoinSplit(s: string, d: char)
    ensures Join(SplitChar(s, d), [d]) == s
  {
    if s == [] {
    } else if s[0] == d {
      JoinSplit(s[1..], d);
      assert s == [d] + s[1..];
    } else {
      var p := SplitChar(s[1..], d);
      JoinSplit(s[1..], d);
      if |p| == 1 {
        assert s == [s[0]] + s[1..];
      } else {
        assert Join(p, [d]) == p[0] + [d] + Join(p[1..], [d]);
        assert ([[s[0]] + p[0]] + p[1..])[1..] == p[1..];
        assert s == [s[0]] + s[1..];
      }
    }
  }

  lemma {:induction false} SplitNoSeparator(s: string, d: char)
    requires d !in s
    ensures SplitChar(s, d) == [s]
  {
    if s != [] {
      assert s[0] != d;
      SplitNoSeparator(s[1..], d);
      assert [s[0]] + s[1..] == s;
    }
  }

  lemma {:induction false} SplitAfterFirst(a: string, b: string, d: char)
    requires d !in a
    ensures SplitChar(a + [d] + b, d) == [a] + SplitChar(b, d)
  {
    if a == [] {
      assert (a + [d] + b)[1..] == b;
    } else {
      assert (a + [d] + b)[1..] == a[1..] + [d] + b;
      SplitAfterFirst(a[1..], b, d);
      assert [a[0]] + a[1..] == a;
    }
  }

  /** Splitting at a separator splits each side on its own. */
  lemma {:induction false} SplitAppend(x: string, y: string, d: char)
    ensures SplitChar(x + [d] + y, d) == SplitChar(x, d) + SplitChar(y, d)
  {
    var s := x + [d] + y;
    if x == [] {
      assert s[1..] == y;
    } else {
      assert s[0] == x[0] && s[1..] == x[1..] + [d] + y;
      SplitAppend(x[1..], y, d);
      if x[0] != d {
        SplitConsPart(x[0], SplitChar(x[1..], d), SplitChar(y, d));
      }
    }
  }

  /** Prepending a character to the first part commutes with appending more parts. */
  lemma SplitConsPart(c: char, q: seq<string>, w: seq<string>)
    requires |q| >= 1
    ensures [[c] + (q + w)[0]] + (q + w)[1..] == [[c] + q[0]] + q[1..] + w
  {
    assert (q + w)[1..] == q[1..] + w;
  }

  lemma AppendAssoc(x: string, y: string, z: string)
    ensures x + (y + z) == x + y + z
  {
  }

  /** Three pieces without the separator, joined by it, split back into the three. */
  lemma SplitThree(a: string, b: string, c: string, d: char)
    requires d !in a && d !in b && d !in c
    ensures SplitChar(a + [d] + b + [d] + c, d) == [a, b, c]
  {
    SplitNoSeparator(a, d);
    SplitNoSeparator(b, d);
    SplitNoSeparator(c, d);
    SplitAppend(a, b, d);
    SplitAppend(a + [d] + b, c, d);
  }

  /** The same for four pieces, the last appended as a whole. */
  lemma SplitFour(a: string, b: string, c: string, e: string, d: char)
    requires d !in a && d !in b && d !in c && d !in e
    ensures SplitChar(a + [d] + b + [d] + c + ([d] + e), d) == [a, b, c, e]
  {
    var x := a + [d] + b + [d] + c;
    SplitThree(a, b, c, d);
    SplitNoSeparator(e, d);
    AppendAssoc(x, [d], e);
    SplitAppend(x, e, d);
  }

  /** One `key=value` parameter of a URL query. */
  function Param(key: string, value: string): string
  {
    key + "=" + value
  }

  lemma ParamWithout(key: string, value: string, d: char)
    requires d !in key && d != '=' && d !in value
    ensures d !in Param(key, value)
  {
  }

  /** A query ending in a parameter ends in that parameter's value. */
  lemma EndsWithValue(head: string, key: string, value: string)
    ensures var s := head + Param(key, value); s[|s| - |value|..] == value
  {
    var s := head + Param(key, value);
    assert s == (head + key + "=") + value;
  }

  /** `pat` occurs in `s` (`s.find(pat) >= 0`). */
  predicate Contains(s: string, pat: string)
    decreases |s|
  {
    |pat| <= |s| && (s[..|pat|] == pat || Contains(s[1..], pat))
  }

  /** `Contains` means an occurrence at some position. */
  lemma {:induction false} ContainsAt(s: string, pat: string, i: nat)
    requires i + |pat| <= |s| && s[i..i + |pat|] == pat
    ensures Contains(s, pat)
  {
    if i > 0 {
      assert s[1..][i - 1..i - 1 + |pat|] == s[i..i + |pat|];
      ContainsAt(s[1..], pat, i - 1);
    }
  }

  /** `s.split(sep)` for a non-empty separator: cut at each leftmost non-overlapping occurrence. */
  function SplitOn(s: string, sep: string): (parts: seq<string>)
    requires |sep| > 0
    ensures |parts| >= 1
    decreases |s|
  {
    if |s| < |sep| then [s]
    else if s[..|sep|] == sep then [[]] + SplitOn(s[|sep|..], sep)
    else
      var p := SplitOn(s[1..], sep);
      [[s[0]] + p[0]] + p[1..]
  }

  /** Prepending a character to the first piece prepends it to the joined text. */
  lemma JoinConsHead(c: char, p: seq<string>, sep: string)
    requires |p| >= 1
    ensures Join([[c] + p[0]] + p[1..], sep) == [c] + Join(p, sep)
  {
    var parts := [[c] + p[0]] + p[1..];
    if |p| > 1 {
      assert parts[1..] == p[1..];
      assert Join(parts, sep) == ([c] + p[0]) + sep + Join(p[1..], sep);
    }
  }

  /** Joining the pieces of `s.split(sep)` with `sep` restores `s`. */
  lemma {:induction false} JoinSplitOn(s: string, sep: string)
    requires |sep| > 0
    ensures Join(SplitOn(s, sep), sep) == s
    decreases |s|
  {
    if |s| < |sep| {
    } else if s[..|sep|] == sep {
      JoinSplitOn(s[|sep|..], sep);
      PrefixRest(s, |sep|);
    } else {
      JoinSplitOn(s[1..], sep);
      JoinConsHead(s[0], SplitOn(s[1..], sep), sep);
      PrefixRest(s, 1);
    }
  }

  lemma PrefixRest(s: string, n: nat)
    requires n <= |s|
    ensures s == s[..n] + s[n..]
    ensures n == 1 ==> s == [s[0]] + s[1..]
  {
  }

  predicate IsDigit(c: char)
  {
    '0' <= c <= '9'
  }

  function DigitChar(n: nat): (c: char)
    requires n < 10
    ensures IsDigit(c)
  {
    (('0' as int) + n) as char
  }

  function DigitValue(c: char): nat
    requires IsDigit(c)
  {
    (c as int) - ('0' as int)
  }

  /** `str(n)` / an f-string for a non-negative int: its decimal digits. */
  function NatToString(n: nat): (s: string)
    ensures |s| >= 1
    ensures forall k :: 0 <= k < |s| ==> IsDigit(s[k])
  {
    if n < 10 then [DigitChar(n)] else NatToString(n / 10) + [DigitChar(n % 10)]
  }

  /** `int(s)` for a string of decimal digits. */
  function ParseNat(s: string): nat
    requires forall k :: 0 <= k < |s| ==> IsDigit(s[k])
  {
    if s == [] then 0 else 10 * ParseNat(s[..|s| - 1]) + DigitValue(s[|s| - 1])
  }

  /** The decimal text of a number reads back as that number. */
  lemma {:induction false} ParseNatToString(n: nat)
    ensures ParseNat(NatToString(n)) == n
  {
    if n >= 10 {
      var s := NatToString(n);
      assert s[..|s| - 1] == NatToString(n / 10);
      ParseNatToString(n / 10);
    }
  }
}

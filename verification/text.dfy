/** The JavaScript string operations the core relies on: decimal rendering of
    numbers (`String(n)`), `split` on one character, `join`, `trim`,
    `startsWith`, `endsWith` and `includes`. */
module Text {

  // ---------------------------------------------------------------------
  // Decimal numerals
  // ---------------------------------------------------------------------

  predicate IsDigit(c: char) {
    '0' <= c <= '9'
  }

  predicate AllDigits(s: string) {
    forall i :: 0 <= i < |s| ==> IsDigit(s[i])
  }

  function DigitChar(d: nat): (c: char)
    requires d < 10
    ensures IsDigit(c) && c as int - '0' as int == d
  {
    ('0' as int + d) as char
  }

  /** `String(n)` for a non-negative integer: its shortest decimal numeral. */
  function NatToString(n: nat): (s: string)
    ensures |s| >= 1 && AllDigits(s)
    decreases n
  {
    if n < 10 then [DigitChar(n)] else NatToString(n / 10) + [DigitChar(n % 10)]
  }

  /** The value of a numeral (the inverse of NatToString). */
  function DigitsValue(s: string): nat
    requires AllDigits(s)
  {
    if s == [] then 0
    else DigitsValue(s[..|s| - 1]) * 10 + (s[|s| - 1] as int - '0' as int)
  }

  /** Reading back a rendered number gives the number. */
  lemma {:induction false} DecimalRoundTrip(n: nat)
    ensures DigitsValue(NatToString(n)) == n
    decreases n
  {
    var s := NatToString(n);
    if n >= 10 {
      assert s[..|s| - 1] == NatToString(n / 10);
      DecimalRoundTrip(n / 10);
    }
  }

  /** Different numbers render as different numerals. */
  lemma NatToStringInjective(m: nat, n: nat)
    requires NatToString(m) == NatToString(n)
    ensures m == n
  {
    DecimalRoundTrip(m);
    DecimalRoundTrip(n);
  }

  // ---------------------------------------------------------------------
  // Prefixes, suffixes, infixes
  // ---------------------------------------------------------------------

  predicate StartsWith(s: string, prefix: string) {
    |prefix| <= |s| && s[..|prefix|] == prefix
  }

  predicate EndsWith(s: string, suffix: string) {
    |suffix| <= |s| && s[|s| - |suffix|..] == suffix
  }

  /** `t` occurs in `s` starting at index `k`. */
  predicate OccursAt(s: string, t: string, k: int) {
    0 <= k <= |s| - |t| && s[k..k + |t|] == t
  }

  /** `s.includes(t)`. */
  predicate Contains(s: string, t: string) {
    exists k | 0 <= k <= |s| :: OccursAt(s, t, k)
  }

  /** Whatever is written inside a concatenation is contained in it. */
  lemma ContainsMiddle(a: string, t: string, b: string)
    ensures Contains(a + t + b, t)
  {
    var s := a + t + b;
    assert OccursAt(s, t, |a|);
  }

  // ---------------------------------------------------------------------
  // split, join, trim
  // ---------------------------------------------------------------------

  /** Number of occurrences of `c` in `s`. */
  function Occurrences(s: string, c: char): nat {
    if s == [] then 0 else (if s[0] == c then 1 else 0) + Occurrences(s[1..], c)
  }

  /** `s.split(sep)` for a one-character separator: the maximal separator-free
      pieces, including empty ones, so "" splits into [""]. */
  function Split(s: string, sep: char): (r: seq<string>)
    ensures |r| == Occurrences(s, sep) + 1
    ensures forall i :: 0 <= i < |r| ==> sep !in r[i]
  {
    if s == [] then [""]
    else
      var rest := Split(s[1..], sep);
      if s[0] == sep then [""] + rest
      else [[s[0]] + rest[0]] + rest[1..]
  }

  /** A separator-free prefix is glued to the first piece. */
  lemma {:induction false} SplitPrefix(pre: string, s: string, sep: char)
    requires sep !in pre
    ensures Split(pre + s, sep) == [pre + Split(s, sep)[0]] + Split(s, sep)[1..]
  {
    if pre != [] {
      assert (pre + s)[1..] == pre[1..] + s;
      SplitPrefix(pre[1..], s, sep);
      assert [pre[0]] + (pre[1..] + Split(s, sep)[0]) == pre + Split(s, sep)[0];
    } else {
      assert pre + s == s;
      assert pre + Split(s, sep)[0] == Split(s, sep)[0];
      assert Split(s, sep) == [Split(s, sep)[0]] + Split(s, sep)[1..];
    }
  }

  /** A separator-free string followed by the separator is one whole piece. */
  lemma SplitAtSeparator(a: string, b: string, sep: char)
    requires sep !in a
    ensures Split(a + [sep] + b, sep) == [a] + Split(b, sep)
  {
    assert a + [sep] + b == a + ([sep] + b);
    SplitPrefix(a, [sep] + b, sep);
    assert ([sep] + b)[1..] == b;
    assert Split([sep] + b, sep) == [""] + Split(b, sep);
    assert a + "" == a;
  }

  /** `parts.join(sep)`: the parts in order with `sep` between neighbours. */
  function Join(parts: seq<string>, sep: string): (r: string)
    ensures parts == [] ==> r == ""
    ensures parts != [] ==> StartsWith(r, parts[0]) && EndsWith(r, parts[|parts| - 1])
  {
    if parts == [] then ""
    else if |parts| == 1 then parts[0]
    else
      var last := parts[|parts| - 1];
      var rest := Join(parts[1..], sep);
      assert parts[1..][|parts[1..]| - 1] == last;
      JoinEnds(parts[0], sep, rest, last);
      parts[0] + sep + rest
  }

  lemma JoinEnds(first: string, sep: string, rest: string, last: string)
    requires EndsWith(rest, last)
    ensures StartsWith(first + sep + rest, first) && EndsWith(first + sep + rest, last)
  {
    var r := first + sep + rest;
    assert r[..|first|] == first;
    assert r[|r| - |last|..] == rest[|rest| - |last|..];
  }

  /** Prefixing the first part prefixes the joined string. */
  lemma JoinPrefixFirst(a: string, parts: seq<string>, sep: string)
    requires parts != []
    ensures Join([a + parts[0]] + parts[1..], sep) == a + Join(parts, sep)
  {
    var q := [a + parts[0]] + parts[1..];
    assert q[0] == a + parts[0] && q[1..] == parts[1..] && |q| == |parts|;
    if |parts| == 1 {
      assert Join(q, sep) == q[0];
    } else {
      assert Join(q, sep) == q[0] + sep + Join(parts[1..], sep);
      assert Join(parts, sep) == parts[0] + sep + Join(parts[1..], sep);
    }
  }

  /** Joining the pieces of a split with the separator gives the string back. */
  lemma {:induction false} JoinSplit(s: string, sep: char)
    ensures Join(Split(s, sep), [sep]) == s
  {
    if s != [] {
      var rest := Split(s[1..], sep);
      JoinSplit(s[1..], sep);
      if s[0] == sep {
        assert ([""] + rest)[1..] == rest;
        assert Join([""] + rest, [sep]) == "" + [sep] + Join(rest, [sep]);
        assert [s[0]] + s[1..] == s;
      } else {
        JoinPrefixFirst([s[0]], rest, [sep]);
        assert [s[0]] + s[1..] == s;
      }
    }
  }

  /** The characters `String.prototype.trim` removes: the ECMAScript WhiteSpace
      and LineTerminator code points. */
  predicate IsWhitespace(c: char) {
    c == '\t' || c == '\n' || c == '\U{000B}' || c == '\U{000C}' || c == '\r' ||
    c == ' ' || c == '\U{00A0}' || c == '\U{1680}' ||
    ('\U{2000}' <= c <= '\U{200A}') ||
    c == '\U{2028}' || c == '\U{2029}' || c == '\U{202F}' || c == '\U{205F}' ||
    c == '\U{3000}' || c == '\U{FEFF}'
  }

  /** No whitespace at either end. */
  predicate IsTrimmed(s: string) {
    s == [] || (!IsWhitespace(s[0]) && !IsWhitespace(s[|s| - 1]))
  }

  predicate AllWhitespace(s: string) {
    forall i :: 0 <= i < |s| ==> IsWhitespace(s[i])
  }

  /** `t` sits at index `k` of `s` with only whitespace before and after it. */
  predicate WhitespaceAround(s: string, t: string, k: int) {
    OccursAt(s, t, k) && AllWhitespace(s[..k]) && AllWhitespace(s[k + |t|..])
  }

  function TrimStart(s: string): (r: string)
    ensures r == [] || !IsWhitespace(r[0])
    ensures EndsWith(s, r)
    ensures AllWhitespace(s[..|s| - |r|])
  {
    if s != [] && IsWhitespace(s[0]) then
      var r := TrimStart(s[1..]);
      assert s[|s| - |r|..] == s[1..][|s[1..]| - |r|..];
      assert s[..|s| - |r|] == [s[0]] + s[1..][..|s[1..]| - |r|];
      r
    else s
  }

  function TrimEnd(s: string): (r: string)
    ensures r == [] || !IsWhitespace(r[|r| - 1])
    ensures StartsWith(s, r)
    ensures AllWhitespace(s[|r|..])
  {
    if s != [] && IsWhitespace(s[|s| - 1]) then
      var r := TrimEnd(s[..|s| - 1]);
      assert s[..|r|] == s[..|s| - 1][..|r|];
      assert s[|r|..] == s[..|s| - 1][|r|..] + [s[|s| - 1]];
      r
    else s
  }

  /** `s.trim()`: the input with all whitespace removed from both ends, so
      what is left has no whitespace at either end and only whitespace
      surrounded it. */
  function Trim(s: string): (r: string)
    ensures IsTrimmed(r)
    ensures exists k :: WhitespaceAround(s, r, k)
  {
    var t := TrimStart(s);
    var r := TrimEnd(t);
    var k := |s| - |t|;
    assert r == [] || r[0] == t[0];
    assert s[k..k + |r|] == t[..|r|] == r;
    assert s[k + |r|..] == t[|r|..];
    assert WhitespaceAround(s, r, k);
    r
  }

  /** Trimming only drops characters from the two ends. */
  lemma TrimResult(s: string)
    ensures IsTrimmed(Trim(s))
    ensures Contains(s, Trim(s))
  {
    var k :| WhitespaceAround(s, Trim(s), k);
    assert OccursAt(s, Trim(s), k);
  }

  lemma {:induction false} TrimStartPadded(pad: string, x: string)
    requires AllWhitespace(pad)
    requires x == [] || !IsWhitespace(x[0])
    ensures TrimStart(pad + x) == x
  {
    if pad == [] {
      assert pad + x == x;
    } else {
      assert (pad + x)[1..] == pad[1..] + x;
      TrimStartPadded(pad[1..], x);
    }
  }

  lemma {:induction false} TrimEndPadded(x: string, pad: string)
    requires AllWhitespace(pad)
    requires x == [] || !IsWhitespace(x[|x| - 1])
    ensures TrimEnd(x + pad) == x
  {
    if pad == [] {
      assert x + pad == x;
    } else {
      var shorter := pad[..|pad| - 1];
      assert (x + pad)[..|x + pad| - 1] == x + shorter;
      TrimEndPadded(x, shorter);
    }
  }

  /** The converse of Trim's contract: a string without whitespace at its
      ends, surrounded only by whitespace, is what trimming gives. */
  lemma TrimUnique(s: string, t: string, k: int)
    requires IsTrimmed(t) && WhitespaceAround(s, t, k)
    ensures Trim(s) == t
  {
    var before, after := s[..k], s[k + |t|..];
    assert s == before + (t + after);
    if t == [] {
      assert AllWhitespace(before + after) by {
        assert before + (t + after) == before + after;
      }
      TrimStartPadded(before + after, "");
      assert before + after + "" == s;
    } else {
      TrimStartPadded(before, t + after);
      TrimEndPadded(t, after);
    }
  }

  /** Trimming a trimmed string changes nothing, and leading whitespace is
      discarded. */
  lemma TrimPadded(pad: string, s: string)
    requires AllWhitespace(pad)
    requires IsTrimmed(s)
    ensures Trim(pad + s) == s
  {
    assert (pad + s)[|pad|..|pad| + |s|] == s;
    assert (pad + s)[..|pad|] == pad;
    assert (pad + s)[|pad| + |s|..] == [];
    TrimUnique(pad + s, s, |pad|);
  }

  /** What a string contains, any string around it contains too. */
  lemma ContainsWithin(a: string, s: string, b: string, t: string)
    requires Contains(s, t)
    ensures Contains(a + s + b, t)
  {
    var k :| 0 <= k <= |s| && OccursAt(s, t, k);
    assert (a + s + b)[|a| + k..|a| + k + |t|] == s[k..k + |t|];
    assert OccursAt(a + s + b, t, |a| + k);
  }

  /** Every part of a join is contained in the joined string. */
  lemma {:induction false} JoinContainsPart(parts: seq<string>, sep: string, t: string)
    requires t in parts
    ensures Contains(Join(parts, sep), t)
  {
    if |parts| == 1 {
      ContainsMiddle("", t, "");
      assert "" + t + "" == t;
    } else if parts[0] == t {
      ContainsMiddle("", t, sep + Join(parts[1..], sep));
      assert "" + t + (sep + Join(parts[1..], sep)) == Join(parts, sep);
    } else {
      JoinContainsPart(parts[1..], sep, t);
      ContainsWithin(parts[0] + sep, Join(parts[1..], sep), "", t);
      assert parts[0] + sep + Join(parts[1..], sep) + "" == Join(parts, sep);
    }
  }

  /** The length of the longest all-digit prefix. */
  function LeadingDigits(s: string): nat {
    if s != [] && IsDigit(s[0]) then 1 + LeadingDigits(s[1..]) else 0
  }

  lemma {:induction false} LeadingDigitsOf(d: string, x: string)
    requires AllDigits(d)
    requires x == [] || !IsDigit(x[0])
    ensures LeadingDigits(d + x) == |d|
  {
    if d == [] {
      assert d + x == x;
    } else {
      assert (d + x)[1..] == d[1..] + x;
      LeadingDigitsOf(d[1..], x);
    }
  }

  /** A numeral followed by a string that does not start with a digit can be
      read back unambiguously: two such concatenations are equal only if their
      numerals are. */
  lemma DigitRunUnique(d1: string, x1: string, d2: string, x2: string)
    requires AllDigits(d1) && AllDigits(d2)
    requires x1 == [] || !IsDigit(x1[0])
    requires x2 == [] || !IsDigit(x2[0])
    requires d1 + x1 == d2 + x2
    ensures d1 == d2 && x1 == x2
  {
    var c := d1 + x1;
    LeadingDigitsOf(d1, x1);
    LeadingDigitsOf(d2, x2);
    assert d1 == c[..|d1|] == d2;
    assert x1 == c[|d1|..] == x2;
  }
}

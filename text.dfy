/**
 * The Python `str` primitives the retrieval core relies on, over `seq<char>`:
 * whitespace, `strip`, `split()`, `split(sep)`, `sep.join`, `replace`,
 * `lower`, `startswith`/`endswith` and `str(int)`.
 */
module Text {

  /** Python's `str.isspace` for one code point (the exact set CPython uses). */
  predicate IsSpace(c: char) {
    var k := c as int;
    (9 <= k <= 13) || (28 <= k <= 32) || k == 0x85 || k == 0xA0 || k == 0x1680
    || (0x2000 <= k <= 0x200A) || k == 0x2028 || k == 0x2029 || k == 0x202F
    || k == 0x205F || k == 0x3000
  }

  /** `s` holds at least one character that is not whitespace. */
  predicate HasVisible(s: string) {
    exists i :: 0 <= i < |s| && !IsSpace(s[i])
  }

  /** A word of `str.split()`: non-empty, without whitespace. */
  predicate IsWord(w: string) {
    w != [] && forall i :: 0 <= i < |w| ==> !IsSpace(w[i])
  }

  lemma HasVisibleConcat(a: string, b: string)
    ensures HasVisible(a + b) <==> HasVisible(a) || HasVisible(b)
  {
    if HasVisible(a + b) {
      var i :| 0 <= i < |a + b| && !IsSpace((a + b)[i]);
      if i >= |a| {
        assert b[i - |a|] == (a + b)[i];
      }
    }
    if HasVisible(a) {
      var i :| 0 <= i < |a| && !IsSpace(a[i]);
      assert (a + b)[i] == a[i];
    }
    if HasVisible(b) {
      var i :| 0 <= i < |b| && !IsSpace(b[i]);
      assert (a + b)[|a| + i] == b[i];
    }
  }

  // ---------------------------------------------------------------------------
  // strip

  /** Drops the leading characters that satisfy `drop`. */
  function TrimStart(s: string, drop: char -> bool): (r: string)
    ensures |r| <= |s| && r == s[|s| - |r|..]
    ensures r != [] ==> !drop(r[0])
    ensures forall i :: 0 <= i < |s| - |r| ==> drop(s[i])
  {
    if s != [] && drop(s[0]) then TrimStart(s[1..], drop) else s
  }

  /** Drops the trailing characters that satisfy `drop`. */
  function TrimEnd(s: string, drop: char -> bool): (r: string)
    ensures |r| <= |s| && r == s[..|r|]
    ensures r != [] ==> !drop(r[|r| - 1])
    ensures forall i :: |r| <= i < |s| ==> drop(s[i])
  {
    if s != [] && drop(s[|s| - 1]) then TrimEnd(s[..|s| - 1], drop) else s
  }

  /** Python's `s.strip(chars)`, with `drop` telling which characters are in `chars`. */
  function StripBy(s: string, drop: char -> bool): (r: string)
    ensures r != [] ==> !drop(r[0]) && !drop(r[|r| - 1])
    ensures r == [] <==> forall i :: 0 <= i < |s| ==> drop(s[i])
  {
    var t := TrimStart(s, drop);
    var r := TrimEnd(t, drop);
    assert t != [] ==> t[0] == s[|s| - |t|];
    r
  }

  /** Python's `s.strip()`: whitespace removed from both ends. */
  function Strip(s: string): (r: string)
    ensures r != [] ==> !IsSpace(r[0]) && !IsSpace(r[|r| - 1])
    ensures r == [] <==> !HasVisible(s)
  {
    StripBy(s, IsSpace)
  }

  /** Python's `s.strip(q)` for a one-character argument. */
  function StripChar(s: string, q: char): (r: string)
    ensures r != [] ==> r[0] != q && r[|r| - 1] != q
    ensures r == [] <==> forall i :: 0 <= i < |s| ==> s[i] == q
  {
    StripBy(s, c => c == q)
  }

  /** A text whose ends are kept is its own strip. */
  lemma StripByKeeps(s: string, drop: char -> bool)
    requires s != [] ==> !drop(s[0]) && !drop(s[|s| - 1])
    ensures StripBy(s, drop) == s
  {
    assert TrimStart(s, drop) == s;
    assert TrimEnd(s, drop) == s;
  }

  /** Stripping adds no character: it keeps a slice. */
  lemma StripByOmits(s: string, drop: char -> bool, c: char)
    requires c !in s
    ensures c !in StripBy(s, drop)
  {
    var t := TrimStart(s, drop);
    var r := TrimEnd(t, drop);
    assert forall i :: 0 <= i < |r| ==> r[i] == s[|s| - |t| + i];
  }

  /** A text with no whitespace at either end is its own `strip()`. */
  lemma StripKeeps(s: string)
    requires s != [] ==> !IsSpace(s[0]) && !IsSpace(s[|s| - 1])
    ensures Strip(s) == s
  {
    StripByKeeps(s, IsSpace);
  }

  /** A text that neither starts nor ends with `q` is its own `strip(q)`. */
  lemma StripCharKeeps(s: string, q: char)
    requires s != [] ==> s[0] != q && s[|s| - 1] != q
    ensures StripChar(s, q) == s
  {
    StripByKeeps(s, c => c == q);
  }

  /** `strip` and `strip(q)` add no character. */
  lemma StripOmits(s: string, q: char, c: char)
    requires c !in s
    ensures c !in Strip(s) && c !in StripChar(s, q)
  {
    StripByOmits(s, IsSpace, c);
    StripByOmits(s, x => x == q, c);
  }

  lemma StripByIdempotent(s: string, drop: char -> bool)
    ensures StripBy(StripBy(s, drop), drop) == StripBy(s, drop)
  {
    var r := StripBy(s, drop);
    assert TrimStart(r, drop) == r;
    assert TrimEnd(r, drop) == r;
  }

  /** Stripping twice is stripping once: a stripped text is its own `strip()`. */
  lemma StripIdempotent(s: string)
    ensures Strip(Strip(s)) == Strip(s)
  {
    StripByIdempotent(s, IsSpace);
  }

  // ---------------------------------------------------------------------------
  // split() on runs of whitespace

  /** The longest prefix of `s` without whitespace. */
  function TakeWord(s: string): (w: string)
    ensures |w| <= |s| && w == s[..|w|]
    ensures forall i :: 0 <= i < |w| ==> !IsSpace(w[i])
    ensures |w| < |s| ==> IsSpace(s[|w|])
    ensures s != [] && !IsSpace(s[0]) ==> w != []
  {
    if s == [] || IsSpace(s[0]) then [] else [s[0]] + TakeWord(s[1..])
  }

  /** Python's `s.split()`: the maximal runs of non-whitespace characters, in order. */
  function Words(s: string): (ws: seq<string>)
    ensures forall k :: 0 <= k < |ws| ==> IsWord(ws[k])
    ensures ws == [] <==> !HasVisible(s)
    decreases |s|
  {
    if s == [] then []
    else if IsSpace(s[0]) then
      var ws := Words(s[1..]);
      assert HasVisible(s) <==> HasVisible(s[1..]) by {
        assert s == [s[0]] + s[1..];
        HasVisibleConcat([s[0]], s[1..]);
      }
      ws
    else
      var w := TakeWord(s);
      [w] + Words(s[|w|..])
  }

  // ---------------------------------------------------------------------------
  // sep.join, split(sep), replace

  /** Python's `sep.join(parts)`. */
  function Join(parts: seq<string>, sep: string): string {
    if |parts| == 0 then []
    else if |parts| == 1 then parts[0]
    else parts[0] + sep + Join(parts[1..], sep)
  }

  /** Python's `s.split(sep)` for a non-empty `sep`: cut at each leftmost match, left to right. */
  function SplitOn(s: string, sep: string): (parts: seq<string>)
    requires sep != []
    ensures |parts| >= 1
    ensures Join(parts, sep) == s
    decreases |s|
  {
    if |s| < |sep| then [s]
    else if s[..|sep|] == sep then
      var rest := SplitOn(s[|sep|..], sep);
      assert ([[]] + rest)[1..] == rest;
      assert s == sep + s[|sep|..];
      [[]] + rest
    else
      var rest := SplitOn(s[1..], sep);
      var parts := [[s[0]] + rest[0]] + rest[1..];
      assert parts[1..] == rest[1..];
      assert s == [s[0]] + s[1..];
      parts
  }

  /** A text without the one-character separator is not cut. */
  lemma {:induction false} SplitOnAbsent(s: string, c: char)
    requires c !in s
    ensures SplitOn(s, [c]) == [s]
    decreases |s|
  {
    if |s| >= 1 {
      assert s[..1] != [c] by { assert s[0] in s; }
      SplitOnAbsent(s[1..], c);
      assert [s[0]] + s[1..] == s;
    }
  }

  /** A first part without the separator, then the separator, splits off that part. */
  lemma {:induction false} SplitOnFirst(a: string, c: char, rest: string)
    requires c !in a
    ensures SplitOn(a + [c] + rest, [c]) == [a] + SplitOn(rest, [c])
    decreases |a|
  {
    var s := a + [c] + rest;
    if a == [] {
      assert s[..1] == [c] && s[1..] == rest;
    } else {
      assert s[..1] != [c] by { assert s[0] == a[0] && a[0] in a; }
      assert s[1..] == a[1..] + [c] + rest;
      SplitOnFirst(a[1..], c, rest);
      assert [a[0]] + a[1..] == a;
    }
  }

  /** `split(c)` undoes `c.join` when no part holds `c`. */
  lemma {:induction false} SplitJoin(parts: seq<string>, c: char)
    requires parts != []
    requires forall k :: 0 <= k < |parts| ==> c !in parts[k]
    ensures SplitOn(Join(parts, [c]), [c]) == parts
  {
    if |parts| == 1 {
      SplitOnAbsent(parts[0], c);
    } else {
      SplitJoin(parts[1..], c);
      SplitOnFirst(parts[0], c, Join(parts[1..], [c]));
      assert [parts[0]] + parts[1..] == parts;
    }
  }

  /** No part of `split(c)` holds `c`. */
  lemma {:induction false} SplitOnOmits(s: string, c: char)
    ensures forall k :: 0 <= k < |SplitOn(s, [c])| ==> c !in SplitOn(s, [c])[k]
    decreases |s|
  {
    if |s| < 1 {
    } else if s[..1] == [c] {
      SplitOnOmits(s[1..], c);
    } else {
      SplitOnOmits(s[1..], c);
      assert s[0] != c by { assert s[..1] == [s[0]]; }
    }
  }

  /** Python's `s.replace(pattern, replacement)` for a non-empty `pattern`. */
  function Replace(s: string, pattern: string, replacement: string): string
    requires pattern != []
  {
    Join(SplitOn(s, pattern), replacement)
  }

  /** A joined text shows a non-whitespace character exactly when a part, or a separator that is used, does. */
  lemma {:induction false} JoinVisible(parts: seq<string>, sep: string)
    ensures HasVisible(Join(parts, sep)) <==>
      (exists k :: 0 <= k < |parts| && HasVisible(parts[k])) || (|parts| > 1 && HasVisible(sep))
  {
    if |parts| > 1 {
      JoinVisible(parts[1..], sep);
      HasVisibleConcat(parts[0] + sep, Join(parts[1..], sep));
      HasVisibleConcat(parts[0], sep);
      if exists k :: 0 <= k < |parts| && HasVisible(parts[k]) {
        var k :| 0 <= k < |parts| && HasVisible(parts[k]);
        if k > 0 {
          assert parts[1..][k - 1] == parts[k];
        }
      }
      if exists k :: 0 <= k < |parts[1..]| && HasVisible(parts[1..][k]) {
        var k :| 0 <= k < |parts[1..]| && HasVisible(parts[1..][k]);
        assert parts[k + 1] == parts[1..][k];
      }
    }
  }

  /** Replacing one all-whitespace text by another neither creates nor removes visible characters. */
  lemma ReplaceVisible(s: string, pattern: string, replacement: string)
    requires pattern != [] && !HasVisible(pattern) && !HasVisible(replacement)
    ensures HasVisible(Replace(s, pattern, replacement)) <==> HasVisible(s)
  {
    var parts := SplitOn(s, pattern);
    JoinVisible(parts, pattern);
    JoinVisible(parts, replacement);
  }

  // ---------------------------------------------------------------------------
  // lower, startswith, endswith

  /** Python's `str.lower` on one character, for the ASCII letters. */
  function LowerChar(c: char): char {
    if 'A' <= c <= 'Z' then (c as int + 32) as char else c
  }

  /** Python's `s.lower()` (and `s.casefold()`), restricted to ASCII letters. */
  function Lower(s: string): (r: string)
    ensures |r| == |s|
  {
    seq(|s|, i requires 0 <= i < |s| => LowerChar(s[i]))
  }

  /** Lower-casing is idempotent: a lower-cased text has no upper-case ASCII letter left. */
  lemma LowerIdempotent(s: string)
    ensures Lower(Lower(s)) == Lower(s)
  {
    forall i | 0 <= i < |s| ensures LowerChar(LowerChar(s[i])) == LowerChar(s[i]) {
      var c := s[i];
      if 'A' <= c <= 'Z' {
        assert 'a' <= LowerChar(c) <= 'z';
      }
    }
  }

  /** Python's `s.startswith(p)`. */
  predicate StartsWith(s: string, p: string) {
    |p| <= |s| && s[..|p|] == p
  }

  /** Python's `s.endswith(p)`. */
  predicate EndsWith(s: string, p: string) {
    |p| <= |s| && s[|s| - |p|..] == p
  }

  // ---------------------------------------------------------------------------
  // str(int)

  function DigitChar(d: nat): char
    requires d < 10
  {
    ('0' as int + d) as char
  }

  predicate IsDigits(s: string) {
    forall i :: 0 <= i < |s| ==> '0' <= s[i] <= '9'
  }

  /** Python's `str(n)` for a non-negative integer: its decimal digits, no leading zero. */
  function NatToString(n: nat): (r: string)
    ensures r != [] && IsDigits(r)
    ensures |r| > 1 ==> r[0] != '0'
    decreases n
  {
    if n < 10 then [DigitChar(n)] else NatToString(n / 10) + [DigitChar(n % 10)]
  }

  /** The number a string of decimal digits denotes. */
  function DigitsValue(s: string): nat
    requires IsDigits(s)
  {
    if s == [] then 0 else DigitsValue(s[..|s| - 1]) * 10 + (s[|s| - 1] as int - '0' as int)
  }

  /** Reading back the decimal text of `n` gives `n`. */
  lemma {:induction false} DecimalRoundTrip(n: nat)
    ensures DigitsValue(NatToString(n)) == n
  {
    if n >= 10 {
      DecimalRoundTrip(n / 10);
      var r := NatToString(n);
      assert r[..|r| - 1] == NatToString(n / 10);
    }
  }

  /** Distinct numbers have distinct decimal texts. */
  lemma NatToStringInjective(m: nat, n: nat)
    requires m != n
    ensures NatToString(m) != NatToString(n)
  {
    DecimalRoundTrip(m);
    DecimalRoundTrip(n);
  }

  /** A common prefix cancels. */
  lemma PrefixCancel(p: string, a: string, b: string)
    requires p + a == p + b
    ensures a == b
  {
    assert a == (p + a)[|p|..];
    assert b == (p + b)[|p|..];
  }
}

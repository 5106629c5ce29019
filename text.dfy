/**
 * String helpers with the meaning the Java and TypeScript sources give them:
 * decimal rendering of ids (`Long.toString`), `startsWith`/`endsWith`/`contains`,
 * `String.trim`, `String.isBlank`, ASCII case folding and `Collectors.joining`.
 */
module Text {

  predicate IsDigit(c: char)
  {
    '0' <= c <= '9'
  }

  predicate AllDigits(s: string)
  {
    forall i :: 0 <= i < |s| ==> IsDigit(s[i])
  }

  function DigitChar(d: nat): (c: char)
    requires d < 10
    ensures IsDigit(c) && c as int - '0' as int == d
  {
    (d + '0' as int) as char
  }

  /** `Long.toString(n)` for a non-negative id. */
  function NatToString(n: nat): (s: string)
    ensures |s| >= 1 && AllDigits(s)
    decreases n
  {
    if n < 10 then [DigitChar(n)] else NatToString(n / 10) + [DigitChar(n % 10)]
  }

  /** The value of a string of decimal digits (the inverse of NatToString). */
  function DigitsValue(s: string): nat
    requires AllDigits(s)
  {
    if s == [] then 0 else DigitsValue(s[..|s| - 1]) * 10 + (s[|s| - 1] as int - '0' as int)
  }

  lemma {:induction false} NatToStringRoundTrip(n: nat)
    ensures DigitsValue(NatToString(n)) == n
    decreases n
  {
    var s := NatToString(n);
    if n >= 10 {
      NatToStringRoundTrip(n / 10);
      assert s[..|s| - 1] == NatToString(n / 10);
    }
  }

  lemma NatToStringInjective(a: nat, b: nat)
    ensures NatToString(a) == NatToString(b) <==> a == b
  {
    if NatToString(a) == NatToString(b) {
      NatToStringRoundTrip(a);
      NatToStringRoundTrip(b);
    }
  }

  /** `Integer.toString(i)` for a possibly negative number. */
  function IntToString(i: int): (s: string)
    ensures |s| >= 1
    ensures i >= 0 <==> AllDigits(s)
  {
    if i < 0 then
      var r := "-" + NatToString(-i);
      assert !IsDigit(r[0]);
      r
    else NatToString(i)
  }

  lemma IntToStringInjective(a: int, b: int)
    ensures IntToString(a) == IntToString(b) <==> a == b
  {
    if IntToString(a) == IntToString(b) {
      if a < 0 && b < 0 {
        assert IntToString(a)[1..] == NatToString(-a);
        assert IntToString(b)[1..] == NatToString(-b);
        NatToStringInjective(-a, -b);
      } else if a >= 0 && b >= 0 {
        NatToStringInjective(a, b);
      }
    }
  }

  /** The index of the first character of `s` that belongs to `cs`, or |s| when there is none. */
  function IndexOfFirstIn(s: string, cs: set<char>): (k: nat)
    ensures k <= |s|
  {
    if s == [] then 0 else if s[0] in cs then 0 else 1 + IndexOfFirstIn(s[1..], cs)
  }

  lemma {:induction false} IndexOfFirstInAfterHead(x: string, u: string, cs: set<char>)
    requires forall i :: 0 <= i < |x| ==> x[i] !in cs
    requires |u| >= 1 && u[0] in cs
    ensures IndexOfFirstIn(x + u, cs) == |x|
    decreases |x|
  {
    if x != [] {
      assert (x + u)[1..] == x[1..] + u;
      IndexOfFirstInAfterHead(x[1..], u, cs);
    }
  }

  /**
   * Two strings made of a head free of the characters `cs` followed by a tail that
   * starts with one of them split the same way. This is what makes the "a:b"-shaped
   * store keys and the "A12"-shaped seat names injective.
   */
  lemma SplitAtFirstIn(x: string, u: string, y: string, v: string, cs: set<char>)
    requires forall i :: 0 <= i < |x| ==> x[i] !in cs
    requires forall i :: 0 <= i < |y| ==> y[i] !in cs
    requires |u| >= 1 && u[0] in cs && |v| >= 1 && v[0] in cs
    requires x + u == y + v
    ensures x == y && u == v
  {
    IndexOfFirstInAfterHead(x, u, cs);
    IndexOfFirstInAfterHead(y, v, cs);
    assert x == (x + u)[..|x|];
    assert y == (y + v)[..|y|];
    assert u == (x + u)[|x|..];
    assert v == (y + v)[|y|..];
  }

  const DigitChars: set<char> := {'0', '1', '2', '3', '4', '5', '6', '7', '8', '9'}

  lemma DigitCharsAreDigits(c: char)
    ensures c in DigitChars <==> IsDigit(c)
  {
  }

  predicate StartsWith(s: string, prefix: string)
  {
    |prefix| <= |s| && s[..|prefix|] == prefix
  }

  predicate EndsWith(s: string, suffix: string)
  {
    |suffix| <= |s| && s[|s| - |suffix|..] == suffix
  }

  /** `t` occurs in `s` starting at index `i`. */
  predicate OccursAt(s: string, t: string, i: int)
  {
    0 <= i <= |s| - |t| && s[i..i + |t|] == t
  }

  /** `s.contains(t)`: `t` occurs at some position of `s`. */
  predicate Contains(s: string, t: string)
  {
    exists i :: 0 <= i <= |s| - |t| && OccursAt(s, t, i)
  }

  /** `String.trim` strips every leading and trailing character at or below U+0020. */
  predicate IsTrimmable(c: char)
  {
    c <= ' '
  }

  function TrimStart(s: string): (r: string)
    ensures |r| <= |s| && r == s[|s| - |r|..]
    ensures r == [] || !IsTrimmable(r[0])
    ensures forall i :: 0 <= i < |s| - |r| ==> IsTrimmable(s[i])
  {
    if s != [] && IsTrimmable(s[0]) then TrimStart(s[1..]) else s
  }

  function TrimEnd(s: string): (r: string)
    ensures |r| <= |s| && r == s[..|r|]
    ensures r == [] || !IsTrimmable(r[|r| - 1])
    ensures forall i :: |r| <= i < |s| ==> IsTrimmable(s[i])
  {
    if s != [] && IsTrimmable(s[|s| - 1]) then TrimEnd(s[..|s| - 1]) else s
  }

  /** `String.trim()`. */
  function Trim(s: string): (r: string)
  {
    TrimEnd(TrimStart(s))
  }

  /** The result of `trim` is a contiguous piece of its input with no trimmable end. */
  lemma TrimSpec(s: string)
    ensures var r := Trim(s);
      |r| <= |s| && (r == [] || (!IsTrimmable(r[0]) && !IsTrimmable(r[|r| - 1])))
      && exists k :: OccursAt(s, r, k)
  {
    var t := TrimStart(s);
    var r := TrimEnd(t);
    var k := |s| - |t|;
    if r != [] {
      assert r[0] == t[0];
    }
    assert OccursAt(s, r, k) by {
      assert s[k..k + |r|] == t[..|r|];
    }
  }

  /** A string that already has no trimmable end is its own trim. */
  lemma TrimOfTrimmed(s: string)
    requires s == [] || (!IsTrimmable(s[0]) && !IsTrimmable(s[|s| - 1]))
    ensures Trim(s) == s
  {
  }

  /** `Character.isWhitespace`: the ASCII separators and the Unicode space, line and
    * paragraph separators other than the non-breaking ones. */
  predicate IsJavaWhitespace(c: char)
  {
    c == ' ' || ('\t' <= c <= '\r') || ('\U{1C}' <= c <= '\U{1F}')
    || c == '\U{1680}' || ('\U{2000}' <= c <= '\U{2006}') || ('\U{2008}' <= c <= '\U{200A}')
    || c == '\U{2028}' || c == '\U{2029}' || c == '\U{205F}' || c == '\U{3000}'
  }

  /** `String.isBlank()`. */
  predicate IsBlank(s: string)
  {
    forall i :: 0 <= i < |s| ==> IsJavaWhitespace(s[i])
  }

  function ToLowerChar(c: char): char
  {
    if 'A' <= c <= 'Z' then (c as int + 32) as char else c
  }

  /** `toLowerCase()` on ASCII letters; other characters are kept. */
  function ToLower(s: string): (r: string)
    ensures |r| == |s|
    ensures forall i :: 0 <= i < |s| ==> r[i] == ToLowerChar(s[i])
  {
    if s == [] then [] else [ToLowerChar(s[0])] + ToLower(s[1..])
  }

  /** `equalsIgnoreCase` on ASCII letters. */
  predicate EqualsIgnoreCase(a: string, b: string)
  {
    ToLower(a) == ToLower(b)
  }

  /** `Collectors.joining(sep)`. */
  function Join(parts: seq<string>, sep: string): string
  {
    if parts == [] then ""
    else if |parts| == 1 then parts[0]
    else parts[0] + sep + Join(parts[1..], sep)
  }

  /** Where part `i` starts in `Join(parts, sep)`: the lengths of the earlier parts, each with a separator. */
  function JoinOffset(parts: seq<string>, sep: string, i: nat): nat
    requires i <= |parts|
  {
    if i == 0 then 0 else |parts[0]| + |sep| + JoinOffset(parts[1..], sep, i - 1)
  }

  /** Two or more parts: the first, a separator, then the rest joined. */
  lemma JoinCons(parts: seq<string>, sep: string)
    requires |parts| >= 2
    ensures Join(parts, sep) == (parts[0] + sep) + Join(parts[1..], sep)
  {
  }

  lemma {:induction false} JoinLength(parts: seq<string>, sep: string)
    requires parts != []
    ensures |Join(parts, sep)| + |sep| == JoinOffset(parts, sep, |parts|)
    decreases |parts|
  {
    if |parts| > 1 {
      JoinCons(parts, sep);
      JoinLength(parts[1..], sep);
    }
  }

  lemma {:induction false} JoinPartAt(parts: seq<string>, sep: string, i: nat)
    requires i < |parts|
    ensures OccursAt(Join(parts, sep), parts[i], JoinOffset(parts, sep, i))
    decreases i
  {
    var j := Join(parts, sep);
    if |parts| == 1 {
      assert j[0..|parts[0]|] == parts[0];
    } else {
      JoinCons(parts, sep);
      if i == 0 {
        assert j[0..|parts[0]|] == parts[0];
      } else {
        JoinPartAt(parts[1..], sep, i - 1);
        ShiftOccurs(parts[0] + sep, Join(parts[1..], sep), parts[1..][i - 1], JoinOffset(parts[1..], sep, i - 1));
      }
    }
  }

  lemma {:induction false} JoinSepAt(parts: seq<string>, sep: string, i: nat)
    requires i < |parts| - 1
    ensures OccursAt(Join(parts, sep), sep, JoinOffset(parts, sep, i) + |parts[i]|)
    decreases i
  {
    var j := Join(parts, sep);
    JoinCons(parts, sep);
    if i == 0 {
      assert j[|parts[0]|..|parts[0]| + |sep|] == sep;
    } else {
      JoinSepAt(parts[1..], sep, i - 1);
      ShiftOccurs(parts[0] + sep, Join(parts[1..], sep), sep, JoinOffset(parts[1..], sep, i - 1) + |parts[1..][i - 1]|);
    }
  }

  /**
   * `s` lays the parts out in order, each followed by one separator except the last, and holds
   * nothing else.
   */
  predicate LaidOut(s: string, parts: seq<string>, sep: string)
  {
    && (parts == [] ==> s == "")
    && (parts != [] ==> |s| + |sep| == JoinOffset(parts, sep, |parts|))
    && (forall i :: 0 <= i < |parts| ==> OccursAt(s, parts[i], JoinOffset(parts, sep, i)))
    && (forall i :: 0 <= i < |parts| - 1 ==> OccursAt(s, sep, JoinOffset(parts, sep, i) + |parts[i]|))
  }

  /** The joined string is laid out part by part. */
  lemma JoinLayout(parts: seq<string>, sep: string)
    ensures LaidOut(Join(parts, sep), parts, sep)
  {
    if parts != [] {
      JoinLength(parts, sep);
    }
    forall i | 0 <= i < |parts| ensures OccursAt(Join(parts, sep), parts[i], JoinOffset(parts, sep, i)) {
      JoinPartAt(parts, sep, i);
    }
    forall i | 0 <= i < |parts| - 1 ensures OccursAt(Join(parts, sep), sep, JoinOffset(parts, sep, i) + |parts[i]|) {
      JoinSepAt(parts, sep, i);
    }
  }

  /** An occurrence in `b` is an occurrence in `a + b`, shifted by `|a|`. */
  lemma ShiftOccurs(a: string, b: string, t: string, k: int)
    requires OccursAt(b, t, k)
    ensures OccursAt(a + b, t, |a| + k)
  {
    assert (a + b)[|a| + k..|a| + k + |t|] == b[k..k + |t|];
  }
}

/**
 * What the logging aspect writes for a logged call's arguments and result
 * (global/aspect/LoggingAspect.java): the JSON text with the value of every sensitive field
 * replaced by "****", then cut to 500 characters. Each `replaceAll` is modelled as the
 * left-to-right scan Java's regex engine makes, with the pattern
 * `"field"\s*:\s*"[^"]*"` matched by hand. The JSON rendering itself (Gson) is not modelled:
 * the text is an input.
 */
module LoggingAspect {
  import opened Common
  import opened Text

  const MaxLogLength: nat := 500
  const TruncatedMarker: string := "...(truncated)"

  /** `truncate`: None is a null string. */
  function Truncate(s: Option<string>): (r: string)
    ensures s.None? ==> r == "null"
    ensures s.Some? && |s.value| <= MaxLogLength ==> r == s.value
    ensures s.Some? && |s.value| > MaxLogLength ==> r == s.value[..MaxLogLength] + TruncatedMarker
  {
    if s.None? then "null"
    else if |s.value| > MaxLogLength then s.value[..MaxLogLength] + TruncatedMarker
    else s.value
  }

  /**
   * The output never exceeds 514 characters, begins with the first 500 characters of the input
   * (all of it when shorter), and truncating again changes nothing.
   */
  lemma TruncateSpec(s: string)
    ensures |Truncate(Some(s))| <= MaxLogLength + |TruncatedMarker| == 514
    ensures StartsWith(Truncate(Some(s)), if |s| <= MaxLogLength then s else s[..MaxLogLength])
    ensures Truncate(Some(Truncate(Some(s)))) == Truncate(Some(s))
  {
    var r := Truncate(Some(s));
    if |s| > MaxLogLength {
      assert r[..MaxLogLength] == s[..MaxLogLength];
    }
  }

  /** `SENSITIVE_FIELDS`, in the order the loop visits them. */
  const SensitiveFields: seq<string> := ["password", "pwd", "secret", "token", "cardNumber", "cvv", "accountNumber"]

  /** `\s`: space, tab, newline, vertical tab, form feed, carriage return. */
  predicate IsRegexSpace(c: char)
  {
    c == ' ' || c == '\t' || c == '\n' || c == '\U{0B}' || c == '\U{0C}' || c == '\r'
  }

  predicate IsNotQuote(c: char)
  {
    c != '"'
  }

  predicate AllSpaces(s: string)
  {
    forall i :: 0 <= i < |s| ==> IsRegexSpace(s[i])
  }

  predicate QuoteFree(s: string)
  {
    forall i :: 0 <= i < |s| ==> s[i] != '"'
  }


  /** `"field"`: the key the pattern opens with. */
  function Key(field: string): string
  {
    "\"" + field + "\""
  }

  /** `value"`: a value and its closing quote. */
  function ValueText(value: string): string
  {
    value + "\""
  }

  /** `<spaces>"value"`: what follows the colon. */
  function ColonTail(ws: string, value: string): string
  {
    ws + ("\"" + ValueText(value))
  }

  /** `<spaces>:<spaces>"value"`: what follows the key. */
  function KeyTail(ws1: string, ws2: string, value: string): string
  {
    ws1 + (":" + ColonTail(ws2, value))
  }

  /** `"field" <spaces> : <spaces> "value"`: the text the pattern matches. */
  function Pair(field: string, ws1: string, ws2: string, value: string): string
  {
    Key(field) + KeyTail(ws1, ws2, value)
  }

  /** The replacement `"field":"****"`. */
  function Masked(field: string): string
  {
    Pair(field, "", "", "****")
  }

  /** The number of leading characters of `s` that satisfy `p`. */
  function Leading(s: string, p: char -> bool): (n: nat)
    ensures n <= |s|
    ensures forall i :: 0 <= i < n ==> p(s[i])
    ensures n < |s| ==> !p(s[n])
  {
    if s != [] && p(s[0]) then
      var n := 1 + Leading(s[1..], p);
      assert forall i :: 1 <= i < n ==> s[i] == s[1..][i - 1];
      n
    else 0
  }

  /** A run of `p` characters followed by a character that fails `p` is counted exactly. */
  lemma {:induction false} LeadingOf(w: string, rest: string, p: char -> bool)
    requires forall i :: 0 <= i < |w| ==> p(w[i])
    requires rest != [] && !p(rest[0])
    ensures Leading(w + rest, p) == |w|
    decreases |w|
  {
    if w != [] {
      assert (w + rest)[1..] == w[1..] + rest;
      LeadingOf(w[1..], rest, p);
    }
  }

  /**
   * The pattern for `field` tried at the start of `s`: the length of the match, if any.
   * The greedy `\s*` and `[^"]*` are followed by characters they cannot take, so no backtracking
   * can find another match.
   */
  function MatchAt(s: string, field: string): (r: Option<nat>)
    ensures r.Some? ==> 0 < r.value <= |s|
  {
    var key := Key(field);
    if !StartsWith(s, key) then None
    else
      match MatchAfterKey(s[|key|..])
      case None => None
      case Some(m) => Some(|key| + m)
  }

  /** `\s*:` and the rest, after the key. */
  function MatchAfterKey(s: string): (r: Option<nat>)
    ensures r.Some? ==> 0 < r.value <= |s|
  {
    var n := Leading(s, IsRegexSpace);
    if n == |s| || s[n] != ':' then None
    else
      match MatchAfterColon(s[n + 1..])
      case None => None
      case Some(m) => Some(n + 1 + m)
  }

  /** `\s*"` and the rest, after the colon. */
  function MatchAfterColon(s: string): (r: Option<nat>)
    ensures r.Some? ==> 0 < r.value <= |s|
  {
    var n := Leading(s, IsRegexSpace);
    if n == |s| || s[n] != '"' then None
    else
      match MatchValue(s[n + 1..])
      case None => None
      case Some(m) => Some(n + 1 + m)
  }

  /** `[^"]*"`: the value and its closing quote. */
  function MatchValue(s: string): (r: Option<nat>)
    ensures r.Some? ==> 0 < r.value <= |s|
  {
    var n := Leading(s, IsNotQuote);
    if n == |s| then None else Some(n + 1)
  }

  /** A run `w`, one character `c`, and the rest: the rest starts right after `c`. */
  lemma RunThenChar(w: string, c: char, rest: string)
    ensures (w + ([c] + rest))[|w|] == c && (w + ([c] + rest))[|w| + 1..] == rest
  {
  }

  /** The first `n + 1 + m` characters are the first `n`, the next one, and `m` more. */
  lemma PrefixAround(s: string, n: nat, m: nat)
    requires n + 1 + m <= |s|
    ensures s[..n + 1 + m] == s[..n] + ([s[n]] + s[n + 1..][..m])
  {
    assert s[..n + 1 + m] == s[..n] + s[n..n + 1 + m];
    assert s[n..n + 1 + m] == [s[n]] + s[n + 1..][..m];
  }

  /** The first `n + m` characters are the first `n` and `m` more. */
  lemma PrefixAfter(s: string, n: nat, m: nat)
    requires n + m <= |s|
    ensures s[..n + m] == s[..n] + s[n..][..m]
  {
    assert s[..n + m] == s[..n] + s[n..n + m];
  }

  lemma KeyThenTail(key: string, tail: string)
    ensures StartsWith(key + tail, key) && (key + tail)[|key|..] == tail
  {
    assert (key + tail)[..|key|] == key;
  }

  /** A key followed by a match of the rest of the pattern is a match. */
  lemma KeyThenMatch(s: string, field: string, m: nat)
    requires StartsWith(s, Key(field)) && MatchAfterKey(s[|Key(field)|..]) == Some(m)
    ensures MatchAt(s, field) == Some(|Key(field)| + m)
  {
  }

  lemma Reassociate(a: string, b: string, c: string)
    ensures (a + b) + c == a + (b + c)
  {
  }

  lemma ValueMatches(value: string, rest: string)
    requires QuoteFree(value)
    ensures MatchValue(ValueText(value) + rest) == Some(|ValueText(value)|)
  {
    Reassociate(value, "\"", rest);
    LeadingOf(value, "\"" + rest, IsNotQuote);
  }

  /** Spaces, a quote, then text: the value pattern is tried right after the quote. */
  lemma AfterColonStep(ws: string, v: string)
    requires AllSpaces(ws)
    ensures MatchAfterColon(ws + ("\"" + v))
            == if MatchValue(v).Some? then Some(|ws| + 1 + MatchValue(v).value) else None
  {
    RunThenChar(ws, '"', v);
    LeadingOf(ws, "\"" + v, IsRegexSpace);
  }

  /** Spaces, a colon, then text: the rest of the pattern is tried right after the colon. */
  lemma AfterKeyStep(ws: string, v: string)
    requires AllSpaces(ws)
    ensures MatchAfterKey(ws + (":" + v))
            == if MatchAfterColon(v).Some? then Some(|ws| + 1 + MatchAfterColon(v).value) else None
  {
    RunThenChar(ws, ':', v);
    LeadingOf(ws, ":" + v, IsRegexSpace);
  }

  lemma AfterColonMatches(ws: string, value: string, rest: string)
    requires AllSpaces(ws) && QuoteFree(value)
    ensures MatchAfterColon(ColonTail(ws, value) + rest) == Some(|ColonTail(ws, value)|)
  {
    var t := ValueText(value);
    var v := t + rest;
    assert ColonTail(ws, value) + rest == ws + ("\"" + v) by {
      Reassociate(ws, "\"" + t, rest);
      Reassociate("\"", t, rest);
    }
    assert |ColonTail(ws, value)| == |ws| + 1 + |t|;
    ValueMatches(value, rest);
    AfterColonStep(ws, v);
  }

  lemma AfterKeyMatches(ws1: string, ws2: string, value: string, rest: string)
    requires AllSpaces(ws1) && AllSpaces(ws2) && QuoteFree(value)
    ensures MatchAfterKey(KeyTail(ws1, ws2, value) + rest) == Some(|KeyTail(ws1, ws2, value)|)
  {
    var c := ColonTail(ws2, value);
    var v := c + rest;
    assert KeyTail(ws1, ws2, value) + rest == ws1 + (":" + v) by {
      Reassociate(ws1, ":" + c, rest);
      Reassociate(":", c, rest);
    }
    assert |KeyTail(ws1, ws2, value)| == |ws1| + 1 + |c|;
    AfterColonMatches(ws2, value, rest);
    AfterKeyStep(ws1, v);
  }

  /** A pair at the front of `s` is matched, and the match is the whole pair. */
  lemma PairMatches(field: string, ws1: string, ws2: string, value: string, rest: string)
    requires AllSpaces(ws1) && AllSpaces(ws2) && QuoteFree(value)
    ensures MatchAt(Pair(field, ws1, ws2, value) + rest, field) == Some(|Pair(field, ws1, ws2, value)|)
  {
    var key, tail := Key(field), KeyTail(ws1, ws2, value) + rest;
    var s := Pair(field, ws1, ws2, value) + rest;
    assert s == key + tail by {
      Reassociate(key, KeyTail(ws1, ws2, value), rest);
    }
    assert |Pair(field, ws1, ws2, value)| == |key| + |KeyTail(ws1, ws2, value)|;
    KeyThenTail(key, tail);
    AfterKeyMatches(ws1, ws2, value, rest);
    KeyThenMatch(s, field, |KeyTail(ws1, ws2, value)|);
  }

  lemma ValueIsQuoted(s: string) returns (value: string)
    requires MatchValue(s).Some?
    ensures QuoteFree(value) && s[..MatchValue(s).value] == ValueText(value)
  {
    var n := Leading(s, IsNotQuote);
    value := s[..n];
    assert s[..n + 1] == s[..n] + [s[n]];
  }

  lemma AfterColonIsPair(s: string) returns (ws: string, value: string)
    requires MatchAfterColon(s).Some?
    ensures AllSpaces(ws) && QuoteFree(value) && s[..MatchAfterColon(s).value] == ColonTail(ws, value)
  {
    var n := Leading(s, IsRegexSpace);
    ws := s[..n];
    var t := s[n + 1..];
    value := ValueIsQuoted(t);
    PrefixAround(s, n, MatchValue(t).value);
  }

  lemma AfterKeyIsPair(s: string) returns (ws1: string, ws2: string, value: string)
    requires MatchAfterKey(s).Some?
    ensures AllSpaces(ws1) && AllSpaces(ws2) && QuoteFree(value)
    ensures s[..MatchAfterKey(s).value] == KeyTail(ws1, ws2, value)
  {
    var n := Leading(s, IsRegexSpace);
    ws1 := s[..n];
    var t := s[n + 1..];
    ws2, value := AfterColonIsPair(t);
    PrefixAround(s, n, MatchAfterColon(t).value);
  }

  /** Every match is a pair: the matched text splits into the key, spaces, colon and a quoted value. */
  lemma MatchIsPair(s: string, field: string) returns (ws1: string, ws2: string, value: string)
    requires MatchAt(s, field).Some?
    ensures AllSpaces(ws1) && AllSpaces(ws2) && QuoteFree(value)
    ensures s[..MatchAt(s, field).value] == Pair(field, ws1, ws2, value)
  {
    var key := Key(field);
    var t := s[|key|..];
    ws1, ws2, value := AfterKeyIsPair(t);
    PrefixAfter(s, |key|, MatchAfterKey(t).value);
  }

  /** No match starts at a character other than a quote. */
  lemma NoMatchOffQuote(s: string, field: string)
    requires s != [] && s[0] != '"'
    ensures MatchAt(s, field).None?
  {
    assert Key(field)[0] == '"';
  }

  /**
   * `replaceAll` for one field: scanning from the left, each match is replaced by
   * `"field":"****"` and the scan resumes after it; other characters are copied.
   */
  function ReplaceAll(s: string, field: string): string
    decreases |s|
  {
    if s == [] then []
    else
      match MatchAt(s, field)
      case Some(e) => Masked(field) + ReplaceAll(s[e..], field)
      case None => [s[0]] + ReplaceAll(s[1..], field)
  }

  /** Where no match starts, the first character is copied and the scan moves on by one. */
  lemma ReplaceCopies(s: string, field: string)
    requires s != [] && MatchAt(s, field).None?
    ensures ReplaceAll(s, field) == [s[0]] + ReplaceAll(s[1..], field)
  {
  }

  /** `maskSensitiveData` after the loop has visited `fields`. */
  function MaskAll(s: string, fields: seq<string>): string
  {
    if fields == [] then s else ReplaceAll(MaskAll(s, fields[..|fields| - 1]), fields[|fields| - 1])
  }

  /** `maskSensitiveData`: one `replaceAll` per sensitive field, in order. */
  method MaskSensitiveData(json: string) returns (result: string)
    ensures result == MaskAll(json, SensitiveFields)
  {
    result := json;
    for i := 0 to |SensitiveFields|
      invariant result == MaskAll(json, SensitiveFields[..i])
    {
      assert SensitiveFields[..i + 1][..i] == SensitiveFields[..i];
      result := ReplaceAll(result, SensitiveFields[i]);
    }
    assert SensitiveFields[..|SensitiveFields|] == SensitiveFields;
  }

  function QuoteCount(s: string): nat
  {
    if s == [] then 0 else (if s[0] == '"' then 1 else 0) + QuoteCount(s[1..])
  }

  lemma {:induction false} QuoteCountAppend(a: string, b: string)
    ensures QuoteCount(a + b) == QuoteCount(a) + QuoteCount(b)
    decreases |a|
  {
    if a == [] {
      assert a + b == b;
    } else {
      assert (a + b)[0] == a[0] && (a + b)[1..] == a[1..] + b;
      QuoteCountAppend(a[1..], b);
    }
  }

  lemma {:induction false} QuoteFreeCount(s: string)
    requires QuoteFree(s)
    ensures QuoteCount(s) == 0
    decreases |s|
  {
    if s != [] {
      assert s[0] != '"' && QuoteFree(s[1..]);
      QuoteFreeCount(s[1..]);
    }
  }

  /** A key of a quote-free name holds two quotes. */
  lemma KeyQuotes(field: string)
    requires QuoteFree(field)
    ensures QuoteCount(Key(field)) == 2
  {
    QuoteFreeCount(field);
    QuoteCountAppend("\"" + field, "\"");
    QuoteCountAppend("\"", field);
  }

  /** What follows the key holds two quotes. */
  lemma KeyTailQuotes(ws1: string, ws2: string, value: string)
    requires AllSpaces(ws1) && AllSpaces(ws2) && QuoteFree(value)
    ensures QuoteCount(KeyTail(ws1, ws2, value)) == 2
  {
    QuoteFreeCount(ws1);
    QuoteFreeCount(ws2);
    QuoteFreeCount(value);
    QuoteCountAppend(value, "\"");
    QuoteCountAppend("\"", ValueText(value));
    QuoteCountAppend(ws2, "\"" + ValueText(value));
    QuoteCountAppend(":", ColonTail(ws2, value));
    QuoteCountAppend(ws1, ":" + ColonTail(ws2, value));
  }

  /** A pair of quote-free parts holds exactly four quotes. */
  lemma PairQuotes(field: string, ws1: string, ws2: string, value: string)
    requires QuoteFree(field) && AllSpaces(ws1) && AllSpaces(ws2) && QuoteFree(value)
    ensures QuoteCount(Pair(field, ws1, ws2, value)) == 4
  {
    KeyQuotes(field);
    KeyTailQuotes(ws1, ws2, value);
    QuoteCountAppend(Key(field), KeyTail(ws1, ws2, value));
  }

  /** A match needs four quotes. */
  lemma MatchNeedsFourQuotes(s: string, field: string)
    requires QuoteFree(field) && MatchAt(s, field).Some?
    ensures QuoteCount(s) >= 4
  {
    var ws1, ws2, value := MatchIsPair(s, field);
    PairQuotes(field, ws1, ws2, value);
    PrefixQuotes(s, MatchAt(s, field).value);
  }

  /** A prefix holds no more quotes than the whole. */
  lemma PrefixQuotes(s: string, e: nat)
    requires e <= |s|
    ensures QuoteCount(s[..e]) <= QuoteCount(s)
  {
    assert s == s[..e] + s[e..];
    QuoteCountAppend(s[..e], s[e..]);
  }

  /** Text with fewer than four quotes holds no match and is left as it is. */
  lemma {:induction false} FewQuotesUnchanged(s: string, field: string)
    requires QuoteFree(field) && QuoteCount(s) < 4
    ensures ReplaceAll(s, field) == s
    decreases |s|
  {
    if s != [] {
      if MatchAt(s, field).Some? {
        MatchNeedsFourQuotes(s, field);
      }
      ReplaceCopies(s, field);
      FewQuotesUnchanged(s[1..], field);
      assert [s[0]] + s[1..] == s;
    }
  }

  /** Quote-free text in front is copied: no match can start in it. */
  lemma {:induction false} QuoteFreeFront(a: string, x: string, field: string)
    requires QuoteFree(a)
    ensures ReplaceAll(a + x, field) == a + ReplaceAll(x, field)
    decreases |a|
  {
    if a == [] {
      assert a + x == x;
    } else {
      var s := a + x;
      assert s[0] == a[0] && s[1..] == a[1..] + x;
      NoMatchOffQuote(s, field);
      ReplaceCopies(s, field);
      QuoteFreeFront(a[1..], x, field);
      Reassociate([a[0]], a[1..], ReplaceAll(x, field));
      assert [a[0]] + a[1..] == a;
    }
  }

  /** The key of one quote-free field name is never the key of another. */
  lemma OtherKeyNoMatch(s: string, field: string, other: string)
    requires QuoteFree(field) && QuoteFree(other) && field != other
    requires StartsWith(s, Key(field))
    ensures MatchAt(s, other).None?
  {
    var key, okey := Key(field), Key(other);
    var j := FirstDifference(field, other);
    assert s[..|key|][j] == key[j];
    if |okey| <= |s| {
      assert s[..|okey|][j] != okey[j];
    }
  }

  /** A position inside both keys where they differ. */
  lemma FirstDifference(field: string, other: string) returns (j: nat)
    requires QuoteFree(field) && QuoteFree(other) && field != other
    ensures j < |Key(field)| && j < |Key(other)| && Key(field)[j] != Key(other)[j]
  {
    var key, okey := Key(field), Key(other);
    if |other| < |field| {
      j := |other| + 1;
      assert key[j] == field[|other|] && okey[j] == '"';
    } else if |other| > |field| {
      j := |field| + 1;
      assert okey[j] == other[|field|] && key[j] == '"';
    } else {
      var i :| 0 <= i < |field| && field[i] != other[i];
      j := i + 1;
      assert key[j] == field[i] && okey[j] == other[i];
    }
  }

  /**
   * A pair named `name`, between quote-free text: masking `field` turns it into
   * `"field":"****"` when `name` is `field`, and leaves the text as it is otherwise.
   */
  lemma ReplaceOnePair(a: string, name: string, ws1: string, ws2: string, value: string, b: string, field: string)
    requires QuoteFree(a) && QuoteFree(b) && QuoteFree(name) && QuoteFree(field)
    requires AllSpaces(ws1) && AllSpaces(ws2) && QuoteFree(value)
    ensures ReplaceAll(a + Pair(name, ws1, ws2, value) + b, field)
            == a + (if name == field then Masked(name) else Pair(name, ws1, ws2, value)) + b
  {
    var p := Pair(name, ws1, ws2, value);
    Reassociate(a, p, b);
    QuoteFreeFront(a, p + b, field);
    if name == field {
      ReplaceMatchingPair(name, ws1, ws2, value, b);
      Reassociate(a, Masked(name), b);
    } else {
      ReplaceOtherPair(name, ws1, ws2, value, b, field);
    }
  }

  /** The pair for the field, then text without quotes: the pair is masked and the text kept. */
  lemma ReplaceMatchingPair(name: string, ws1: string, ws2: string, value: string, b: string)
    requires QuoteFree(b) && QuoteFree(name)
    requires AllSpaces(ws1) && AllSpaces(ws2) && QuoteFree(value)
    ensures ReplaceAll(Pair(name, ws1, ws2, value) + b, name) == Masked(name) + b
  {
    var p := Pair(name, ws1, ws2, value);
    QuoteFreeCount(b);
    PairMatches(name, ws1, ws2, value, b);
    assert (p + b)[|p|..] == b;
    FewQuotesUnchanged(b, name);
  }

  /** Another field's pair, then text without quotes: nothing is replaced. */
  lemma ReplaceOtherPair(name: string, ws1: string, ws2: string, value: string, b: string, field: string)
    requires QuoteFree(b) && QuoteFree(name) && QuoteFree(field) && name != field
    requires AllSpaces(ws1) && AllSpaces(ws2) && QuoteFree(value)
    ensures ReplaceAll(Pair(name, ws1, ws2, value) + b, field) == Pair(name, ws1, ws2, value) + b
  {
    var p := Pair(name, ws1, ws2, value);
    QuoteFreeCount(b);
    assert (p + b)[..|Key(name)|] == Key(name);
    OtherKeyNoMatch(p + b, name, field);
    ReplaceCopies(p + b, field);
    PairQuotes(name, ws1, ws2, value);
    QuoteCountAppend(p, b);
    QuoteCountAppend([(p + b)[0]], (p + b)[1..]);
    assert [(p + b)[0]] + (p + b)[1..] == p + b;
    FewQuotesUnchanged((p + b)[1..], field);
  }

  /**
   * Masking with a list of quote-free fields replaces a pair whose name is in the list by
   * `"name":"****"` and leaves a pair with any other name as it is; the quote-free text around
   * it is untouched.
   */
  lemma {:induction false} MaskOnePair(a: string, name: string, ws1: string, ws2: string, value: string, b: string,
                                       fields: seq<string>)
    requires QuoteFree(a) && QuoteFree(b) && QuoteFree(name) && AllSpaces(ws1) && AllSpaces(ws2) && QuoteFree(value)
    requires forall i :: 0 <= i < |fields| ==> QuoteFree(fields[i])
    ensures MaskAll(a + Pair(name, ws1, ws2, value) + b, fields)
            == a + (if name in fields then Masked(name) else Pair(name, ws1, ws2, value)) + b
    decreases |fields|
  {
    if fields != [] {
      var front, last := fields[..|fields| - 1], fields[|fields| - 1];
      MaskOnePair(a, name, ws1, ws2, value, b, front);
      assert name in fields <==> name in front || name == last;
      var (w1, w2, v) := if name in front then ("", "", "****") else (ws1, ws2, value);
      ReplaceOnePair(a, name, w1, w2, v, b, last);
    }
  }

  /** The listed fields are quote-free. */
  lemma SensitiveFieldsQuoteFree()
    ensures forall i :: 0 <= i < |SensitiveFields| ==> QuoteFree(SensitiveFields[i])
  {
    forall i | 0 <= i < |SensitiveFields|
      ensures QuoteFree(SensitiveFields[i])
    {
      var f := SensitiveFields[i];
      assert f == "password" || f == "pwd" || f == "secret" || f == "token"
          || f == "cardNumber" || f == "cvv" || f == "accountNumber";
    }
  }

  /**
   * `maskSensitiveData` on one pair with quote-free text around it: the value of a sensitive
   * field becomes "****" and any other pair is kept.
   */
  lemma MaskSensitivePair(a: string, name: string, ws1: string, ws2: string, value: string, b: string)
    requires QuoteFree(a) && QuoteFree(b) && QuoteFree(name) && AllSpaces(ws1) && AllSpaces(ws2) && QuoteFree(value)
    ensures MaskAll(a + Pair(name, ws1, ws2, value) + b, SensitiveFields)
            == a + (if name in SensitiveFields then Masked(name) else Pair(name, ws1, ws2, value)) + b
  {
    SensitiveFieldsQuoteFree();
    MaskOnePair(a, name, ws1, ws2, value, b, SensitiveFields);
  }

  /** A "token" pair is masked. */
  lemma TokenIsMasked(a: string, ws1: string, ws2: string, value: string, b: string)
    requires QuoteFree(a) && QuoteFree(b) && AllSpaces(ws1) && AllSpaces(ws2) && QuoteFree(value)
    ensures MaskAll(a + Pair("token", ws1, ws2, value) + b, SensitiveFields) == a + "\"token\":\"****\"" + b
  {
    assert QuoteFree("token");
    assert SensitiveFields[3] == "token";
    MaskSensitivePair(a, "token", ws1, ws2, value, b);
    MaskedToken();
  }

  lemma MaskedToken()
    ensures Masked("token") == "\"token\":\"****\""
  {
    assert Key("token") == "\"token\"";
    assert KeyTail("", "", "****") == ":\"****\"";
  }

  /** A "holdToken" pair is kept: the pattern needs the quote right before the field name. */
  lemma HoldTokenIsKept(a: string, ws1: string, ws2: string, value: string, b: string)
    requires QuoteFree(a) && QuoteFree(b) && AllSpaces(ws1) && AllSpaces(ws2) && QuoteFree(value)
    ensures MaskAll(a + Pair("holdToken", ws1, ws2, value) + b, SensitiveFields) == a + Pair("holdToken", ws1, ws2, value) + b
  {
    assert QuoteFree("holdToken");
    assert forall i :: 0 <= i < |SensitiveFields| ==> |SensitiveFields[i]| != 9;
    MaskSensitivePair(a, "holdToken", ws1, ws2, value, b);
  }

  /*
   * A whole JSON text of string fields, as Gson writes an object or an array of objects whose
   * values are strings: punctuation, then fields each followed by more punctuation.
   */

  /** One string field: its name, the spaces around the colon, and its value. */
  datatype StringField = StringField(name: string, ws1: string, ws2: string, value: string)

  /** A field and the punctuation written after it. */
  datatype Entry = Entry(field: StringField, after: string)

  predicate IsSeparatorChar(c: char)
  {
    c == '{' || c == '}' || c == '[' || c == ']' || c == ','
  }

  /** The punctuation between fields: a non-empty run of braces, brackets and commas. */
  predicate IsSeparator(s: string)
  {
    s != [] && forall i :: 0 <= i < |s| ==> IsSeparatorChar(s[i])
  }

  predicate WellFormedField(f: StringField)
  {
    QuoteFree(f.name) && AllSpaces(f.ws1) && AllSpaces(f.ws2) && QuoteFree(f.value)
  }

  predicate WellFormedEntries(es: seq<Entry>)
  {
    forall i :: 0 <= i < |es| ==> WellFormedField(es[i].field) && IsSeparator(es[i].after)
  }

  /** A field name the pattern is built from: no quotes, and a letter first. */
  predicate IsFieldName(field: string)
  {
    QuoteFree(field) && field != [] && ('a' <= field[0] <= 'z' || 'A' <= field[0] <= 'Z')
  }

  function FieldText(f: StringField): string
  {
    Pair(f.name, f.ws1, f.ws2, f.value)
  }

  function EntriesText(es: seq<Entry>): string
  {
    if es == [] then [] else FieldText(es[0].field) + es[0].after + EntriesText(es[1..])
  }

  /** A field whose name is listed gets the value "****" and loses the spaces around its colon. */
  function MaskField(f: StringField, names: seq<string>): StringField
  {
    if f.name in names then StringField(f.name, "", "", "****") else f
  }

  function MaskEntries(es: seq<Entry>, names: seq<string>): (r: seq<Entry>)
    ensures |r| == |es|
  {
    seq(|es|, i requires 0 <= i < |es| => Entry(MaskField(es[i].field, names), es[i].after))
  }

  lemma SeparatorQuoteFree(s: string)
    requires IsSeparator(s)
    ensures QuoteFree(s) && !IsRegexSpace(s[0]) && s[0] != ':'
  {
  }

  /** A quote followed by a character that is not a letter starts no match. */
  lemma NoMatchBeforeNonLetter(s: string, field: string)
    requires IsFieldName(field) && |s| >= 2 && s[0] == '"'
    requires !('a' <= s[1] <= 'z' || 'A' <= s[1] <= 'Z')
    ensures MatchAt(s, field).None?
  {
    var key := Key(field);
    assert key[1] == field[0];
    if |key| <= |s| {
      assert s[..|key|][1] != key[1];
    }
  }

  /** The opening quote of a value starts no match when punctuation follows the closing quote. */
  lemma NoMatchAtValue(value: string, rest: string, field: string)
    requires QuoteFree(value) && IsFieldName(field)
    requires rest != [] && IsSeparatorChar(rest[0])
    ensures MatchAt("\"" + (value + ("\"" + rest)), field).None?
  {
    var s := "\"" + (value + ("\"" + rest));
    if value == field {
      assert s == Key(field) + rest;
      KeyThenTail(Key(field), rest);
      assert Leading(rest, IsRegexSpace) == 0;
    } else {
      assert s == Key(value) + rest;
      KeyThenTail(Key(value), rest);
      OtherKeyNoMatch(s, value, field);
    }
  }

  /** Spaces, a colon and spaces are copied before the value. */
  lemma SpacesAroundColonQuoteFree(ws1: string, ws2: string)
    requires AllSpaces(ws1) && AllSpaces(ws2)
    ensures QuoteFree(ws1 + (":" + ws2))
  {
  }

  /** A quote where no match starts is copied and the scan goes on after it. */
  lemma CopyQuote(s: string, field: string)
    requires s != [] && s[0] == '"' && MatchAt(s, field).None?
    ensures ReplaceAll(s, field) == "\"" + ReplaceAll(s[1..], field)
  {
    ReplaceCopies(s, field);
  }

  /** A value and its closing quote, then punctuation: copied. */
  lemma SkipValueText(value: string, rest: string, field: string)
    requires QuoteFree(value) && IsFieldName(field)
    requires rest != [] && IsSeparatorChar(rest[0])
    ensures ReplaceAll(ValueText(value) + rest, field) == ValueText(value) + ReplaceAll(rest, field)
  {
    var r := "\"" + rest;
    Reassociate(value, "\"", rest);
    QuoteFreeFront(value, r, field);
    NoMatchBeforeNonLetter(r, field);
    CopyQuote(r, field);
    assert r[1..] == rest;
    Reassociate(value, "\"", ReplaceAll(rest, field));
  }

  /** A quoted value, then punctuation: copied. */
  lemma SkipQuotedValue(value: string, rest: string, field: string)
    requires QuoteFree(value) && IsFieldName(field)
    requires rest != [] && IsSeparatorChar(rest[0])
    ensures ReplaceAll("\"" + (ValueText(value) + rest), field) == "\"" + (ValueText(value) + ReplaceAll(rest, field))
  {
    var r := "\"" + (ValueText(value) + rest);
    Reassociate(value, "\"", rest);
    NoMatchAtValue(value, rest, field);
    CopyQuote(r, field);
    assert r[1..] == ValueText(value) + rest;
    SkipValueText(value, rest, field);
  }

  /** What follows a key splits into the spaces around the colon and the quoted value. */
  lemma KeyTailAround(ws1: string, ws2: string, value: string, x: string)
    ensures KeyTail(ws1, ws2, value) + x == (ws1 + (":" + ws2)) + ("\"" + (ValueText(value) + x))
  {
    var v := ValueText(value);
    calc {
      KeyTail(ws1, ws2, value) + x;
      (ws1 + (":" + (ws2 + ("\"" + v)))) + x;
      { Reassociate(ws1, ":" + (ws2 + ("\"" + v)), x); }
      ws1 + ((":" + (ws2 + ("\"" + v))) + x);
      { Reassociate(":", ws2 + ("\"" + v), x); Reassociate(ws2, "\"" + v, x); Reassociate("\"", v, x); }
      ws1 + (":" + (ws2 + ("\"" + (v + x))));
      { Reassociate(":", ws2, "\"" + (v + x)); Reassociate(ws1, ":" + ws2, "\"" + (v + x)); }
      (ws1 + (":" + ws2)) + ("\"" + (v + x));
    }
  }

  /** A pair, then more text, split at its four quotes. */
  lemma PairAround(name: string, tail: string, x: string)
    ensures Key(name) + tail + x == "\"" + (name + ("\"" + (tail + x)))
  {
    Reassociate(Key(name), tail, x);
    Reassociate("\"" + name, "\"", tail + x);
    Reassociate("\"", name, "\"" + (tail + x));
  }

  /** What follows a key, then punctuation: copied. */
  lemma SkipKeyTail(ws1: string, ws2: string, value: string, rest: string, field: string)
    requires AllSpaces(ws1) && AllSpaces(ws2) && QuoteFree(value) && IsFieldName(field)
    requires rest != [] && IsSeparatorChar(rest[0])
    ensures ReplaceAll(KeyTail(ws1, ws2, value) + rest, field) == KeyTail(ws1, ws2, value) + ReplaceAll(rest, field)
  {
    var mid := ws1 + (":" + ws2);
    var r := "\"" + (ValueText(value) + rest);
    KeyTailAround(ws1, ws2, value, rest);
    SpacesAroundColonQuoteFree(ws1, ws2);
    QuoteFreeFront(mid, r, field);
    SkipQuotedValue(value, rest, field);
    KeyTailAround(ws1, ws2, value, ReplaceAll(rest, field));
  }

  /** The closing quote of a key, what follows it, then punctuation: copied. */
  lemma SkipClosedKeyTail(ws1: string, ws2: string, value: string, rest: string, field: string)
    requires AllSpaces(ws1) && AllSpaces(ws2) && QuoteFree(value) && IsFieldName(field)
    requires rest != [] && IsSeparatorChar(rest[0])
    ensures ReplaceAll("\"" + (KeyTail(ws1, ws2, value) + rest), field)
            == "\"" + (KeyTail(ws1, ws2, value) + ReplaceAll(rest, field))
  {
    var t := KeyTail(ws1, ws2, value) + rest;
    var r := "\"" + t;
    assert r[1] == (if ws1 == [] then ':' else ws1[0]);
    NoMatchBeforeNonLetter(r, field);
    CopyQuote(r, field);
    assert r[1..] == t;
    SkipKeyTail(ws1, ws2, value, rest, field);
  }

  /**
   * `replaceAll` for a field leaves another field's pair as it is and goes on after it, when
   * punctuation follows the pair: no match starts at any of the pair's four quotes.
   */
  lemma SkipOtherField(f: StringField, rest: string, field: string)
    requires WellFormedField(f) && IsFieldName(field) && f.name != field
    requires rest != [] && IsSeparatorChar(rest[0])
    ensures ReplaceAll(FieldText(f) + rest, field) == FieldText(f) + ReplaceAll(rest, field)
  {
    var tail := KeyTail(f.ws1, f.ws2, f.value);
    var r := "\"" + (tail + rest);
    var s := "\"" + (f.name + r);
    PairAround(f.name, tail, rest);
    assert StartsWith(s, Key(f.name)) by {
      assert s[..|Key(f.name)|] == Key(f.name);
    }
    OtherKeyNoMatch(s, f.name, field);
    CopyQuote(s, field);
    assert s[1..] == f.name + r;
    QuoteFreeFront(f.name, r, field);
    SkipClosedKeyTail(f.ws1, f.ws2, f.value, rest, field);
    PairAround(f.name, tail, ReplaceAll(rest, field));
  }

  /** `replaceAll` for the field of a pair masks that pair and goes on after it. */
  lemma MaskOwnField(f: StringField, rest: string)
    requires WellFormedField(f)
    ensures ReplaceAll(FieldText(f) + rest, f.name) == Masked(f.name) + ReplaceAll(rest, f.name)
  {
    PairMatches(f.name, f.ws1, f.ws2, f.value, rest);
    assert (FieldText(f) + rest)[|FieldText(f)|..] == rest;
  }

  /** One `replaceAll` over a field, its punctuation and more text masks the field if it is named. */
  lemma ReplaceFirstEntry(f: StringField, sep: string, t: string, field: string)
    requires WellFormedField(f) && IsSeparator(sep) && IsFieldName(field)
    ensures ReplaceAll(FieldText(f) + sep + t, field)
            == FieldText(MaskField(f, [field])) + sep + ReplaceAll(t, field)
  {
    var rest := sep + t;
    assert FieldText(f) + sep + t == FieldText(f) + rest;
    SeparatorQuoteFree(sep);
    QuoteFreeFront(sep, t, field);
    if f.name == field {
      MaskOwnField(f, rest);
    } else {
      SkipOtherField(f, rest, field);
    }
  }

  /** One `replaceAll` over a text of fields masks exactly the fields of that name. */
  lemma {:induction false} ReplaceEntries(es: seq<Entry>, field: string)
    requires WellFormedEntries(es) && IsFieldName(field)
    ensures ReplaceAll(EntriesText(es), field) == EntriesText(MaskEntries(es, [field]))
    decreases |es|
  {
    if es != [] {
      var tail := es[1..];
      assert WellFormedEntries(tail) by {
        assert forall i :: 0 <= i < |tail| ==> tail[i] == es[i + 1];
      }
      ReplaceEntries(tail, field);
      ReplaceFirstEntry(es[0].field, es[0].after, EntriesText(tail), field);
      var m := MaskEntries(es, [field]);
      assert m[1..] == MaskEntries(tail, [field]);
    }
  }

  lemma MaskedEntriesWellFormed(es: seq<Entry>, names: seq<string>)
    requires WellFormedEntries(es)
    ensures WellFormedEntries(MaskEntries(es, names))
  {
    assert QuoteFree("****");
  }

  /** Masking by a list and then by one more name is masking by the longer list. */
  lemma MaskEntriesThenOne(es: seq<Entry>, names: seq<string>, last: string)
    ensures MaskEntries(MaskEntries(es, names), [last]) == MaskEntries(es, names + [last])
  {
    forall i | 0 <= i < |es|
      ensures MaskField(MaskField(es[i].field, names), [last]) == MaskField(es[i].field, names + [last])
    {
      var f := es[i].field;
      assert f.name in names + [last] <==> f.name in names || f.name == last;
    }
  }

  /** The loop of `maskSensitiveData` over a text of fields masks every listed field. */
  lemma {:induction false} MaskAllEntries(es: seq<Entry>, names: seq<string>)
    requires WellFormedEntries(es)
    requires forall i :: 0 <= i < |names| ==> IsFieldName(names[i])
    ensures MaskAll(EntriesText(es), names) == EntriesText(MaskEntries(es, names))
    decreases |names|
  {
    if names == [] {
      assert MaskEntries(es, names) == es;
    } else {
      var front, last := names[..|names| - 1], names[|names| - 1];
      MaskAllEntries(es, front);
      MaskedEntriesWellFormed(es, front);
      ReplaceEntries(MaskEntries(es, front), last);
      assert names == front + [last];
      MaskEntriesThenOne(es, front, last);
    }
  }

  /** Every pass of the loop copies quote-free text in front. */
  lemma {:induction false} MaskAllQuoteFreeFront(a: string, x: string, names: seq<string>)
    requires QuoteFree(a)
    ensures MaskAll(a + x, names) == a + MaskAll(x, names)
    decreases |names|
  {
    if names != [] {
      var front := names[..|names| - 1];
      MaskAllQuoteFreeFront(a, x, front);
      QuoteFreeFront(a, MaskAll(x, front), names[|names| - 1]);
    }
  }

  lemma SensitiveFieldsAreNames()
    ensures forall i :: 0 <= i < |SensitiveFields| ==> IsFieldName(SensitiveFields[i])
  {
    SensitiveFieldsQuoteFree();
  }

  /**
   * `maskSensitiveData` on a JSON text of string fields: every field named in SENSITIVE_FIELDS
   * is written "name":"****", and every other field and all the punctuation are kept.
   */
  lemma MaskSensitiveEntries(open: string, es: seq<Entry>)
    requires QuoteFree(open) && WellFormedEntries(es)
    ensures MaskAll(open + EntriesText(es), SensitiveFields) == open + EntriesText(MaskEntries(es, SensitiveFields))
    ensures forall i :: 0 <= i < |es| ==>
              MaskEntries(es, SensitiveFields)[i].after == es[i].after
              && (if es[i].field.name in SensitiveFields
                  then FieldText(MaskEntries(es, SensitiveFields)[i].field) == Masked(es[i].field.name)
                  else MaskEntries(es, SensitiveFields)[i].field == es[i].field)
  {
    SensitiveFieldsAreNames();
    MaskAllQuoteFreeFront(open, EntriesText(es), SensitiveFields);
    MaskAllEntries(es, SensitiveFields);
  }

  /** On a JSON text of string fields, masking the masked text changes nothing more. */
  lemma MaskSensitiveIdempotent(open: string, es: seq<Entry>)
    requires QuoteFree(open) && WellFormedEntries(es)
    ensures MaskAll(MaskAll(open + EntriesText(es), SensitiveFields), SensitiveFields)
            == MaskAll(open + EntriesText(es), SensitiveFields)
  {
    var m := MaskEntries(es, SensitiveFields);
    MaskSensitiveEntries(open, es);
    MaskedEntriesWellFormed(es, SensitiveFields);
    MaskSensitiveEntries(open, m);
    assert MaskEntries(m, SensitiveFields) == m;
  }
}

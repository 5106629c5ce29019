/**
 * Client log intake (application/log/ClientLogController.java): a log line sent by the
 * frontend or the mobile app is cleaned of line breaks and tabs, cut to 2000 characters, and
 * written to the frontend or mobile logger at the level the client asked for. The loggers are
 * not modelled: the result is the entry that would be written. The request's `data` map is
 * given already rendered by `toString()`, None when it is null or empty.
 */
module ClientLog {
  import opened Common
  import opened Text

  const MaxSanitizedLength: nat := 2000

  /** A character of the class `[\r\n\t]`. */
  predicate IsBreak(c: char)
  {
    c == '\r' || c == '\n' || c == '\t'
  }

  predicate NoBreaks(s: string)
  {
    forall i :: 0 <= i < |s| ==> !IsBreak(s[i])
  }

  predicate AllBreaks(s: string)
  {
    forall i :: 0 <= i < |s| ==> IsBreak(s[i])
  }

  /** What follows the run of breaks at the front of `s`. */
  function SkipBreaks(s: string): (r: string)
    ensures |r| <= |s| && r == s[|s| - |r|..]
    ensures AllBreaks(s[..|s| - |r|])
    ensures r == [] || !IsBreak(r[0])
  {
    if s != [] && IsBreak(s[0]) then
      var r := SkipBreaks(s[1..]);
      assert s[..|s| - |r|] == [s[0]] + s[1..][..|s| - 1 - |r|];
      r
    else
      assert s[..0] == [];
      s
  }

  /** `replaceAll("[\r\n\t]+", " ")`: each maximal run of breaks becomes one space. */
  function Collapse(s: string): (r: string)
    ensures |r| <= |s|
    ensures NoBreaks(r)
    decreases |s|
  {
    if s == [] then []
    else if IsBreak(s[0]) then " " + Collapse(SkipBreaks(s[1..]))
    else [s[0]] + Collapse(s[1..])
  }

  /** `sanitize`: None is a null string. */
  function Sanitize(s: Option<string>): (r: string)
    ensures s.None? || s.value == [] ==> r == ""
    ensures s.Some? ==> |r| <= |Collapse(s.value)| && r == Collapse(s.value)[..|r|]
    ensures |r| <= MaxSanitizedLength
    ensures s.Some? && |Collapse(s.value)| <= MaxSanitizedLength ==> r == Collapse(s.value)
    ensures NoBreaks(r)
  {
    if s.None? || s.value == [] then ""
    else
      var cleaned := Collapse(s.value);
      cleaned[..if |cleaned| < MaxSanitizedLength then |cleaned| else MaxSanitizedLength]
  }

  /** A leading run of breaks is skipped exactly. */
  lemma {:induction false} SkipBreaksOf(run: string, rest: string)
    requires AllBreaks(run)
    requires rest == [] || !IsBreak(rest[0])
    ensures SkipBreaks(run + rest) == rest
    decreases |run|
  {
    if run == [] {
      assert run + rest == rest;
    } else {
      assert (run + rest)[0] == run[0] && (run + rest)[1..] == run[1..] + rest;
      SkipBreaksOf(run[1..], rest);
    }
  }

  /** Text without breaks is kept as it is. */
  lemma {:induction false} CollapseClean(s: string)
    requires NoBreaks(s)
    ensures Collapse(s) == s
    decreases |s|
  {
    if s != [] {
      assert NoBreaks(s[1..]);
      CollapseClean(s[1..]);
      assert [s[0]] + s[1..] == s;
    }
  }

  /**
   * Text without breaks, then a maximal run of breaks, then the rest: the text is kept, the run
   * becomes one space, and the rest is collapsed in turn.
   */
  lemma {:induction false} CollapseRun(w: string, run: string, rest: string)
    requires NoBreaks(w) && run != [] && AllBreaks(run)
    requires rest == [] || !IsBreak(rest[0])
    ensures Collapse(w + run + rest) == w + " " + Collapse(rest)
    decreases |w|
  {
    if w == [] {
      assert w + run + rest == run + rest;
      assert (run + rest)[1..] == run[1..] + rest;
      SkipBreaksOf(run[1..], rest);
    } else {
      var s := w + run + rest;
      assert s[0] == w[0] && s[1..] == w[1..] + run + rest;
      assert !IsBreak(w[0]);
      assert Collapse(s) == [w[0]] + Collapse(w[1..] + run + rest);
      CollapseRun(w[1..], run, rest);
      assert [w[0]] + (w[1..] + " " + Collapse(rest)) == w + " " + Collapse(rest);
    }
  }

  /** Sanitizing twice is sanitizing once. */
  lemma SanitizeIdempotent(s: Option<string>)
    ensures Sanitize(Some(Sanitize(s))) == Sanitize(s)
  {
    CollapseClean(Sanitize(s));
  }

  datatype Channel = FRONTEND | MOBILE
  datatype LogLevel = DEBUG | INFO | WARN | ERROR

  /** `"frontend".equalsIgnoreCase(source)`: a null source goes to the mobile log. */
  function ChannelOf(source: Option<string>): Channel
  {
    if source.Some? && EqualsIgnoreCase("frontend", source.value) then FRONTEND else MOBILE
  }

  /** The switch on the lower-cased level; a null level is "info". */
  function LevelOf(level: Option<string>): LogLevel
  {
    var l := if level.Some? then ToLower(level.value) else "info";
    if l == "warn" then WARN
    else if l == "error" then ERROR
    else if l == "debug" then DEBUG
    else INFO
  }

  /** Each named level is chosen whatever its letter case; everything else, null included, is INFO. */
  lemma LevelOfSpec(level: Option<string>)
    ensures LevelOf(level) == WARN <==> level.Some? && EqualsIgnoreCase(level.value, "warn")
    ensures LevelOf(level) == ERROR <==> level.Some? && EqualsIgnoreCase(level.value, "error")
    ensures LevelOf(level) == DEBUG <==> level.Some? && EqualsIgnoreCase(level.value, "debug")
    ensures level.None? ==> LevelOf(level) == INFO
  {
    assert ToLower("warn") == "warn";
    assert ToLower("error") == "error";
    assert ToLower("debug") == "debug";
  }

  /** The request body; `data` is the rendered map, None when null or empty. */
  datatype ClientLogRequest = ClientLogRequest(source: Option<string>, level: Option<string>, category: string,
                                               message: Option<string>, data: Option<string>)

  /** One line written to a logger. */
  datatype LogEntry = LogEntry(channel: Channel, level: LogLevel, text: string)

  /** `receiveLog`: the entry written for a request, formatted as `[category] message data`. */
  function ReceiveLog(req: ClientLogRequest): LogEntry
  {
    var dataStr := if req.data.Some? then " " + Sanitize(req.data) else "";
    LogEntry(ChannelOf(req.source), LevelOf(req.level), "[" + req.category + "] " + Sanitize(req.message) + dataStr)
  }

  /** The entry goes to the frontend log exactly when the source, lower-cased, is "frontend". */
  lemma ChannelOfSpec(source: Option<string>)
    ensures ChannelOf(source) == FRONTEND <==> source.Some? && ToLower(source.value) == "frontend"
  {
    assert ToLower("frontend") == "frontend";
  }

  lemma HeadThenRest(head: string, m: string, d: string)
    ensures StartsWith(head + m + d, head + m) && (head + m + d)[|head|..] == m + d
  {
    assert (head + m + d)[..|head + m|] == head + m;
  }

  lemma NoBreaksAppend(a: string, b: string)
    requires NoBreaks(a) && NoBreaks(b)
    ensures NoBreaks(a + b)
  {
  }

  /**
   * The entry's channel and level follow the source and level; its text starts with the
   * bracketed category and the sanitized message, and after the category holds no line break
   * or tab and at most 4001 characters.
   */
  lemma ReceiveLogSpec(req: ClientLogRequest)
    ensures var e := ReceiveLog(req);
      && e.channel == ChannelOf(req.source)
      && e.level == LevelOf(req.level)
      && StartsWith(e.text, "[" + req.category + "] " + Sanitize(req.message))
      && var rest := e.text[|req.category| + 3..];
         NoBreaks(rest) && |rest| <= 2 * MaxSanitizedLength + 1
  {
    var head := "[" + req.category + "] ";
    var m := Sanitize(req.message);
    var d := if req.data.Some? then " " + Sanitize(req.data) else "";
    assert NoBreaks(d);
    HeadThenRest(head, m, d);
    NoBreaksAppend(m, d);
  }
}

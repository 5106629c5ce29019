/**
 * Per-client limits on the booking and administration APIs
 * (global/security/ApiRateLimitFilter.java): an `/api/admin/` path is counted against the admin
 * limit, a booking request (hold, release, pay, cancel) against the reservation limit, both
 * through the fixed-window counter of `RedisRateLimitService` with a 60-second window; any other
 * request, or a limit that is not positive, passes without touching the counter.
 */
module ApiRateLimit {
  import opened Common
  import opened Text
  import opened ForwardedFor
  import opened RedisRateLimit

  const DefaultReservationPerMinute: int := 60
  const DefaultAdminPerMinute: int := 120
  /** The window passed to `tryAcquire`, in seconds. */
  const WindowSeconds: int := 60

  datatype ApiLimits = ApiLimits(reservationPerMinute: int, adminPerMinute: int)

  /** The characters a regular-expression `.` does not match. */
  predicate IsLineTerminator(c: char)
  {
    c == '\n' || c == '\r' || c == '\U{0085}' || c == '\U{2028}' || c == '\U{2029}'
  }

  predicate NoLineTerminator(s: string)
  {
    forall i :: 0 <= i < |s| ==> !IsLineTerminator(s[i])
  }

  /** A hold path built from its parts. */
  function HoldPath(pre: string, screeningDigits: string, seatDigits: string): string
  {
    pre + "/api/screenings/" + screeningDigits + "/seats/" + seatDigits + "/hold"
  }

  // The path is a full match of `.*/api/screenings/\d+/seats/\d+/hold`.
  ghost predicate HoldPattern(path: string)
  {
    exists pre, d1, d2 :: path == HoldPath(pre, d1, d2)
                          && NoLineTerminator(pre) && d1 != [] && AllDigits(d1) && d2 != [] && AllDigits(d2)
  }

  /** The number of digits at the end of `s`. */
  function TrailingDigitCount(s: string): (n: nat)
    ensures n <= |s|
    ensures AllDigits(s[|s| - n..])
    ensures n < |s| ==> !IsDigit(s[|s| - n - 1])
  {
    if s == [] || !IsDigit(s[|s| - 1]) then 0
    else
      var n := 1 + TrailingDigitCount(s[..|s| - 1]);
      assert s[|s| - n..] == s[..|s| - 1][|s| - n..] + [s[|s| - 1]];
      n
  }

  /** Digits after a non-digit are counted exactly. */
  lemma {:induction false} TrailingDigitCountAfter(x: string, d: string)
    requires x != [] && !IsDigit(x[|x| - 1]) && AllDigits(d)
    ensures TrailingDigitCount(x + d) == |d|
    decreases |d|
  {
    if d == [] {
      assert x + d == x;
    } else {
      var d' := d[..|d| - 1];
      assert (x + d)[..|x + d| - 1] == x + d';
      TrailingDigitCountAfter(x, d');
    }
  }

  /** The hold pattern, matched from the right: `/hold`, digits, `/seats/`, digits, `/api/screenings/`. */
  predicate MatchesHold(path: string)
  {
    EndsWith(path, "/hold") && MatchesSeatDigits(path[..|path| - 5])
  }

  predicate MatchesSeatDigits(p: string)
  {
    var n := TrailingDigitCount(p);
    n > 0 && MatchesSeatsPart(p[..|p| - n])
  }

  predicate MatchesSeatsPart(p: string)
  {
    EndsWith(p, "/seats/") && MatchesScreeningDigits(p[..|p| - 7])
  }

  predicate MatchesScreeningDigits(p: string)
  {
    var n := TrailingDigitCount(p);
    n > 0 && MatchesScreeningsPart(p[..|p| - n])
  }

  predicate MatchesScreeningsPart(p: string)
  {
    EndsWith(p, "/api/screenings/") && NoLineTerminator(p[..|p| - 16])
  }

  /** A path built from the pattern's parts is matched. */
  lemma MatchesHoldOfParts(pre: string, d1: string, d2: string)
    requires NoLineTerminator(pre) && d1 != [] && AllDigits(d1) && d2 != [] && AllDigits(d2)
    ensures MatchesHold(HoldPath(pre, d1, d2))
  {
    var path := HoldPath(pre, d1, d2);
    var a := pre + "/api/screenings/";
    var b := a + d1 + "/seats/";
    var p1 := b + d2;
    assert path == p1 + "/hold";
    assert path[..|path| - 5] == p1;
    TrailingDigitCountAfter(b, d2);
    assert p1[..|p1| - |d2|] == b;
    var p3 := a + d1;
    assert b[..|b| - 7] == p3;
    TrailingDigitCountAfter(a, d1);
    assert p3[..|p3| - |d1|] == a;
    assert a[..|a| - 16] == pre;
  }

  /** A string that ends with `t` is its front followed by `t`. */
  lemma EndsWithSplit(s: string, t: string) returns (front: string)
    requires EndsWith(s, t)
    ensures s == front + t && front == s[..|s| - |t|]
  {
    front := s[..|s| - |t|];
  }

  /** A string is its front followed by its last `n` characters. */
  lemma TailSplit(s: string, n: nat) returns (front: string, tail: string)
    requires n <= |s|
    ensures s == front + tail && front == s[..|s| - n] && tail == s[|s| - n..]
  {
    front, tail := s[..|s| - n], s[|s| - n..];
  }

  /** The pieces peeled off a matched path put it back together. */
  lemma PatternWitness(path: string, p1: string, p2: string, p3: string, p4: string, pre: string, d1: string, d2: string)
    requires path == p1 + "/hold" && p1 == p2 + d2 && p2 == p3 + "/seats/" && p3 == p4 + d1 && p4 == pre + "/api/screenings/"
    requires NoLineTerminator(pre) && d1 != [] && AllDigits(d1) && d2 != [] && AllDigits(d2)
    ensures HoldPattern(path)
  {
    assert path == HoldPath(pre, d1, d2);
  }

  /** A matched path is built from the pattern's parts. */
  lemma HoldPatternOfMatch(path: string)
    requires MatchesHold(path)
    ensures HoldPattern(path)
  {
    var p1 := EndsWithSplit(path, "/hold");
    var p2, d2 := TailSplit(p1, TrailingDigitCount(p1));
    var p3 := EndsWithSplit(p2, "/seats/");
    var p4, d1 := TailSplit(p3, TrailingDigitCount(p3));
    var pre := EndsWithSplit(p4, "/api/screenings/");
    PatternWitness(path, p1, p2, p3, p4, pre, d1, d2);
  }

  /** Matching from the right decides the pattern: both directions. */
  lemma MatchesHoldSpec(path: string)
    ensures MatchesHold(path) <==> HoldPattern(path)
  {
    if HoldPattern(path) {
      var pre, d1, d2 :| path == HoldPath(pre, d1, d2)
                         && NoLineTerminator(pre) && d1 != [] && AllDigits(d1) && d2 != [] && AllDigits(d2);
      MatchesHoldOfParts(pre, d1, d2);
    }
    if MatchesHold(path) {
      HoldPatternOfMatch(path);
    }
  }

  /** `isReservationPath`: a POST (in any letter case) to pay, cancel, hold or release. */
  function IsReservationPath(path: Option<string>, httpMethod: string): (b: bool)
    ensures path.None? || !EqualsIgnoreCase(httpMethod, "POST") ==> !b
    ensures path.Some? && EqualsIgnoreCase(httpMethod, "POST") ==>
              (b <==> || path.value == "/api/reservations/pay"
                      || (StartsWith(path.value, "/api/reservations/") && EndsWith(path.value, "/cancel"))
                      || HoldPattern(path.value)
                      || (Contains(path.value, "/holds/release") && StartsWith(path.value, "/api/screenings")))
  {
    if path.None? || !EqualsIgnoreCase(httpMethod, "POST") then false
    else
      MatchesHoldSpec(path.value);
      if path.value == "/api/reservations/pay" then true
      else if StartsWith(path.value, "/api/reservations/") && EndsWith(path.value, "/cancel") then true
      else if MatchesHold(path.value) then true
      else Contains(path.value, "/holds/release") && StartsWith(path.value, "/api/screenings")
  }

  predicate IsAdminPath(path: Option<string>)
  {
    path.Some? && StartsWith(path.value, "/api/admin/")
  }

  /** `clientKey`: the first forwarded address, else the remote address, else "unknown". */
  function ApiClientKey(forwarded: Option<string>, remote: Option<string>): string
  {
    ClientKey(forwarded, if remote.Some? then remote.value else "unknown")
  }

  /** The counter key and the limit a request is counted against, if any. */
  function RateRule(limits: ApiLimits, httpMethod: Option<string>, path: Option<string>,
                    forwarded: Option<string>, remote: Option<string>): Option<(string, int)>
  {
    var m := if httpMethod.Some? then httpMethod.value else "";
    if IsAdminPath(path) then Some(("admin:ip:" + ApiClientKey(forwarded, remote), limits.adminPerMinute))
    else if IsReservationPath(path, m) then Some(("reservation:ip:" + ApiClientKey(forwarded, remote), limits.reservationPerMinute))
    else None
  }

  /** `doFilterInternal`: the verdict and the counters afterwards. */
  function ApiFilterStep(counters: map<string, Counter>, limits: ApiLimits, httpMethod: Option<string>,
                         path: Option<string>, forwarded: Option<string>, remote: Option<string>,
                         now: int, incrOk: bool, expireOk: bool): (Verdict, map<string, Counter>)
  {
    match RateRule(limits, httpMethod, path, forwarded, remote)
    case None => (PassedOn, counters)
    case Some((rateKey, limit)) =>
      if limit <= 0 then (PassedOn, counters)
      else
        var (allowed, after) := TryAcquireStep(counters, rateKey, limit, WindowSeconds, now, incrOk, expireOk);
        (if allowed then PassedOn else TooManyRequests, after)
  }

  /**
   * An admin path is counted under "admin:ip:" with the admin limit whatever the method, even
   * when it is also a booking request; a booking request elsewhere is counted under
   * "reservation:ip:" with the reservation limit; anything else is not counted.
   */
  lemma RateRuleSpec(limits: ApiLimits, httpMethod: Option<string>, path: Option<string>,
                     forwarded: Option<string>, remote: Option<string>)
    ensures var r := RateRule(limits, httpMethod, path, forwarded, remote);
      var key := ApiClientKey(forwarded, remote);
      var m := if httpMethod.Some? then httpMethod.value else "";
      && (IsAdminPath(path) ==> r == Some(("admin:ip:" + key, limits.adminPerMinute)))
      && (!IsAdminPath(path) && IsReservationPath(path, m) ==> r == Some(("reservation:ip:" + key, limits.reservationPerMinute)))
      && (r.None? <==> !IsAdminPath(path) && !IsReservationPath(path, m))
  {
  }

  /** No request with a missing method is a booking request. */
  lemma MissingMethodIsNotBooking(path: Option<string>)
    ensures !IsReservationPath(path, "")
  {
    assert !EqualsIgnoreCase("", "POST");
  }

  /**
   * An uncounted request, or one whose limit is not positive, passes with the counters untouched;
   * a counted one is refused exactly when the counter call refuses it, and changes the counters
   * exactly as that call does.
   */
  lemma ApiFilterSpec(counters: map<string, Counter>, limits: ApiLimits, httpMethod: Option<string>,
                      path: Option<string>, forwarded: Option<string>, remote: Option<string>,
                      now: int, incrOk: bool, expireOk: bool)
    ensures var rule := RateRule(limits, httpMethod, path, forwarded, remote);
      var r := ApiFilterStep(counters, limits, httpMethod, path, forwarded, remote, now, incrOk, expireOk);
      && (rule.None? || rule.value.1 <= 0 ==> r == (PassedOn, counters))
      && (rule.Some? && rule.value.1 > 0 ==>
            var acquired := TryAcquireStep(counters, rule.value.0, rule.value.1, WindowSeconds, now, incrOk, expireOk);
            && (r.0 == TooManyRequests <==> !acquired.0)
            && r.1 == acquired.1)
  {
  }

  /** Two clients with different keys never share a counter, and admin and booking counters never meet. */
  lemma RateKeysSeparate(k1: string, k2: string)
    ensures ("admin:ip:" + k1 == "admin:ip:" + k2) <==> k1 == k2
    ensures ("reservation:ip:" + k1 == "reservation:ip:" + k2) <==> k1 == k2
    ensures "admin:ip:" + k1 != "reservation:ip:" + k2
  {
    if "admin:ip:" + k1 == "admin:ip:" + k2 {
      assert k1 == ("admin:ip:" + k1)[9..];
    }
    if "reservation:ip:" + k1 == "reservation:ip:" + k2 {
      assert k1 == ("reservation:ip:" + k1)[15..];
    }
    assert ("admin:ip:" + k1)[0] != ("reservation:ip:" + k2)[0];
  }

  class ApiRateLimitFilter {
    const limiter: RedisRateLimitService
    const reservationPerMinute: int
    const adminPerMinute: int

    constructor (limiter: RedisRateLimitService, reservationPerMinute: int, adminPerMinute: int)
      ensures this.limiter == limiter
      ensures this.reservationPerMinute == reservationPerMinute && this.adminPerMinute == adminPerMinute
    {
      this.limiter := limiter;
      this.reservationPerMinute := reservationPerMinute;
      this.adminPerMinute := adminPerMinute;
    }

    /** `doFilterInternal` for one request; the counter store belongs to `limiter`. */
    method DoFilter(httpMethod: Option<string>, path: Option<string>, forwarded: Option<string>,
                    remote: Option<string>, now: int, incrOk: bool, expireOk: bool) returns (v: Verdict)
      modifies limiter
      ensures (v, limiter.counters) == ApiFilterStep(old(limiter.counters), ApiLimits(reservationPerMinute, adminPerMinute),
                                                     httpMethod, path, forwarded, remote, now, incrOk, expireOk)
    {
      var m := if httpMethod.Some? then httpMethod.value else "";
      var rateKey: Option<string> := None;
      var limit := -1;
      if IsAdminPath(path) {
        rateKey, limit := Some("admin:ip:" + ApiClientKey(forwarded, remote)), adminPerMinute;
      } else if IsReservationPath(path, m) {
        rateKey, limit := Some("reservation:ip:" + ApiClientKey(forwarded, remote)), reservationPerMinute;
      }
      if rateKey.None? || limit <= 0 {
        return PassedOn;
      }
      var allowed := limiter.TryAcquire(rateKey.value, limit, WindowSeconds, now, incrOk, expireOk);
      v := if allowed then PassedOn else TooManyRequests;
    }
  }
}

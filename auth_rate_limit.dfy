/**
 * Per-client rate limiting of the authentication endpoints
 * (global/security/AuthRateLimitFilter.java): for a POST to login, signup or refresh, the
 * client's deque of request times is pruned to the last 60 seconds; the request is refused
 * with 429 when the deque already holds `limit` entries, and recorded otherwise.
 * `System.currentTimeMillis()` is the `now` parameter.
 */
module AuthRateLimit {
  import opened Common
  import opened Text
  import opened SlidingWindow
  import opened ForwardedFor

  const DefaultLoginPerMinute: int := 10
  const DefaultSignupPerMinute: int := 5
  const DefaultRefreshPerMinute: int := 20
  /** Entries more than this many milliseconds old are dropped. */
  const WindowMillis: int := 60_000

  datatype AuthEndpoint = LOGIN | SIGNUP | REFRESH

  /** The three per-endpoint stores, each a map from client key to request times. */
  datatype AuthStores = AuthStores(login: map<string, seq<int>>, signup: map<string, seq<int>>, refresh: map<string, seq<int>>)

  datatype Limits = Limits(loginPerMinute: int, signupPerMinute: int, refreshPerMinute: int)

  /** Login is checked first, then signup, then refresh. */
  function Classify(path: Option<string>): (e: Option<AuthEndpoint>)
    ensures e == Some(LOGIN) <==> path.Some? && Contains(path.value, "/members/login")
    ensures e == Some(SIGNUP) <==> path.Some? && !Contains(path.value, "/members/login") && Contains(path.value, "/members/signup")
    ensures e == Some(REFRESH) <==> path.Some? && !Contains(path.value, "/members/login")
                                    && !Contains(path.value, "/members/signup") && Contains(path.value, "/members/refresh")
  {
    if path.None? then None
    else if Contains(path.value, "/members/login") then Some(LOGIN)
    else if Contains(path.value, "/members/signup") then Some(SIGNUP)
    else if Contains(path.value, "/members/refresh") then Some(REFRESH)
    else None
  }

  function LimitOf(limits: Limits, e: AuthEndpoint): int
  {
    match e
    case LOGIN => limits.loginPerMinute
    case SIGNUP => limits.signupPerMinute
    case REFRESH => limits.refreshPerMinute
  }

  function StoreOf(st: AuthStores, e: AuthEndpoint): map<string, seq<int>>
  {
    match e
    case LOGIN => st.login
    case SIGNUP => st.signup
    case REFRESH => st.refresh
  }

  function WithStore(st: AuthStores, e: AuthEndpoint, m: map<string, seq<int>>): AuthStores
  {
    match e
    case LOGIN => st.(login := m)
    case SIGNUP => st.(signup := m)
    case REFRESH => st.(refresh := m)
  }

  function TimesOf(m: map<string, seq<int>>, key: string): seq<int>
  {
    if key in m then m[key] else []
  }

  /** The synchronized block: prune, then refuse at `limit` entries or append `now`. */
  function AdmitStep(times: seq<int>, now: int, limit: int): (r: (bool, seq<int>))
  {
    var pruned := Pruned(times, now, WindowMillis);
    if |pruned| >= limit then (false, pruned) else (true, pruned + [now])
  }

  /** The rate-limited part of `doFilterInternal`, for endpoint `e` and client `key`. */
  function EndpointStep(st: AuthStores, limits: Limits, e: AuthEndpoint, key: string, now: int): (Verdict, AuthStores)
  {
    var m := StoreOf(st, e);
    var (admitted, times) := AdmitStep(TimesOf(m, key), now, LimitOf(limits, e));
    (if admitted then PassedOn else TooManyRequests, WithStore(st, e, m[key := times]))
  }

  /** `doFilterInternal`. */
  function DoFilterStep(st: AuthStores, limits: Limits, httpMethod: string, path: Option<string>,
                        forwarded: Option<string>, remote: string, now: int): (Verdict, AuthStores)
  {
    if !EqualsIgnoreCase(httpMethod, "POST") then (PassedOn, st)
    else
      match Classify(path)
      case None => (PassedOn, st)
      case Some(e) => EndpointStep(st, limits, e, ClientKey(forwarded, remote), now)
  }

  /** No deque holds more entries than its endpoint's limit (none when the limit is not positive). */
  predicate WindowsBounded(st: AuthStores, limits: Limits)
  {
    forall e: AuthEndpoint, key :: key in StoreOf(st, e) ==> |StoreOf(st, e)[key]| <= Cap(LimitOf(limits, e))
  }

  function Cap(limit: int): nat
  {
    if limit < 0 then 0 else limit
  }

  /**
   * A request is refused exactly when, after the entries older than a minute are dropped, its
   * client already has `limit` recent requests; a refused request is not recorded, an admitted
   * one is appended; other endpoints and other clients are untouched.
   */
  lemma EndpointStepSpec(st: AuthStores, limits: Limits, e: AuthEndpoint, key: string, now: int)
    ensures var r := EndpointStep(st, limits, e, key, now);
      var pruned := Pruned(TimesOf(StoreOf(st, e), key), now, WindowMillis);
      && (r.0 == TooManyRequests <==> |pruned| >= LimitOf(limits, e))
      && StoreOf(r.1, e) == StoreOf(st, e)[key := if r.0 == TooManyRequests then pruned else pruned + [now]]
      && (forall other: AuthEndpoint :: other != e ==> StoreOf(r.1, other) == StoreOf(st, other))
  {
  }

  /** Non-POST requests and other paths pass untouched; the rest go through the endpoint's window. */
  lemma DoFilterSpec(st: AuthStores, limits: Limits, httpMethod: string, path: Option<string>,
                     forwarded: Option<string>, remote: string, now: int)
    ensures !EqualsIgnoreCase(httpMethod, "POST") || Classify(path).None? ==>
              DoFilterStep(st, limits, httpMethod, path, forwarded, remote, now) == (PassedOn, st)
    ensures EqualsIgnoreCase(httpMethod, "POST") && Classify(path).Some? ==>
              DoFilterStep(st, limits, httpMethod, path, forwarded, remote, now)
              == EndpointStep(st, limits, Classify(path).value, ClientKey(forwarded, remote), now)
  {
  }

  /** Admitting or refusing keeps every deque within its limit. */
  lemma EndpointStepKeepsBound(st: AuthStores, limits: Limits, e: AuthEndpoint, key: string, now: int)
    requires WindowsBounded(st, limits)
    ensures WindowsBounded(EndpointStep(st, limits, e, key, now).1, limits)
  {
    var st' := EndpointStep(st, limits, e, key, now).1;
    var before := TimesOf(StoreOf(st, e), key);
    assert |Pruned(before, now, WindowMillis)| <= |before| <= Cap(LimitOf(limits, e));
    forall e': AuthEndpoint, k | k in StoreOf(st', e')
      ensures |StoreOf(st', e')[k]| <= Cap(LimitOf(limits, e'))
    {
      if e' != e || k != key {
        assert k in StoreOf(st, e') && StoreOf(st', e')[k] == StoreOf(st, e')[k];
      }
    }
  }

  /** The filter keeps every deque within its limit. */
  lemma DoFilterKeepsBound(st: AuthStores, limits: Limits, httpMethod: string, path: Option<string>,
                           forwarded: Option<string>, remote: string, now: int)
    requires WindowsBounded(st, limits)
    ensures WindowsBounded(DoFilterStep(st, limits, httpMethod, path, forwarded, remote, now).1, limits)
  {
    if EqualsIgnoreCase(httpMethod, "POST") && Classify(path).Some? {
      EndpointStepKeepsBound(st, limits, Classify(path).value, ClientKey(forwarded, remote), now);
    }
  }

  class AuthRateLimitFilter {
    const loginPerMinute: int
    const signupPerMinute: int
    const refreshPerMinute: int
    var loginTimes: map<string, seq<int>>
    var signupTimes: map<string, seq<int>>
    var refreshTimes: map<string, seq<int>>

    function Stores(): AuthStores
      reads this
    {
      AuthStores(loginTimes, signupTimes, refreshTimes)
    }

    function Configured(): Limits
    {
      Limits(loginPerMinute, signupPerMinute, refreshPerMinute)
    }

    ghost predicate Valid()
      reads this
    {
      WindowsBounded(Stores(), Configured())
    }

    constructor (loginPerMinute: int, signupPerMinute: int, refreshPerMinute: int)
      ensures Configured() == Limits(loginPerMinute, signupPerMinute, refreshPerMinute)
      ensures Stores() == AuthStores(map[], map[], map[])
      ensures Valid()
    {
      this.loginPerMinute := loginPerMinute;
      this.signupPerMinute := signupPerMinute;
      this.refreshPerMinute := refreshPerMinute;
      loginTimes, signupTimes, refreshTimes := map[], map[], map[];
    }

    /** The synchronized block on one deque: the pruning loop, then the limit check. */
    static method Admit(times: seq<int>, now: int, limit: int) returns (admitted: bool, kept: seq<int>)
      ensures (admitted, kept) == AdmitStep(times, now, limit)
    {
      kept := times;
      while kept != [] && now - kept[0] > 60_000
        invariant Pruned(kept, now, WindowMillis) == Pruned(times, now, WindowMillis)
        decreases |kept|
      {
        kept := kept[1..];
      }
      if |kept| >= limit {
        return false, kept;
      }
      admitted, kept := true, kept + [now];
    }

    /** `doFilterInternal` for one request. */
    method DoFilter(httpMethod: string, path: Option<string>, forwarded: Option<string>, remote: string, now: int)
      returns (v: Verdict)
      requires Valid()
      modifies this
      ensures Valid()
      ensures (v, Stores()) == DoFilterStep(old(Stores()), Configured(), httpMethod, path, forwarded, remote, now)
    {
      DoFilterKeepsBound(Stores(), Configured(), httpMethod, path, forwarded, remote, now);
      if !EqualsIgnoreCase(httpMethod, "POST") {
        return PassedOn;
      }
      var endpoint := Classify(path);
      if endpoint.None? {
        return PassedOn;
      }
      var e := endpoint.value;
      var key := ClientKey(forwarded, remote);
      var m := StoreOf(Stores(), e);
      var admitted, times := Admit(TimesOf(m, key), now, LimitOf(Configured(), e));
      match e {
        case LOGIN => loginTimes := loginTimes[key := times];
        case SIGNUP => signupTimes := signupTimes[key := times];
        case REFRESH => refreshTimes := refreshTimes[key := times];
      }
      v := if admitted then PassedOn else TooManyRequests;
    }
  }
}

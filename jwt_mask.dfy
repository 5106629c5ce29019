/**
 * How a token is shown in logs (global/jwt/JwtTokenProvider.java, `maskToken`): its first ten
 * characters and "...", or "***" for a missing or short token. Signing and parsing tokens are
 * not part of this model.
 */
module JwtMask {
  import opened Common

  /** How many leading characters of a token a log line may show. */
  const ShownPrefix: nat := 10

  /** `maskToken`: None is a null token. */
  function MaskToken(token: Option<string>): (r: string)
    ensures token.None? || |token.value| < ShownPrefix ==> r == "***"
    ensures token.Some? && |token.value| >= ShownPrefix ==> r == token.value[..ShownPrefix] + "..."
  {
    if token.None? || |token.value| < ShownPrefix then "***" else token.value[..ShownPrefix] + "..."
  }

  /**
   * A masked token is never longer than 13 characters, and what it shows of the token is a
   * prefix of at most ten characters: nothing at index 10 or later reaches the log.
   */
  lemma MaskTokenBounded(token: Option<string>)
    ensures |MaskToken(token)| <= ShownPrefix + 3
    ensures token.Some? && |token.value| >= ShownPrefix ==>
              MaskToken(token)[..ShownPrefix] == token.value[..ShownPrefix] && MaskToken(token)[ShownPrefix..] == "..."
  {
    if token.Some? && |token.value| >= ShownPrefix {
      var r := MaskToken(token);
      assert r[..ShownPrefix] == token.value[..ShownPrefix];
    }
  }

  /** Two tokens that agree on their first ten characters are masked alike, whatever follows. */
  lemma MaskTokenHidesTail(a: string, b: string)
    requires |a| >= ShownPrefix && |b| >= ShownPrefix && a[..ShownPrefix] == b[..ShownPrefix]
    ensures MaskToken(Some(a)) == MaskToken(Some(b))
  {
  }
}

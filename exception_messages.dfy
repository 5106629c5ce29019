/**
 * The messages the global exception handler puts in an error response
 * (global/exception/GlobalExceptionHandler.java): the detail a business exception adds after
 * its error code's own message, and the one-line summary of failed field validations.
 * The exception classes that build the full message are not part of this model, so the full
 * message is an input.
 */
module ExceptionMessages {
  import opened Common
  import opened Seqs
  import opened Text

  /**
   * `extractAdditionalMessage`: what the full message (None for null) adds after the code's
   * base message, trimmed; "" when it does not extend the base.
   */
  function ExtractAdditionalMessage(full: Option<string>, base: string): (r: string)
    ensures r != "" ==> full.Some? && StartsWith(full.value, base) && |full.value| > |base|
    ensures full.None? || !StartsWith(full.value, base) || |full.value| <= |base| ==> r == ""
    ensures r != "" ==> |r| <= |full.value| - |base| && exists k :: |base| <= k && OccursAt(full.value, r, k)
  {
    if full.Some? && StartsWith(full.value, base) && |full.value| > |base| then
      var tail := full.value[|base|..];
      TrimSpec(tail);
      var k :| OccursAt(tail, Trim(tail), k);
      OccursInTail(full.value, |base|, Trim(tail), k);
      Trim(tail)
    else ""
  }

  /** An occurrence in the tail of `s` after `n` is an occurrence in `s`, at or after `n`. */
  lemma OccursInTail(s: string, n: nat, t: string, k: int)
    requires n <= |s| && OccursAt(s[n..], t, k)
    ensures n <= n + k && OccursAt(s, t, n + k)
  {
    assert s[n + k..n + k + |t|] == s[n..][k..k + |t|];
  }

  /** Leading padding is skipped by `trim` up to the first character it keeps. */
  lemma {:induction false} TrimStartSkips(pad: string, detail: string)
    requires forall i :: 0 <= i < |pad| ==> IsTrimmable(pad[i])
    requires detail == [] || !IsTrimmable(detail[0])
    ensures TrimStart(pad + detail) == detail
    decreases |pad|
  {
    if pad == [] {
      assert pad + detail == detail;
    } else {
      assert (pad + detail)[1..] == pad[1..] + detail;
      TrimStartSkips(pad[1..], detail);
    }
  }

  /**
   * A full message made of the base, any padding and an already trimmed detail gives that
   * detail back; the full message equal to the base gives "".
   */
  lemma AdditionalMessageRoundTrip(base: string, pad: string, detail: string)
    requires forall i :: 0 <= i < |pad| ==> IsTrimmable(pad[i])
    requires detail == [] || (!IsTrimmable(detail[0]) && !IsTrimmable(detail[|detail| - 1]))
    ensures ExtractAdditionalMessage(Some(base + pad + detail), base) == detail
  {
    var full := base + pad + detail;
    assert full[..|base|] == base;
    if |full| > |base| {
      assert full[|base|..] == pad + detail;
      TrimStartSkips(pad, detail);
      TrimOfTrimmed(detail);
    }
  }

  /** A field error: the field name and its default message (None for null). */
  datatype FieldError = FieldError(field: string, defaultMessage: Option<string>)

  /** `error.getField() + ": " + error.getDefaultMessage()`; a null message prints as "null". */
  function RenderFieldError(e: FieldError): string
  {
    e.field + ": " + (if e.defaultMessage.Some? then e.defaultMessage.value else "null")
  }

  /** `handleValidationException`: the rendered field errors joined by ", ", under INVALID_INPUT. */
  function ValidationResponse(errors: seq<FieldError>): (ErrorCode, string)
  {
    (INVALID_INPUT, Join(Map(errors, RenderFieldError), ", "))
  }

  /**
   * The validation response is INVALID_INPUT, and its message lays out each field error's
   * "field: message" text in the order the errors come, with ", " between neighbours and
   * nothing else; no errors give "".
   */
  lemma ValidationResponseSpec(errors: seq<FieldError>)
    ensures var (code, msg) := ValidationResponse(errors);
      var parts := Map(errors, RenderFieldError);
      && code == INVALID_INPUT
      && |parts| == |errors| && (forall i :: 0 <= i < |errors| ==> parts[i] == RenderFieldError(errors[i]))
      && LaidOut(msg, parts, ", ")
  {
    JoinLayout(Map(errors, RenderFieldError), ", ");
  }
}

/**
 * The client key both rate-limit filters derive from a request
 * (global/security/AuthRateLimitFilter.java and global/security/ApiRateLimitFilter.java):
 * the first entry of the `X-Forwarded-For` header, trimmed, when the header is present and
 * not blank, else the remote address. `String.split(",")` is modelled with its Java meaning,
 * trailing empty strings removed.
 */
module ForwardedFor {
  import opened Common
  import opened Text

  /** Every piece between separators `c`, empty pieces included (`split(c, -1)`). */
  function Pieces(s: string, c: char): (r: seq<string>)
    ensures |r| >= 1
  {
    if s == [] then [[]]
    else
      var rest := Pieces(s[1..], c);
      if s[0] == c then [[]] + rest else [[s[0]] + rest[0]] + rest[1..]
  }

  /** The text before the first `c` (all of `s` when there is none). */
  function BeforeFirst(s: string, c: char): (r: string)
    ensures |r| <= |s| && r == s[..|r|]
    ensures forall i :: 0 <= i < |r| ==> r[i] != c
    ensures |r| < |s| ==> s[|r|] == c
  {
    if s == [] || s[0] == c then [] else [s[0]] + BeforeFirst(s[1..], c)
  }

  lemma {:induction false} FirstPieceIsBeforeFirst(s: string, c: char)
    ensures Pieces(s, c)[0] == BeforeFirst(s, c)
    decreases |s|
  {
    if s != [] && s[0] != c {
      FirstPieceIsBeforeFirst(s[1..], c);
    }
  }

  /** The pieces of `s` are all empty exactly when `s` holds nothing but separators. */
  lemma {:induction false} PiecesAllEmpty(s: string, c: char)
    ensures (forall i :: 0 <= i < |Pieces(s, c)| ==> Pieces(s, c)[i] == []) <==> (forall i :: 0 <= i < |s| ==> s[i] == c)
    decreases |s|
  {
    if s != [] {
      PiecesAllEmpty(s[1..], c);
      var rest := Pieces(s[1..], c);
      if s[0] == c {
        var ps := Pieces(s, c);
        assert ps == [[]] + rest;
        assert forall i :: 1 <= i < |ps| ==> ps[i] == rest[i - 1];
        assert forall i :: 1 <= i < |s| ==> s[i] == s[1..][i - 1];
        if forall i :: 0 <= i < |ps| ==> ps[i] == [] {
          assert forall i :: 0 <= i < |rest| ==> rest[i] == ps[i + 1];
        }
        if forall i :: 0 <= i < |s| ==> s[i] == c {
          assert forall i :: 0 <= i < |s[1..]| ==> s[1..][i] == s[i + 1];
        }
      } else {
        assert Pieces(s, c)[0] != [];
      }
    }
  }

  /** Drops the empty strings at the end of a list. */
  function DropTrailingEmpty(ps: seq<string>): (r: seq<string>)
    ensures |r| <= |ps| && r == ps[..|r|]
    ensures r == [] <==> forall i :: 0 <= i < |ps| ==> ps[i] == []
  {
    if ps == [] then []
    else if ps[|ps| - 1] == [] then
      var r := DropTrailingEmpty(ps[..|ps| - 1]);
      assert forall i :: 0 <= i < |ps| - 1 ==> ps[..|ps| - 1][i] == ps[i];
      r
    else ps
  }

  /** `s.split(c)` for a one-character literal separator. */
  function JavaSplit(s: string, c: char): seq<string>
  {
    if s == [] then [s] else DropTrailingEmpty(Pieces(s, c))
  }

  /**
   * The split has no entry exactly when the string is made of separators only; otherwise its
   * first entry is the text before the first separator.
   */
  lemma JavaSplitSpec(s: string, c: char)
    ensures JavaSplit(s, c) == [] <==> s != [] && forall i :: 0 <= i < |s| ==> s[i] == c
    ensures JavaSplit(s, c) != [] ==> JavaSplit(s, c)[0] == BeforeFirst(s, c)
  {
    PiecesAllEmpty(s, c);
    FirstPieceIsBeforeFirst(s, c);
  }

  /** `forwarded.split(",")[0].trim()` as written: None where indexing throws. */
  function FirstForwardedAsWritten(forwarded: string): Option<string>
  {
    var parts := JavaSplit(forwarded, ',');
    if parts == [] then None else Some(Trim(parts[0]))
  }

  /** A header of commas only (such as ",") is not blank, yet leaves `split` with no first entry. */
  lemma CommasOnlyHeaderThrows(forwarded: string)
    requires forwarded != [] && forall i :: 0 <= i < |forwarded| ==> forwarded[i] == ','
    ensures !IsBlank(forwarded) && FirstForwardedAsWritten(forwarded) == None
  {
    assert !IsJavaWhitespace(forwarded[0]);
    JavaSplitSpec(forwarded, ',');
  }

  /** The client key with a missing entry treated like a missing header: the remote address. */
  function ClientKey(forwarded: Option<string>, remote: string): (key: string)
  {
    if forwarded.Some? && !IsBlank(forwarded.value) then
      match FirstForwardedAsWritten(forwarded.value)
      case Some(first) => first
      case None => remote
    else remote
  }

  /** The key is the trimmed text before the first comma of a non-blank header that holds
    * something besides commas, and the remote address otherwise; it agrees with the code as
    * written wherever that does not throw. */
  lemma ClientKeySpec(forwarded: Option<string>, remote: string)
    ensures forwarded.Some? && !IsBlank(forwarded.value) && (exists i :: 0 <= i < |forwarded.value| && forwarded.value[i] != ',')
            ==> ClientKey(forwarded, remote) == Trim(BeforeFirst(forwarded.value, ','))
                && FirstForwardedAsWritten(forwarded.value) == Some(ClientKey(forwarded, remote))
    ensures forwarded.None? || IsBlank(forwarded.value) || (forall i :: 0 <= i < |forwarded.value| ==> forwarded.value[i] == ',')
            ==> ClientKey(forwarded, remote) == remote
  {
    if forwarded.Some? {
      JavaSplitSpec(forwarded.value, ',');
    }
  }
}

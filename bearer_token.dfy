/**
 * Token handling in backend/config/jwt.php: reading the bearer token out of
 * the `Authorization` header with the pattern `Bearer\s(\S+)`, and the
 * claims of a generated token. Signing and verifying tokens belong to the
 * JWT library and are not part of this model; the request headers and the
 * clock are parameters.
 */
module BearerToken {
  import opened Common

  /** PCRE's `\s` without the Unicode flag: space, tab, LF, VT, FF, CR. */
  predicate IsSpace(c: char)
  {
    c == ' ' || c == '\t' || c == '\n' || c == '\U{0B}' || c == '\U{0C}' || c == '\r'
  }

  const Bearer: string := "Bearer"

  /**
   * The pattern can start matching at p: "Bearer", one whitespace character,
   * then at least one non-whitespace character.
   */
  predicate MatchesAt(s: string, p: nat)
  {
    p + 8 <= |s| && s[p..p + 6] == Bearer && IsSpace(s[p + 6]) && !IsSpace(s[p + 7])
  }

  /** The end of the run of non-whitespace characters starting at i. */
  function RunEnd(s: string, i: nat): (j: nat)
    requires i <= |s|
    ensures i <= j <= |s|
    ensures forall k :: i <= k < j ==> !IsSpace(s[k])
    ensures j == |s| || IsSpace(s[j])
    decreases |s| - i
  {
    if i == |s| || IsSpace(s[i]) then i else RunEnd(s, i + 1)
  }

  /** The leftmost position at or after `from` where the pattern matches. */
  function FindMatch(s: string, from: nat): (r: Option<nat>)
    ensures r.None? <==> forall q :: from <= q < |s| ==> !MatchesAt(s, q)
    ensures r.Some? ==> from <= r.value < |s| && MatchesAt(s, r.value)
    ensures r.Some? ==> forall q :: from <= q < r.value ==> !MatchesAt(s, q)
    decreases |s| - from
  {
    if from >= |s| then None
    else if MatchesAt(s, from) then Some(from)
    else FindMatch(s, from + 1)
  }

  /**
   * Line 36: `preg_match('/Bearer\s(\S+)/', ...)` and its first group. The
   * match is unanchored and leftmost; the group is greedy.
   */
  function ExtractBearer(header: string): (token: Option<string>)
    ensures token.None? <==> forall q :: 0 <= q < |header| ==> !MatchesAt(header, q)
    ensures token.Some? ==> |token.value| > 0 && forall k :: 0 <= k < |token.value| ==> !IsSpace(token.value[k])
  {
    match FindMatch(header, 0)
    case None => None
    case Some(p) => Some(header[p + 7..RunEnd(header, p + 7)])
  }

  /**
   * The token is the whole whitespace-free run right after the leftmost
   * "Bearer" and one whitespace character.
   */
  lemma ExtractedTokenIsLeftmostMaximalRun(header: string)
    requires exists q :: 0 <= q < |header| && MatchesAt(header, q)
    ensures var p := FindMatch(header, 0).value;
      MatchesAt(header, p) &&
      (forall q :: 0 <= q < p ==> !MatchesAt(header, q)) &&
      ExtractBearer(header) == Some(header[p + 7..RunEnd(header, p + 7)]) &&
      (RunEnd(header, p + 7) == |header| || IsSpace(header[RunEnd(header, p + 7)]))
  {
  }

  /** Lines 32-41: no `Authorization` entry, or no match in it, gives null. */
  function GetTokenFromHeader(headers: map<string, string>): (token: Option<string>)
    ensures "Authorization" !in headers ==> token == None
    ensures "Authorization" in headers ==> token == ExtractBearer(headers["Authorization"])
  {
    if "Authorization" in headers then ExtractBearer(headers["Authorization"]) else None
  }

  /** A plain header yields its token. */
  lemma PlainHeader()
    ensures ExtractBearer("Bearer abc") == Some("abc")
  {
    var h := "Bearer abc";
    assert MatchesAt(h, 0);
    assert FindMatch(h, 0) == Some(0);
    assert RunEnd(h, 10) == 10;
    assert RunEnd(h, 9) == 10;
    assert RunEnd(h, 8) == 10;
    assert RunEnd(h, 7) == 10;
    assert h[7..10] == "abc";
  }

  /** The match is unanchored, and the token stops at the first whitespace. */
  lemma PrefixedHeader()
    ensures ExtractBearer("xBearer\tab cd") == Some("ab")
  {
    var h := "xBearer\tab cd";
    assert !MatchesAt(h, 0);
    assert MatchesAt(h, 1);
    assert FindMatch(h, 1) == Some(1);
    assert FindMatch(h, 0) == Some(1);
    assert RunEnd(h, 10) == 10;
    assert RunEnd(h, 9) == 10;
    assert RunEnd(h, 8) == 10;
    assert h[8..10] == "ab";
  }

  /** Two spaces after "Bearer", or a lower-case "bearer", do not match. */
  lemma RejectedHeaders()
    ensures ExtractBearer("Bearer  abc") == None
    ensures ExtractBearer("bearer abc") == None
  {
    var h1 := "Bearer  abc";
    forall q | 0 <= q < |h1|
      ensures !MatchesAt(h1, q)
    {
      if q > 0 && q + 8 <= |h1| {
        assert h1[q..q + 6][0] == h1[q];
      }
    }
    var h2 := "bearer abc";
    forall q | 0 <= q < |h2|
      ensures !MatchesAt(h2, q)
    {
      if q + 8 <= |h2| {
        assert h2[q..q + 6][0] == h2[q];
      }
    }
  }

  /** Line 16: 24 hours in seconds. */
  const Lifetime: int := 24 * 60 * 60

  datatype Payload<T> = Payload(iss: string, aud: string, iat: int, exp: int, data: T)

  /**
   * Lines 11-18. `time()` is read twice, once for `iat` and once for `exp`;
   * the two readings are `issuedAt` and `expiresFrom`.
   */
  function GeneratePayload<T>(userData: T, issuedAt: int, expiresFrom: int): (p: Payload<T>)
    ensures p.iss == "spk-system" && p.aud == "spk-users" && p.data == userData
    ensures p.iat == issuedAt
    ensures p.exp == expiresFrom + 86400
    ensures issuedAt <= expiresFrom ==> p.exp - p.iat >= 86400
    ensures issuedAt == expiresFrom ==> p.exp - p.iat == 86400
  {
    Payload("spk-system", "spk-users", issuedAt, expiresFrom + Lifetime, userData)
  }
}

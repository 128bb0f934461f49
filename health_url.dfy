/**
 * The health-check URL derived from the contact endpoint:
 * `BACKEND_API_URL.replace(/\/api\/contact\/?$/, '/api/health')`.
 */
module HealthUrl {

  const ContactPath: string := "/api/contact"
  const HealthPath: string := "/api/health"

  /** The contact endpoint the page posts to. */
  const BackendApiUrl: string := "https://greyroomchats-backend.onrender.com/api/contact"

  predicate EndsWith(s: string, suffix: string) {
    |suffix| <= |s| && s[|s| - |suffix|..] == suffix
  }

  /**
   * The pattern `\/api\/contact\/?$` matches `s` starting at position `p`: the
   * rest of `s` is `/api/contact`, with or without one trailing `/`, and then
   * the end of the string.
   */
  predicate MatchAt(s: string, p: nat) {
    p <= |s| && (s[p..] == ContactPath || s[p..] == ContactPath + "/")
  }

  /** The suffix rewrite: a trailing `/api/contact` or `/api/contact/` becomes `/api/health`. */
  function HealthUrlOf(apiUrl: string): (r: string)
    ensures |r| < |apiUrl| || r == apiUrl
  {
    if EndsWith(apiUrl, ContactPath) then
      apiUrl[..|apiUrl| - |ContactPath|] + HealthPath
    else if EndsWith(apiUrl, ContactPath + "/") then
      apiUrl[..|apiUrl| - |ContactPath| - 1] + HealthPath
    else
      apiUrl
  }

  /** A match covers the last 12 or 13 characters, so the last one is `t` or `/` accordingly. */
  lemma MatchEnd(s: string, p: nat)
    ensures MatchAt(s, p) ==>
      (|s| - p == |ContactPath| && s[|s| - 1] == 't') ||
      (|s| - p == |ContactPath| + 1 && s[|s| - 1] == '/')
  {
    if MatchAt(s, p) {
      assert s[p..][|s| - p - 1] == s[|s| - 1];
    }
  }

  /** The pattern can match at one position at most. */
  lemma MatchIsUnique(s: string, p: nat, q: nat)
    requires MatchAt(s, p) && MatchAt(s, q)
    ensures p == q
  {
    MatchEnd(s, p);
    MatchEnd(s, q);
  }

  /** Where the pattern matches, `replace` keeps what precedes the match and appends `/api/health`. */
  lemma ReplacesTheMatch(s: string, p: nat)
    requires MatchAt(s, p)
    ensures HealthUrlOf(s) == s[..p] + HealthPath
  {
    MatchEnd(s, p);
    var k := |s| - |ContactPath|;
    MatchEnd(s, k);
    assert EndsWith(s, ContactPath) <==> MatchAt(s, k);
  }

  /** Where the pattern matches nowhere, `replace` returns the string unchanged. */
  lemma NoMatchUnchanged(s: string)
    requires forall p: nat :: p <= |s| ==> !MatchAt(s, p)
    ensures HealthUrlOf(s) == s
  {
    assert EndsWith(s, ContactPath) ==> MatchAt(s, |s| - |ContactPath|);
    assert EndsWith(s, ContactPath + "/") ==> MatchAt(s, |s| - |ContactPath| - 1);
  }

  /** A derived URL ends in `/api/health`, which the pattern does not match: deriving again changes nothing. */
  lemma HealthUrlIdempotent(s: string)
    ensures HealthUrlOf(HealthUrlOf(s)) == HealthUrlOf(s)
  {
    var r := HealthUrlOf(s);
    if r != s {
      assert r[|r| - 1] == 'h' by {
        assert r[|r| - |HealthPath|..] == HealthPath;
        assert r[|r| - |HealthPath|..][|HealthPath| - 1] == r[|r| - 1];
      }
      forall p: nat | p <= |r|
        ensures !MatchAt(r, p)
      {
        MatchEnd(r, p);
      }
      NoMatchUnchanged(r);
    }
  }

  /** The page's own endpoint maps to its health check. */
  lemma BackendHealthUrl()
    ensures HealthUrlOf(BackendApiUrl) == "https://greyroomchats-backend.onrender.com/api/health"
  {
    assert EndsWith(BackendApiUrl, ContactPath);
  }
}

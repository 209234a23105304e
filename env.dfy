/** Resolution of the upstream API base URL from the process environment (apps/web/lib/env.ts). */
module Env {
  import opened Wrappers

  /** Used when no environment variable supplies a usable value. */
  const FallbackApiBaseUrl: string := "http://localhost:1337/api/v1"

  /** The two environment variables the resolution reads, `undefined` being `None`. */
  datatype Environment = Environment(
    publicBaseUrl: Option<string>,   // NEXT_PUBLIC_NIGHTSCOUT_API_BASE_URL
    privateBaseUrl: Option<string>)  // NIGHTSCOUT_API_BASE_URL

  /** The characters `String.prototype.trim` removes: ECMAScript WhiteSpace (tab, vertical
      tab, form feed, the byte order mark and every space separator) and LineTerminator. */
  predicate IsWhitespace(c: char)
  {
    || c == '\t' || c == '\U{000B}' || c == '\U{000C}' || c == ' ' || c == '\U{00A0}'
    || c == '\U{FEFF}' || c == '\U{1680}' || ('\U{2000}' <= c <= '\U{200A}')
    || c == '\U{202F}' || c == '\U{205F}' || c == '\U{3000}'
    || c == '\n' || c == '\r' || c == '\U{2028}' || c == '\U{2029}'
  }

  predicate AllWhitespace(s: string)
  {
    forall i :: 0 <= i < |s| ==> IsWhitespace(s[i])
  }

  /** `s` without its leading whitespace: a suffix of `s`, everything cut off is
      whitespace, and what is left does not start with whitespace. */
  function TrimStart(s: string): (r: string)
    ensures |r| <= |s| && r == s[|s| - |r|..]
    ensures AllWhitespace(s[..|s| - |r|])
    ensures r == [] || !IsWhitespace(r[0])
  {
    if s != [] && IsWhitespace(s[0]) then TrimStart(s[1..]) else s
  }

  /** `s` without its trailing whitespace: a prefix of `s`, everything cut off is
      whitespace, and what is left does not end with whitespace. */
  function TrimEnd(s: string): (r: string)
    ensures |r| <= |s| && r == s[..|r|]
    ensures AllWhitespace(s[|r|..])
    ensures r == [] || !IsWhitespace(r[|r| - 1])
  {
    if s != [] && IsWhitespace(s[|s| - 1]) then TrimEnd(s[..|s| - 1]) else s
  }

  /** `s.trim()`: the part of `s` between its leading and its trailing whitespace. */
  function Trim(s: string): (r: string)
    ensures |r| <= |s|
    ensures r == [] <==> AllWhitespace(s)
    ensures r != [] ==> !IsWhitespace(r[0]) && !IsWhitespace(r[|r| - 1])
    ensures exists i, j :: 0 <= i <= j <= |s| && r == s[i..j] && AllWhitespace(s[..i]) && AllWhitespace(s[j..])
  {
    var t := TrimStart(s);
    var r := TrimEnd(t);
    assert r == [] ==> t == [];
    assert t == [] ==> s[..|s|] == s;
    var i, j := |s| - |t|, |s| - |t| + |r|;
    assert s[..i] == s[..|s| - |t|];
    assert s[j..] == t[|r|..];
    assert r == s[i..j];
    r
  }

  /** `url.replace(/\/$/, "")`: without the `m` flag `$` matches only at the very end,
      so at most one trailing slash is removed. */
  function SanitizeBaseUrl(url: string): (r: string)
    ensures |url| > 0 && url[|url| - 1] == '/' ==> url == r + "/"
    ensures |url| == 0 || url[|url| - 1] != '/' ==> r == url
  {
    if |url| > 0 && url[|url| - 1] == '/' then url[..|url| - 1] else url
  }

  /** The value `public ?? private` selects: the public variable whenever it is defined,
      whatever it holds. */
  function ChosenValue(env: Environment): (v: Option<string>)
    ensures env.publicBaseUrl.Some? ==> v == env.publicBaseUrl
    ensures env.publicBaseUrl.None? ==> v == env.privateBaseUrl
  {
    if env.publicBaseUrl.Some? then env.publicBaseUrl else env.privateBaseUrl
  }

  /** `getApiBaseUrl()`. The emptiness test runs on the trimmed text, the slash is
      stripped afterwards, and the fallback is sanitised too. */
  function GetApiBaseUrl(env: Environment): (r: string)
    ensures ChosenValue(env).None? || AllWhitespace(ChosenValue(env).value) ==> r == FallbackApiBaseUrl
    ensures r == FallbackApiBaseUrl ||
            (ChosenValue(env).Some? && r <= Trim(ChosenValue(env).value) &&
             |Trim(ChosenValue(env).value)| - 1 <= |r|)
  {
    var explicit := ChosenValue(env);
    if explicit.Some? && |Trim(explicit.value)| > 0 then
      SanitizeBaseUrl(Trim(explicit.value))
    else
      SanitizeBaseUrl(FallbackApiBaseUrl)
  }

  // ---------------------------------------------------------------------------
  // Properties of the resolution

  /** At most one slash is removed, and nothing but a final slash. */
  lemma SanitizeRemovesAtMostOneSlash(url: string)
    ensures SanitizeBaseUrl(url) == url || SanitizeBaseUrl(url) + "/" == url
    ensures |url| - 1 <= |SanitizeBaseUrl(url)| <= |url|
    ensures SanitizeBaseUrl(url) <= url
  {
  }

  /** A doubled slash loses only one of its slashes. */
  lemma SanitizeDoubleSlash()
    ensures SanitizeBaseUrl("a//") == "a/"
  {
  }

  /** Sanitising the fallback changes nothing. */
  lemma SanitizeFallbackIsIdentity()
    ensures SanitizeBaseUrl(FallbackApiBaseUrl) == FallbackApiBaseUrl
  {
  }

  /** Once the public variable is defined, the private one is never consulted, even
      when the public one is blank. */
  lemma PublicVariableWins(p: string, q1: Option<string>, q2: Option<string>)
    ensures GetApiBaseUrl(Environment(Some(p), q1)) == GetApiBaseUrl(Environment(Some(p), q2))
    ensures AllWhitespace(p) ==> GetApiBaseUrl(Environment(Some(p), q1)) == FallbackApiBaseUrl
  {
  }

  /** A chosen value with text in it is trimmed and then sanitised. */
  lemma ChosenValueUsed(env: Environment)
    requires ChosenValue(env).Some? && !AllWhitespace(ChosenValue(env).value)
    ensures GetApiBaseUrl(env) == SanitizeBaseUrl(Trim(ChosenValue(env).value))
    ensures |Trim(ChosenValue(env).value)| - 1 <= |GetApiBaseUrl(env)|
    ensures GetApiBaseUrl(env) <= Trim(ChosenValue(env).value)
  {
  }

  /** With no variable defined, or a blank chosen one, the fallback is used verbatim. */
  lemma FallbackUsed(env: Environment)
    requires ChosenValue(env).None? || AllWhitespace(ChosenValue(env).value)
    ensures GetApiBaseUrl(env) == FallbackApiBaseUrl
  {
  }

  /** The result is the fallback exactly when the chosen value is missing or blank, or
      when the chosen value itself trims and sanitises to it. */
  lemma FallbackIff(env: Environment)
    ensures GetApiBaseUrl(env) == FallbackApiBaseUrl <==>
      (ChosenValue(env).None? || AllWhitespace(ChosenValue(env).value) ||
       SanitizeBaseUrl(Trim(ChosenValue(env).value)) == FallbackApiBaseUrl)
  {
  }

  /** The blank test comes before the slash is stripped: a lone slash passes it and
      resolves to the empty base URL. */
  lemma LoneSlashResolvesToEmpty(q: Option<string>)
    ensures GetApiBaseUrl(Environment(Some("/"), q)) == ""
  {
    var v := "/";
    assert !IsWhitespace(v[0]);
    assert TrimStart(v) == v;
    assert TrimEnd(v) == v;
    assert Trim(v) == v;
    assert SanitizeBaseUrl(v) == "";
  }

  /** Trimming comes before the slash is stripped: whitespace in front of a final slash
      survives. */
  lemma SpaceBeforeSlashSurvives(q: Option<string>)
    ensures GetApiBaseUrl(Environment(Some("http://x /"), q)) == "http://x "
  {
    var v := "http://x /";
    assert !IsWhitespace(v[0]) && !IsWhitespace(v[|v| - 1]);
    assert TrimStart(v) == v;
    assert TrimEnd(v) == v;
  }

  /** Trimming twice is trimming once. */
  lemma TrimIdempotent(s: string)
    ensures Trim(Trim(s)) == Trim(s)
  {
  }
}

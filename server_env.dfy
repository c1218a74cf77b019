// `sanitizeEnv`, written out identically in server/routes/send-report.ts and
// server/routes/send-document.ts, and the request-method test both Express routes start with.

module ServerEnv {
  import opened Wrappers
  import opened Text
  import opened Http
  import opened EdgeConfig

  predicate IsQuote(c: char) {
    c == '\'' || c == '"'
  }

  /** 1 when `s` starts with a quote, which `^['"]` removes. */
  function LeadingQuote(s: string): (n: nat)
    ensures n <= |s|
  {
    if |s| > 0 && IsQuote(s[0]) then 1 else 0
  }

  /** 1 when what follows the leading quote ends with a quote, which `['"]$` removes. */
  function TrailingQuote(s: string): (n: nat)
    ensures LeadingQuote(s) + n <= |s|
  {
    if |s| > LeadingQuote(s) && IsQuote(s[|s| - 1]) then 1 else 0
  }

  /**
   * `s.replace(/^['"]|['"]$/g, "")`: the text between an optional leading quote and an optional
   * trailing quote; a lone quote is removed once.
   */
  function StripQuotes(s: string): (r: string)
    ensures |s| - 2 <= |r| <= |s|
    ensures r == s[LeadingQuote(s)..|s| - TrailingQuote(s)]
  {
    var u := if |s| > 0 && IsQuote(s[0]) then s[1..] else s;
    if |u| > 0 && IsQuote(u[|u| - 1]) then u[..|u| - 1] else u
  }

  /** Only quotes are removed, and only at the ends; every character in between is kept in place. */
  lemma StripQuotesRemovesOnlyQuotes(s: string)
    ensures LeadingQuote(s) == 1 ==> IsQuote(s[0])
    ensures TrailingQuote(s) == 1 ==> IsQuote(s[|s| - 1])
    ensures s == s[..LeadingQuote(s)] + StripQuotes(s) + s[|s| - TrailingQuote(s)..]
    ensures s != [] && !IsQuote(s[0]) && !IsQuote(s[|s| - 1]) ==> StripQuotes(s) == s
  {
    var a, b := LeadingQuote(s), TrailingQuote(s);
    assert s == s[..a] + s[a..|s| - b] + s[|s| - b..];
  }

  /** `toLowerCase()` on the letters it can turn into ASCII. */
  function LowerAscii(s: string): (r: string)
    ensures |r| == |s|
    ensures forall i :: 0 <= i < |s| ==> r[i] == LowerChar(s[i])
  {
    seq(|s|, i requires 0 <= i < |s| => LowerChar(s[i]))
  }

  /** The words a misconfigured deployment leaves behind in a variable. */
  predicate Placeholder(t: string) {
    LowerAscii(t) == "undefined" || LowerAscii(t) == "null"
  }

  /** `sanitizeEnv(v)`: `None` is `undefined`. */
  function SanitizeEnv(v: Option<string>): (r: Option<string>)
    ensures r.Some? ==> r.value != "" && !Placeholder(r.value)
    ensures r.Some? ==> v.Some? && r.value == StripQuotes(Trim(v.value))
    ensures r.None? <==> !Truthy(v) || StripQuotes(Trim(v.value)) == "" || Placeholder(StripQuotes(Trim(v.value)))
  {
    if !Truthy(v) then None
    else
      var t := StripQuotes(Trim(v.value));
      if t == "" || Placeholder(t) then None else Some(t)
  }

  /** A value that needs no cleaning comes through as it is. */
  lemma PlainValueKept(x: string)
    requires x != "" && !IsWhitespace(x[0]) && !IsWhitespace(x[|x| - 1])
    requires !IsQuote(x[0]) && !IsQuote(x[|x| - 1]) && !Placeholder(x)
    ensures SanitizeEnv(Some(x)) == Some(x)
  {
    TrimOfTrimmed(x);
  }

  /** One pair of quotes around a value is removed. */
  lemma StripQuotesWrapped(x: string, q: char)
    requires x != "" && !IsQuote(x[|x| - 1]) && IsQuote(q)
    ensures StripQuotes([q] + x + [q]) == x
  {
    var w := [q] + x + [q];
    assert w[1..] == x + [q];
    assert (x + [q])[..|x|] == x;
  }

  /** A value pasted with quotes around it, and spaces outside them, loses both. */
  lemma QuotedValueUnwrapped(x: string, q: char)
    requires x != "" && !IsQuote(x[0]) && !IsQuote(x[|x| - 1]) && !Placeholder(x)
    requires IsQuote(q)
    ensures SanitizeEnv(Some([' '] + [q] + x + [q])) == Some(x)
  {
    var w := [q] + x + [q];
    assert [' '] + [q] + x + [q] == [' '] + w;
    TrimLeadingWhitespace(' ', w);
    TrimOfTrimmed(w);
    StripQuotesWrapped(x, q);
  }

  /** Reserved words come back as unset, whatever their case, and also inside quotes. */
  lemma UndefinedDropped() ensures SanitizeEnv(Some("undefined")).None?
  {
    TrimOfTrimmed("undefined");
  }

  lemma UpperNullDropped() ensures SanitizeEnv(Some("NULL")).None?
  {
    TrimOfTrimmed("NULL");
  }

  lemma QuotedNullDropped() ensures SanitizeEnv(Some("'null'")).None?
  {
    TrimOfTrimmed("'null'");
    assert StripQuotes("'null'") == "null";
  }

  /** `sanitizeEnv(SUPABASE_URL || VITE_SUPABASE_URL)`: here `||` also passes over an empty variable. */
  function ServerStoreUrl(env: Env): Option<string> {
    SanitizeEnv(if Truthy(EnvGet(env, UrlVar)) then EnvGet(env, UrlVar) else EnvGet(env, FallbackUrlVar))
  }

  function ServerServiceKey(env: Env): Option<string> {
    SanitizeEnv(EnvGet(env, KeyVar))
  }

  /** Unlike the edge functions' `??`, an empty `SUPABASE_URL` gives way to the fallback variable. */
  lemma EmptyUrlFallsBack(env: Env)
    requires UrlVar in env && env[UrlVar] == ""
    ensures ServerStoreUrl(env) == SanitizeEnv(EnvGet(env, FallbackUrlVar))
  {
  }

  /** `(req.method || '').toUpperCase() === 'POST'`, compared on ASCII letters. */
  predicate IsPost(verb: Option<string>) {
    LowerAscii(verb.GetOr("")) == "post"
  }

  const MethodNotAllowed := Response(405, JsonError("Método não permitido."))
}

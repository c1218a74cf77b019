// The store settings both document generators read before touching the database
// (supabase/edge_functions/generate-document/index.ts and
// supabase/edge_functions/generate-sindicancia-doc/index.ts, the same two lines in each).

module EdgeConfig {
  import opened Wrappers
  import opened Http

  const UrlVar := "SUPABASE_URL"
  const FallbackUrlVar := "VITE_SUPABASE_URL"
  const KeyVar := "SUPABASE_SERVICE_ROLE_KEY"

  /** `SUPABASE_URL ?? VITE_SUPABASE_URL ?? ''`: `??` only passes over an unset variable. */
  function StoreUrl(env: Env): string {
    match EnvGet(env, UrlVar)
    case Some(u) => u
    case None => EnvGet(env, FallbackUrlVar).GetOr("")
  }

  /** `SUPABASE_SERVICE_ROLE_KEY ?? ''`. */
  function ServiceKey(env: Env): string {
    EnvGet(env, KeyVar).GetOr("")
  }

  /** Both settings are truthy. */
  predicate Configured(env: Env) {
    StoreUrl(env) != "" && ServiceKey(env) != ""
  }

  /**
   * The configuration test in terms of the variables: a non-empty key, and a non-empty
   * `SUPABASE_URL`, or, only when that one is unset, a non-empty fallback.
   */
  lemma ConfiguredIff(env: Env)
    ensures Configured(env) <==>
              && KeyVar in env && env[KeyVar] != ""
              && ((UrlVar in env && env[UrlVar] != "")
                  || (UrlVar !in env && FallbackUrlVar in env && env[FallbackUrlVar] != ""))
  {
  }

  /** A `SUPABASE_URL` set to "" hides the fallback: the settings count as missing. */
  lemma EmptyUrlHidesFallback(env: Env)
    requires UrlVar in env && env[UrlVar] == ""
    ensures !Configured(env)
  {
  }
}

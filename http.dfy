/**
 * What a handler hands back, without the transport: a status code and a body that is
 * an HTML page, plain text, or a JSON object carrying `error` or `message`.
 * Process environments are maps from variable name to value.
 */
module Http {
  import opened Wrappers

  datatype Body =
    | Html(html: string)
    | Text(text: string)
    | JsonError(error: string)
    | JsonMessage(message: string)

  datatype Response = Response(status: int, body: Body)

  type Env = map<string, string>

  /** `process.env[name]` / `Deno.env.get(name)`: absent when the variable is not set. */
  function EnvGet(env: Env, name: string): (r: Option<string>)
    ensures r.Some? <==> name in env
    ensures r.Some? ==> r.value == env[name]
  {
    if name in env then Some(env[name]) else None
  }
}

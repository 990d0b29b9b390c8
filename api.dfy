/** What the two ingestion routes share: the API token and JavaScript truthiness of request fields. */
module Api {
  import opened Wrappers

  /** The fallback of `process.env.API_TOKEN || 'your-secret-token'`. */
  const DefaultApiToken: string := "your-secret-token"

  /** A request field or header as JavaScript tests it: present and not the empty string. */
  predicate Truthy(f: Option<string>)
  {
    f.Some? && f.value != ""
  }

  /** `process.env.API_TOKEN || 'your-secret-token'`: an unset or empty variable falls back. */
  function ConfiguredToken(env: Option<string>): (token: string)
    ensures token != ""
    ensures Truthy(env) ==> token == env.value
    ensures !Truthy(env) ==> token == DefaultApiToken
  {
    if Truthy(env) then env.value else DefaultApiToken
  }

  /** `body.api_token !== API_TOKEN` does not hold: the token is present and identical. */
  predicate TokenMatches(apiToken: string, presented: Option<string>)
  {
    presented == Some(apiToken)
  }

  /** `x || null` */
  function OrNull(f: Option<string>): (r: Option<string>)
    ensures r.Some? <==> Truthy(f)
    ensures Truthy(f) ==> r == f
  {
    if Truthy(f) then f else None
  }
}

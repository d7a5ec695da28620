/** The admin gate (middleware/adminAuth.js): a request carrying the header
    `x-admin-api-key` is let through when the header equals the configured
    secret `ADMIN_API_KEY`; otherwise it is answered with an error and the
    protected handler never runs. */
module AdminGate {
  import opened Common
  import opened Leads

  const MisconfiguredError := "Server misconfiguration: ADMIN_API_KEY not set"
  const UnauthorizedError := "Unauthorized: Invalid API Key"

  /** The gate either calls `next()` or answers with an error status; never both. */
  datatype Decision = Next | Deny(status: nat, error: string)
  {
    /** The JSON reply sent when the gate denies. */
    function Reply(): Response
      requires Deny?
    {
      Response(status, Error(error))
    }
  }

  /** `apiKey` is the request header (None when absent) and `validApiKey`
      the environment variable (None when unset). */
  function AdminAuth(apiKey: Option<string>, validApiKey: Option<string>): (d: Decision)
    // an unset or empty secret answers 500 whatever header is sent
    ensures !Truthy(validApiKey) ==> d == Deny(500, MisconfiguredError)
    // with a secret configured, a missing or empty header answers 401
    ensures Truthy(validApiKey) && !Truthy(apiKey) ==> d == Deny(401, UnauthorizedError)
    // next() is reached exactly when the secret is configured and the header equals it
    ensures d.Next? <==> Truthy(validApiKey) && apiKey == validApiKey
    // the only denials are the two fixed ones, and 401 only with a configured secret
    ensures d.Deny? ==> d == Deny(500, MisconfiguredError) || d == Deny(401, UnauthorizedError)
    ensures d.Deny? && d.status == 401 ==> Truthy(validApiKey)
  {
    if !Truthy(validApiKey) then Deny(500, MisconfiguredError)
    else if Truthy(apiKey) && apiKey == validApiKey then Next
    else Deny(401, UnauthorizedError)
  }
}

/** Login constants (vrchatapi_extensions/constant/constant.py). The cookie file path is not
    modelled: the file is the single slot `Store.World.file`. */
module Constants {
  import opened Wrappers

  /** `AGENT`: the user agent sent when the caller gives none. */
  const Agent := "vrchatapi-extensions/0.0.0 ext@email.com"

  /** `LOGIN_RETRY_LIMIT`: the number of login attempts. */
  const RetryLimit: nat := 3

  /** `LOGIN_RETRY_WAIT`: seconds between two attempts. */
  const RetryWait: nat := 5

  /** `agent or constant.AGENT`: a missing or empty agent falls back to the default. */
  function AgentOrDefault(agent: Option<string>): (a: string)
    ensures agent.Some? && |agent.value| > 0 ==> a == agent.value
    ensures agent.None? || agent.value == "" ==> a == Agent
    ensures |a| > 0
  {
    if agent.Some? && |agent.value| > 0 then agent.value else Agent
  }
}

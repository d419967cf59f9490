/** Fixed configuration values of the server (dist/constants.js). */
module Constants {

  /** Longest tool response, in characters, before truncation. */
  const CharacterLimit: nat := 25000

  /** Requests allowed per rolling window, and the window length in ms. */
  const MaxRequestsPerMinute: nat := 60
  const RateWindowMs: int := 60000

  /** Retry policy: 3 retries (4 attempts), 1000 ms base delay, doubling. */
  const MaxRetries: nat := 3
  const BaseDelayMs: nat := 1000
  const Multiplier: nat := 2

  const DefaultPageSize: nat := 30
  const MaxPageSize: nat := 100

  /** Property types accepted in tool input. */
  const ToolPropertyTypes: seq<string> := [
    "website", "saas", "ecommerce_store", "fba", "ios_app", "android_app",
    "ai_apps_and_tools", "youtube", "newsletter", "service", "other"
  ]

  const ListingStatuses: seq<string> := ["open", "closed", "ended"]

  const SaleMethods: seq<string> := ["auction", "classified"]

  const SortAliases: seq<string> := [
    "lowest_price", "highest_price", "most_active", "most_recent",
    "ending_soonest", "most_profitable", "most_relevant"
  ]

  /** The categories the market overview queries when none is given. */
  const MajorPropertyTypes: seq<string> := [
    "website", "saas", "ecommerce_store", "fba", "ios_app", "android_app",
    "ai_apps_and_tools", "youtube", "newsletter", "service"
  ]

  /** `base * multiplier^attempt`, the backoff before retry number `attempt + 1`. */
  function Backoff(attempt: nat): (d: nat)
    ensures d >= BaseDelayMs
  {
    if attempt == 0 then BaseDelayMs else Multiplier * Backoff(attempt - 1)
  }
}

/** The results-provider interface the settlement cycle talks to, and the
    provider that finds nothing. */
module Providers {
  import opened Entities

  /** What one fixture lookup gives back: the lookup threw, it found nothing
      (`null`), or it found a fixture. */
  datatype Lookup = ProviderError | Absent | Found(fixture: ProviderFixture)

  /** `SettlementProvider`: a name and a fixture lookup by event id. The
      lookup's I/O is folded into the function: the model assumes a lookup
      answers the same way for the same id during one cycle. */
  datatype Provider = Provider(name: string, fetch: string -> Lookup)

  /** `noneProvider`: named "none"; every lookup finds nothing. */
  const NoneProvider: Provider := Provider("none", (eventId: string) => Absent)
}

/**
 * The user's settings as the extension keeps them in sync storage, and the
 * defaults every page applies when reading them: a missing or falsy currency
 * reads as INR, a missing or falsy wage (0 among them) reads as 100.
 */
module Settings {
  import opened Wrappers

  /** The currency every rate is relative to, and the one prices are compared in. */
  const BaseCurrency: string := "INR"

  const DefaultHourlyWage: real := 100.0

  /** The `currency` and `hourlyWage` keys of sync storage; `None` when the key is absent. */
  datatype StoredSettings = StoredSettings(currency: Option<string>, hourlyWage: Option<real>)

  /** `result.currency || 'INR'`: the result is never falsy, and a truthy stored currency is kept. */
  function CurrencyOrDefault(stored: Option<string>): (c: string)
    ensures c != ""
    ensures stored.Some? && stored.value != "" ==> c == stored.value
    ensures stored.None? || stored.value == "" ==> c == BaseCurrency
  {
    if stored.Some? && stored.value != "" then stored.value else BaseCurrency
  }

  /** `result.hourlyWage || 100`: the result is never 0, and a truthy stored wage is kept. */
  function WageOrDefault(stored: Option<real>): (w: real)
    ensures w != 0.0
    ensures stored.Some? && stored.value != 0.0 ==> w == stored.value
    ensures stored.None? || stored.value == 0.0 ==> w == DefaultHourlyWage
  {
    if stored.Some? && stored.value != 0.0 then stored.value else DefaultHourlyWage
  }
}

/**
 * The exchange-rate cache of the content script: the response of the rate API
 * (rates relative to INR) and the time it was fetched, kept in the extension's
 * local storage, refreshed when older than two days, and the lookup of one
 * currency's rate in it.
 *
 * Time and the outcome of the network request are supplied by the caller as an
 * `Env`, one per lookup.
 */
module RateCache {
  import opened Wrappers

  /** Two days in milliseconds: the cache is reused up to this age. */
  const TwoDaysMs: int := 2 * 24 * 60 * 60 * 1000

  /** A rate the lookup hands out: JavaScript treats 0 as missing, so it is never 0. */
  type Rate = r: real | r != 0.0 witness 1.0

  /** The JSON body of the rate API; `conversion_rates` maps currency codes to units per rupee. */
  datatype RatesResponse = RatesResponse(conversionRates: Option<map<string, real>>)

  /** What the single request to the rate API does. */
  datatype FetchOutcome =
    | Fetched(body: RatesResponse)  // `response.ok` and the body parsed
    | HttpError(status: int)        // `response.ok` is false
    | Threw                         // the request or the body parsing threw

  /** The outside world during one lookup: the clock and the network. */
  datatype Env = Env(now: int, fetch: FetchOutcome)

  /** The only exception the lookup can raise: reading `conversion_rates` of an absent table. */
  datatype JsError = TypeError

  /** The two keys of local storage the cache uses; a timestamp is epoch milliseconds. */
  datatype CacheState = CacheState(exchangeRatesData: Option<RatesResponse>, lastUpdateTime: Option<int>)

  /**
   * The cache must be refreshed: the table or the timestamp is missing (a
   * timestamp of 0 is falsy, so it counts as missing), or it is more than two
   * days old.
   */
  predicate IsStale(st: CacheState, now: int): (stale: bool)
    ensures !stale ==> st.exchangeRatesData.Some? && st.lastUpdateTime.Some? && st.lastUpdateTime.value != 0
                       && now - st.lastUpdateTime.value <= TwoDaysMs
    ensures (st.exchangeRatesData.Some? && st.lastUpdateTime.Some? && st.lastUpdateTime.value != 0
             && now - st.lastUpdateTime.value <= TwoDaysMs) ==> !stale
  {
    || st.exchangeRatesData.None?
    || st.lastUpdateTime.None?
    || st.lastUpdateTime.value == 0
    || now - st.lastUpdateTime.value > TwoDaysMs
  }

  /** The storage after one fetch attempt at time `now`. */
  function AfterFetch(st: CacheState, now: int, outcome: FetchOutcome): (r: CacheState)
    ensures outcome.Fetched? ==> r.exchangeRatesData == Some(outcome.body) && r.lastUpdateTime == Some(now)
    ensures !outcome.Fetched? ==> r == st
    ensures st.exchangeRatesData.Some? ==> r.exchangeRatesData.Some?
  {
    if outcome.Fetched? then CacheState(Some(outcome.body), Some(now)) else st
  }

  /** The storage after the refresh step of one lookup. */
  function AfterLookup(st: CacheState, env: Env): (r: CacheState)
    ensures !IsStale(st, env.now) ==> r == st
    ensures st.exchangeRatesData.Some? ==> r.exchangeRatesData.Some?
    ensures r.exchangeRatesData.None? ==> r == st
    ensures r != st ==> env.fetch.Fetched? && r == CacheState(Some(env.fetch.body), Some(env.now))
  {
    if IsStale(st, env.now) then AfterFetch(st, env.now, env.fetch) else st
  }

  /** The rate of `currency` in a response: absent, or 0 (falsy), gives no rate. */
  function RateIn(response: RatesResponse, currency: string): (r: Option<Rate>)
    ensures r.Some? <==>
              response.conversionRates.Some? && currency in response.conversionRates.value
              && response.conversionRates.value[currency] != 0.0
    ensures r.Some? ==> r.value == response.conversionRates.value[currency]
  {
    if response.conversionRates.Some? && currency in response.conversionRates.value
       && response.conversionRates.value[currency] != 0.0
    then Some(response.conversionRates.value[currency])
    else None
  }

  /** Reading the rate once the refresh step is over: throws when no table is stored. */
  function ReadRate(st: CacheState, currency: string): (r: Result<Option<Rate>, JsError>)
    ensures r.Failure? <==> st.exchangeRatesData.None?
    ensures r.Success? ==> r.value == RateIn(st.exchangeRatesData.value, currency)
  {
    if st.exchangeRatesData.None? then Failure(TypeError)
    else Success(RateIn(st.exchangeRatesData.value, currency))
  }

  /** `amount * rate` when there is a rate, null otherwise. */
  function ConvertedAmount(amount: real, rate: Option<Rate>): (r: Option<real>)
    ensures r.Some? <==> rate.Some?
    ensures r.Some? ==> r.value == amount * rate.value
    ensures amount == 1.0 && r.Some? ==> r.value == rate.value
  {
    if rate.Some? then Some(amount * rate.value) else None
  }

  /**
   * What `convertFromINR(amount, currency)` returns once the refresh step has
   * left the storage in `st`: it throws exactly when no table is stored.
   */
  function ConversionIn(st: CacheState, amount: real, currency: string): (r: Result<Option<real>, JsError>)
    ensures r.Failure? <==> st.exchangeRatesData.None?
    ensures r.Success? ==> (r.value.Some? <==> RateIn(st.exchangeRatesData.value, currency).Some?)
    ensures r.Success? && r.value.Some? ==> r.value.value == amount * RateIn(st.exchangeRatesData.value, currency).value
    ensures r.Success? && r.value.Some? && amount == 1.0 ==> r.value.value != 0.0
  {
    var read := ReadRate(st, currency);
    if read.Failure? then Failure(read.error) else Success(ConvertedAmount(amount, read.value))
  }

  /** The cache as the content script sees it through local storage. */
  class RateCache {
    var exchangeRatesData: Option<RatesResponse>
    var lastUpdateTime: Option<int>

    function State(): CacheState
      reads this
    {
      CacheState(exchangeRatesData, lastUpdateTime)
    }

    constructor (data: Option<RatesResponse>, lastUpdate: Option<int>)
      ensures State() == CacheState(data, lastUpdate)
    {
      exchangeRatesData := data;
      lastUpdateTime := lastUpdate;
    }

    /** Calls the rate API once; on success stores the body and the current time, otherwise changes nothing. */
    method FetchExchangeRatesData(now: int, outcome: FetchOutcome)
      modifies this
      ensures outcome.Fetched? ==> exchangeRatesData == Some(outcome.body) && lastUpdateTime == Some(now)
      ensures !outcome.Fetched? ==> exchangeRatesData == old(exchangeRatesData) && lastUpdateTime == old(lastUpdateTime)
      ensures State() == AfterFetch(old(State()), now, outcome)
    {
      match outcome
      case Fetched(body) =>
        exchangeRatesData := Some(body);
        lastUpdateTime := Some(now);
      case HttpError(_) =>
      case Threw =>
    }

    /**
     * Refreshes the cache when it is stale (one fetch attempt, no retry), then
     * reads the rate of `currency`; throws when no table is stored even after
     * the refresh attempt.
     */
    method GetConversionRate(currency: string, env: Env) returns (r: Result<Option<Rate>, JsError>)
      modifies this
      ensures !IsStale(old(State()), env.now) ==> State() == old(State())
      ensures IsStale(old(State()), env.now) ==> State() == AfterFetch(old(State()), env.now, env.fetch)
      ensures r.Failure? <==> exchangeRatesData.None?
      ensures exchangeRatesData.Some? ==> r == Success(RateIn(exchangeRatesData.value, currency))
      ensures State() == AfterLookup(old(State()), env) && r == ReadRate(State(), currency)
    {
      if IsStale(State(), env.now) {
        FetchExchangeRatesData(env.now, env.fetch);
      }
      match exchangeRatesData
      case None =>
        r := Failure(TypeError);
      case Some(response) =>
        r := Success(RateIn(response, currency));
    }

    /** Converts an amount in rupees to `currency`: null when the currency has no rate. */
    method ConvertFromINR(amount: real, currency: string, env: Env) returns (r: Result<Option<real>, JsError>)
      modifies this
      ensures State() == AfterLookup(old(State()), env)
      ensures r == ConversionIn(State(), amount, currency)
    {
      var conversionRate := GetConversionRate(currency, env);
      if conversionRate.Failure? {
        r := Failure(conversionRate.error);
      } else if conversionRate.value.Some? {
        var amountInCurrency := amount * conversionRate.value.value;
        r := Success(Some(amountInCurrency));
        var expected := ConvertedAmount(amount, conversionRate.value);
        assert expected.Some? && expected.value == amountInCurrency;
        assert expected == Some(amountInCurrency);
      } else {
        r := Success(None);
      }
    }
  }

  // ---------------------------------------------------------------- properties

  /** A cache exactly two days old is reused; one millisecond more and it is refreshed. */
  lemma TwoDayBoundary(response: RatesResponse, t: int)
    requires t != 0
    ensures !IsStale(CacheState(Some(response), Some(t)), t + 172800000)
    ensures IsStale(CacheState(Some(response), Some(t)), t + 172800001)
  {
  }

  /** A failed fetch leaves the table and its timestamp as they were, whatever the clock says. */
  lemma FailedFetchKeepsCache(st: CacheState, now: int, outcome: FetchOutcome)
    requires !outcome.Fetched?
    ensures AfterFetch(st, now, outcome) == st
  {
  }

  /** Right after a successful fetch the cache is fresh, and stays fresh for two days. */
  lemma FetchedIsFresh(st: CacheState, now: int, body: RatesResponse, later: int)
    requires now != 0 && now <= later <= now + TwoDaysMs
    ensures !IsStale(AfterFetch(st, now, Fetched(body)), later)
  {
  }

  /** A stored table is never lost: lookups can only replace it by a newer one. */
  lemma LookupKeepsTable(st: CacheState, env: Env, currency: string)
    requires st.exchangeRatesData.Some?
    ensures AfterLookup(st, env).exchangeRatesData.Some?
    ensures ReadRate(AfterLookup(st, env), currency).Success?
  {
  }

  /** The storage after a series of lookups, one `Env` each. */
  function AfterLookups(st: CacheState, envs: seq<Env>): CacheState
    decreases |envs|
  {
    if envs == [] then st else AfterLookups(AfterLookup(st, envs[0]), envs[1..])
  }

  /** Once a table has been stored, no later lookup throws. */
  lemma {:induction false} LoadedStaysLoaded(st: CacheState, envs: seq<Env>, currency: string)
    requires st.exchangeRatesData.Some?
    ensures AfterLookups(st, envs).exchangeRatesData.Some?
    ensures ReadRate(AfterLookups(st, envs), currency).Success?
    decreases |envs|
  {
    if envs != [] {
      LookupKeepsTable(st, envs[0], currency);
      LoadedStaysLoaded(AfterLookup(st, envs[0]), envs[1..], currency);
    }
  }

  /** While the cache is fresh, lookups neither fetch nor change it, and return the stored rate. */
  lemma {:induction false} FreshCacheIsReused(st: CacheState, envs: seq<Env>, currency: string)
    requires st.exchangeRatesData.Some?
    requires forall i :: 0 <= i < |envs| ==> !IsStale(st, envs[i].now)
    ensures AfterLookups(st, envs) == st
    ensures ReadRate(AfterLookups(st, envs), currency) == Success(RateIn(st.exchangeRatesData.value, currency))
    decreases |envs|
  {
    if envs != [] {
      assert !IsStale(st, envs[0].now);
      FreshCacheIsReused(st, envs[1..], currency);
    }
  }
}

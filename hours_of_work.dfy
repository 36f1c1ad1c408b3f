/**
 * The content script's main pass: read the user's wage and bring it to rupees,
 * then, for every price on the page in document order, bring the price to
 * rupees and append "hours of work" = price / wage.
 *
 * The page is given as the sequence of its price elements; the appended
 * annotations are returned as the sequence of their values, before the
 * two-decimal formatting.
 */
module HoursOfWork {
  import opened Wrappers
  import opened JsNumber
  import opened RateCache
  import opened Prices
  import opened Settings

  /** One `.a-price-whole` element with what its parent holds: the symbol and fraction elements, when present. */
  datatype PriceRecord = PriceRecord(symbolText: Option<string>, wholeText: string, fractionText: Option<string>)

  /** What `appendHoursOfWork` has appended, the storage it leaves, and the exception that stopped it, if any. */
  datatype Annotation = Annotation(hours: seq<Number>, cache: CacheState, error: Option<JsError>)

  /** The trimmed symbol text, or the empty text when the element is missing. */
  function SymbolOf(rec: PriceRecord): (symbol: string)
    ensures rec.symbolText.None? ==> symbol == ""
    ensures rec.symbolText.Some? ==> symbol == Trim(rec.symbolText.value)
    ensures symbol == [] || (!IsSpace(symbol[0]) && !IsSpace(symbol[|symbol| - 1]))
  {
    if rec.symbolText.Some? then Trim(rec.symbolText.value) else ""
  }

  function PriceOf(rec: PriceRecord): Number {
    ParsePrice(rec.wholeText, rec.fractionText)
  }

  // ---------------------------------------------------------------- wage

  /**
   * The wage in rupees: a wage in the base currency, or one whose currency has
   * no rate, is kept as it is; otherwise it is divided by the value of one
   * rupee in that currency, so that converting back gives the stored wage.
   */
  function NormalizedWage(wage: real, currency: string, valueOfOneRupee: Option<real>): (w: real)
    requires valueOfOneRupee.Some? ==> valueOfOneRupee.value != 0.0
    ensures wage != 0.0 ==> w != 0.0
    ensures currency == BaseCurrency || valueOfOneRupee.None? ==> w == wage
    ensures currency != BaseCurrency && valueOfOneRupee.Some? ==> w * valueOfOneRupee.value == wage
  {
    if currency != BaseCurrency && valueOfOneRupee.Some? then wage / valueOfOneRupee.value else wage
  }

  /** The storage and the outcome of `getUserSettings` for the stored settings. */
  function UserWage(st: CacheState, stored: StoredSettings, env: Env): (r: (CacheState, Result<real, JsError>))
    ensures r.1.Success? ==> r.1.value != 0.0
    ensures CurrencyOrDefault(stored.currency) == BaseCurrency ==> r == (st, Success(WageOrDefault(stored.hourlyWage)))
    ensures r.1.Failure? <==> CurrencyOrDefault(stored.currency) != BaseCurrency && AfterLookup(st, env).exchangeRatesData.None?
    ensures CurrencyOrDefault(stored.currency) != BaseCurrency ==> r.0 == AfterLookup(st, env)
    ensures var currency := CurrencyOrDefault(stored.currency);
            currency != BaseCurrency && r.1.Success? ==>
              r.1.value == NormalizedWage(WageOrDefault(stored.hourlyWage), currency,
                                          ConvertedAmount(1.0, RateIn(r.0.exchangeRatesData.value, currency)))
  {
    var wage := WageOrDefault(stored.hourlyWage);
    var currency := CurrencyOrDefault(stored.currency);
    if currency == BaseCurrency then (st, Success(wage))
    else
      var st' := AfterLookup(st, env);
      var oneRupee := ConversionIn(st', 1.0, currency);
      if oneRupee.Failure? then (st', Failure(oneRupee.error))
      else (st', Success(NormalizedWage(wage, currency, oneRupee.value)))
  }

  /**
   * Reads the stored settings with their defaults and brings the wage to
   * rupees, looking up the rate (and possibly refreshing the cache) only when
   * the currency is not the base currency.
   */
  method GetUserSettings(stored: StoredSettings, cache: RateCache, env: Env) returns (r: Result<real, JsError>)
    modifies cache
    ensures (cache.State(), r) == UserWage(old(cache.State()), stored, env)
  {
    var hourlyWage := WageOrDefault(stored.hourlyWage);
    var currency := CurrencyOrDefault(stored.currency);
    if currency != BaseCurrency {
      var conversionRate := cache.ConvertFromINR(1.0, currency, env);
      if conversionRate.Failure? {
        return Failure(conversionRate.error);
      }
      if conversionRate.value.Some? {
        hourlyWage := hourlyWage / conversionRate.value.value;
      }
    }
    r := Success(hourlyWage);
  }

  // ---------------------------------------------------------------- prices

  /** A price divided by the value of one rupee in its currency, or left as it is when there is none. */
  function ApplyRate(price: Number, valueOfOneRupee: Option<real>): (r: Number)
    requires valueOfOneRupee.Some? ==> valueOfOneRupee.value != 0.0
    ensures valueOfOneRupee.None? ==> r == price
    ensures r.Num? <==> price.Num?
    ensures valueOfOneRupee.Some? && r.Num? ==> r.v * valueOfOneRupee.value == price.v
  {
    if valueOfOneRupee.Some? then Div(price, valueOfOneRupee.value) else price
  }

  /** The price in rupees a record gets when the table `response` is read without a refresh. */
  function PriceWithTable(response: RatesResponse, rec: PriceRecord): Number {
    var code := ConversionTarget(SymbolOf(rec));
    if code.None? then PriceOf(rec)
    else ApplyRate(PriceOf(rec), ConvertedAmount(1.0, RateIn(response, code.value)))
  }

  /**
   * One price brought to rupees: a lookup (and possibly a refresh) happens
   * only for a mapped symbol other than the rupee sign.
   */
  function PriceInINR(st: CacheState, rec: PriceRecord, env: Env): (r: (CacheState, Result<Number, JsError>))
    ensures ConversionTarget(SymbolOf(rec)).None? ==> r == (st, Success(PriceOf(rec)))
    ensures ConversionTarget(SymbolOf(rec)).Some? ==>
              r.0 == AfterLookup(st, env) && (r.1.Failure? <==> r.0.exchangeRatesData.None?)
    ensures ConversionTarget(SymbolOf(rec)).Some? && r.1.Success? ==>
              r.1.value == PriceWithTable(r.0.exchangeRatesData.value, rec)
  {
    var price := PriceOf(rec);
    var code := ConversionTarget(SymbolOf(rec));
    if code.None? then (st, Success(price))
    else
      var st' := AfterLookup(st, env);
      var oneRupee := ConversionIn(st', 1.0, code.value);
      if oneRupee.Failure? then (st', Failure(oneRupee.error))
      else (st', Success(ApplyRate(price, oneRupee.value)))
  }

  /**
   * The annotation pass over `records`, one `Env` per record: one hours value
   * per record, in order, until a lookup throws; the exception ends the pass.
   */
  function AnnotateAll(st: CacheState, records: seq<PriceRecord>, envs: seq<Env>, wage: real): (a: Annotation)
    requires |envs| == |records| && wage != 0.0
    ensures |a.hours| <= |records|
    ensures a.error.None? <==> |a.hours| == |records|
    decreases |records|
  {
    if records == [] then Annotation([], st, None)
    else
      var step := PriceInINR(st, records[0], envs[0]);
      if step.1.Failure? then Annotation([], step.0, Some(step.1.error))
      else
        var rest := AnnotateAll(step.0, records[1..], envs[1..], wage);
        Annotation([Div(step.1.value, wage)] + rest.hours, rest.cache, rest.error)
  }

  /** `a` with `done` appended in front of its hours. */
  function After(done: seq<Number>, a: Annotation): Annotation {
    Annotation(done + a.hours, a.cache, a.error)
  }

  /** Hours appended in two batches are the hours of both, in order. */
  lemma AfterAfter(done: seq<Number>, more: seq<Number>, a: Annotation)
    ensures After(done, After(more, a)) == After(done + more, a)
  {
    assert done + (more + a.hours) == (done + more) + a.hours;
  }

  /** One turn of the annotation loop: the hours it appends come in front of the rest of the pass. */
  lemma AnnotateStep(st: CacheState, records: seq<PriceRecord>, envs: seq<Env>, wage: real, i: nat)
    requires |envs| == |records| && wage != 0.0 && i < |records|
    ensures var step := PriceInINR(st, records[i], envs[i]);
            AnnotateAll(st, records[i..], envs[i..], wage)
            == if step.1.Failure? then Annotation([], step.0, Some(step.1.error))
               else After([Div(step.1.value, wage)], AnnotateAll(step.0, records[i + 1..], envs[i + 1..], wage))
  {
    assert records[i..][0] == records[i] && envs[i..][0] == envs[i];
    assert records[i..][1..] == records[i + 1..] && envs[i..][1..] == envs[i + 1..];
  }

  /** The body of the loop of `appendHoursOfWork` up to the division by the wage: one price brought to rupees. */
  method PriceInRupees(cache: RateCache, rec: PriceRecord, env: Env) returns (price: Result<Number, JsError>)
    modifies cache
    ensures (cache.State(), price) == PriceInINR(old(cache.State()), rec, env)
  {
    var amount := PriceOf(rec);
    var code := ConversionTarget(SymbolOf(rec));
    if code.Some? {
      var valueOfOneRupee := cache.ConvertFromINR(1.0, code.value, env);
      if valueOfOneRupee.Failure? {
        return Failure(valueOfOneRupee.error);
      }
      if valueOfOneRupee.value.Some? {
        amount := Div(amount, valueOfOneRupee.value.value);
      }
    }
    price := Success(amount);
  }

  /**
   * Appends the hours of work after every price, in document order; a lookup
   * that throws ends the pass, leaving the annotations appended so far.
   */
  method AppendHoursOfWork(cache: RateCache, records: seq<PriceRecord>, hourlyWage: real, envs: seq<Env>)
    returns (hours: seq<Number>, error: Option<JsError>)
    requires |envs| == |records| && hourlyWage != 0.0
    modifies cache
    ensures Annotation(hours, cache.State(), error) == AnnotateAll(old(cache.State()), records, envs, hourlyWage)
  {
    ghost var whole := AnnotateAll(cache.State(), records, envs, hourlyWage);
    assert records[0..] == records && envs[0..] == envs;
    hours := [];
    var i := 0;
    while i < |records|
      invariant 0 <= i <= |records|
      invariant whole == After(hours, AnnotateAll(cache.State(), records[i..], envs[i..], hourlyWage))
    {
      AnnotateStep(cache.State(), records, envs, hourlyWage, i);
      var price := PriceInRupees(cache, records[i], envs[i]);
      if price.Failure? {
        return hours, Some(price.error);
      }
      var spent := Div(price.value, hourlyWage);
      AfterAfter(hours, [spent], AnnotateAll(cache.State(), records[i + 1..], envs[i + 1..], hourlyWage));
      hours := hours + [spent];
      i := i + 1;
    }
    assert records[i..] == [] && envs[i..] == [];
    error := None;
  }

  /** `main`: read the settings, then annotate the page with the wage they give. */
  method AnnotatePage(stored: StoredSettings, cache: RateCache, settingsEnv: Env, records: seq<PriceRecord>, envs: seq<Env>)
    returns (hours: seq<Number>, error: Option<JsError>)
    requires |envs| == |records|
    modifies cache
    ensures var (st, wage) := UserWage(old(cache.State()), stored, settingsEnv);
            if wage.Failure? then hours == [] && error == Some(wage.error) && cache.State() == st
            else Annotation(hours, cache.State(), error) == AnnotateAll(st, records, envs, wage.value)
  {
    var hourlyWage := GetUserSettings(stored, cache, settingsEnv);
    if hourlyWage.Failure? {
      return [], Some(hourlyWage.error);
    }
    hours, error := AppendHoursOfWork(cache, records, hourlyWage.value, envs);
  }

  // ---------------------------------------------------------------- properties

  /** Once a table is stored, the pass never throws: exactly one annotation per price element. */
  lemma {:induction false} AnnotateCompletesOnceLoaded(st: CacheState, records: seq<PriceRecord>, envs: seq<Env>, wage: real)
    requires |envs| == |records| && wage != 0.0
    requires st.exchangeRatesData.Some?
    ensures var a := AnnotateAll(st, records, envs, wage);
            a.error.None? && |a.hours| == |records| && a.cache.exchangeRatesData.Some?
    decreases |records|
  {
    if records != [] {
      var step := PriceInINR(st, records[0], envs[0]);
      LookupKeepsTable(st, envs[0], "");
      assert step.0.exchangeRatesData.Some?;
      assert step.1.Success?;
      AnnotateCompletesOnceLoaded(step.0, records[1..], envs[1..], wage);
    }
  }

  /** With a fresh table, one price is converted without touching the storage. */
  lemma FreshStep(st: CacheState, rec: PriceRecord, env: Env)
    requires st.exchangeRatesData.Some? && !IsStale(st, env.now)
    ensures PriceInINR(st, rec, env) == (st, Success(PriceWithTable(st.exchangeRatesData.value, rec)))
  {
    assert AfterLookup(st, env) == st;
  }

  /**
   * With a table that stays fresh for every lookup of the pass, no fetch
   * happens, the storage is unchanged, and every price is converted with the
   * stored rate of its currency.
   */
  lemma {:induction false} AnnotateWithFreshCache(st: CacheState, records: seq<PriceRecord>, envs: seq<Env>, wage: real)
    requires |envs| == |records| && wage != 0.0
    requires st.exchangeRatesData.Some?
    requires forall i :: 0 <= i < |envs| ==> !IsStale(st, envs[i].now)
    ensures var a := AnnotateAll(st, records, envs, wage);
            && a.error.None? && a.cache == st && |a.hours| == |records|
            && forall i :: 0 <= i < |records| ==> a.hours[i] == Div(PriceWithTable(st.exchangeRatesData.value, records[i]), wage)
    decreases |records|
  {
    if records != [] {
      var table := st.exchangeRatesData.value;
      FreshStep(st, records[0], envs[0]);
      AnnotateStep(st, records, envs, wage, 0);
      assert records[0..] == records && envs[0..] == envs;
      var a := AnnotateAll(st, records, envs, wage);
      var rest := AnnotateAll(st, records[1..], envs[1..], wage);
      assert a == After([Div(PriceWithTable(table, records[0]), wage)], rest);
      forall i | 0 <= i < |envs[1..]| ensures !IsStale(st, envs[1..][i].now) {
        assert envs[1..][i] == envs[i + 1];
      }
      AnnotateWithFreshCache(st, records[1..], envs[1..], wage);
      var hoursOf := r => Div(PriceWithTable(table, r), wage);
      forall i | 0 <= i < |rest.hours| ensures rest.hours[i] == hoursOf(records[i + 1]) {
        assert records[1..][i] == records[i + 1];
      }
      ConsHours(hoursOf(records[0]), rest.hours, records, hoursOf);
    }
  }

  /** The hours of every record, when the first is `first` and the others are those of the tail. */
  lemma ConsHours(first: Number, rest: seq<Number>, records: seq<PriceRecord>, hoursOf: PriceRecord -> Number)
    requires records != [] && |rest| == |records| - 1
    requires first == hoursOf(records[0])
    requires forall i :: 0 <= i < |rest| ==> rest[i] == hoursOf(records[i + 1])
    ensures forall i :: 0 <= i < |records| ==> ([first] + rest)[i] == hoursOf(records[i])
  {
    forall i | 0 <= i < |records| ensures ([first] + rest)[i] == hoursOf(records[i]) {
      if i > 0 {
        assert ([first] + rest)[i] == rest[i - 1];
      }
    }
  }

  /**
   * A price whose symbol is the rupee sign, or is missing from the table, is
   * annotated with its face value over the wage, whatever the cache holds.
   */
  lemma {:induction false} UnconvertedPriceKeepsFaceValue(st: CacheState, records: seq<PriceRecord>, envs: seq<Env>, wage: real, i: nat)
    requires |envs| == |records| && wage != 0.0
    requires i < |AnnotateAll(st, records, envs, wage).hours|
    requires ConversionTarget(SymbolOf(records[i])).None?
    ensures AnnotateAll(st, records, envs, wage).hours[i] == Div(PriceOf(records[i]), wage)
    decreases i
  {
    var step := PriceInINR(st, records[0], envs[0]);
    var a := AnnotateAll(st, records, envs, wage);
    assert step.1.Success?;
    var rest := AnnotateAll(step.0, records[1..], envs[1..], wage);
    assert a.hours == [Div(step.1.value, wage)] + rest.hours;
    if i > 0 {
      assert records[1..][i - 1] == records[i];
      UnconvertedPriceKeepsFaceValue(step.0, records[1..], envs[1..], wage, i - 1);
      assert a.hours[i] == rest.hours[i - 1];
    }
  }

  /** A pass over a single price element that does not throw appends that one price over the wage. */
  lemma SinglePricePass(st: CacheState, rec: PriceRecord, env: Env, wage: real)
    requires wage != 0.0 && PriceInINR(st, rec, env).1.Success?
    ensures var step := PriceInINR(st, rec, env);
            AnnotateAll(st, [rec], [env], wage) == Annotation([Div(step.1.value, wage)], step.0, None)
  {
    AnnotateStep(st, [rec], [env], wage, 0);
    assert [rec][0..] == [rec] && [env][0..] == [env];
    assert [rec][1..] == [] && [env][1..] == [];
  }

  lemma RupeeSymbolRead(rec: PriceRecord)
    requires rec.symbolText == Some(RupeeSymbol)
    ensures SymbolOf(rec) == RupeeSymbol && ConversionTarget(SymbolOf(rec)).None?
  {
    TrimUnpadded(RupeeSymbol);
  }

  /** A "₹" "250" "00" price with a wage of 100 rupees is 2.5 hours of work, without any lookup. */
  lemma RupeePriceExample(st: CacheState, env: Env, rec: PriceRecord)
    requires rec.symbolText == Some("₹") && rec.wholeText == "250" && rec.fractionText == Some("00")
    ensures AnnotateAll(st, [rec], [env], 100.0) == Annotation([Num(2.5)], st, None)
  {
    RupeeSymbolRead(rec);
    assert PriceOf(rec) == Num(250.0) by {
      ParsePriceRoundExample();
    }
    assert PriceInINR(st, rec, env) == (st, Success(Num(250.0)));
    SinglePricePass(st, rec, env, 100.0);
    assert Div(Num(250.0), 100.0) == Num(2.5);
  }
}

/**
 * The options page: it shows the stored settings (with their defaults) in its
 * form, and its Save button stores the chosen currency and wage, refusing a
 * wage that is not a number or is not positive.
 */
module Options {
  import opened Wrappers
  import opened JsNumber
  import opened Settings

  /** What the form shows: the selected currency and the wage field. */
  datatype FormValues = FormValues(currency: string, hourlyWage: real)

  /** The form filled in on load from the stored settings: neither field is ever left falsy. */
  function LoadedForm(stored: StoredSettings): (f: FormValues)
    ensures f.currency != "" && f.hourlyWage != 0.0
    ensures stored.currency.Some? && stored.currency.value != "" ==> f.currency == stored.currency.value
    ensures stored.currency.None? || stored.currency.value == "" ==> f.currency == BaseCurrency
    ensures stored.hourlyWage.Some? && stored.hourlyWage.value != 0.0 ==> f.hourlyWage == stored.hourlyWage.value
    ensures stored.hourlyWage.None? || stored.hourlyWage.value == 0.0 ==> f.hourlyWage == DefaultHourlyWage
  {
    FormValues(CurrencyOrDefault(stored.currency), WageOrDefault(stored.hourlyWage))
  }

  /** The wage a save accepts: the input read by `parseFloat`, when it is a number greater than zero. */
  function ValidatedWage(wageInput: string): (w: Option<real>)
    ensures w.None? <==> ParseFloat(wageInput).NaN? || ParseFloat(wageInput).v <= 0.0
    ensures w.Some? ==> w.value > 0.0 && ParseFloat(wageInput) == Num(w.value)
  {
    var hourlyWage := ParseFloat(wageInput);
    if hourlyWage.NaN? || hourlyWage.v <= 0.0 then None else Some(hourlyWage.v)
  }

  /** The `currency` and `hourlyWage` keys of sync storage, which only this page writes. */
  class SyncStorage {
    var currency: Option<string>
    var hourlyWage: Option<real>

    function Stored(): StoredSettings
      reads this
    {
      StoredSettings(currency, hourlyWage)
    }

    /** Every wage this page has stored is positive. */
    predicate Valid()
      reads this
    {
      hourlyWage.Some? ==> hourlyWage.value > 0.0
    }

    constructor ()
      ensures Valid() && Stored() == StoredSettings(None, None)
    {
      currency := None;
      hourlyWage := None;
    }

    /**
     * The Save handler: an input that is NaN or not positive is refused and
     * storage is left untouched; otherwise exactly the selected currency and
     * the parsed wage are stored.
     */
    method Save(selectedCurrency: string, wageInput: string) returns (saved: bool)
      modifies this
      ensures old(Valid()) ==> Valid()
      ensures saved <==> ValidatedWage(wageInput).Some?
      ensures saved <==> ParseFloat(wageInput).Num? && ParseFloat(wageInput).v > 0.0
      ensures saved ==> Stored() == StoredSettings(Some(selectedCurrency), Some(ParseFloat(wageInput).v))
      ensures !saved ==> Stored() == old(Stored())
    {
      var parsedWage := ParseFloat(wageInput);
      if parsedWage.NaN? || parsedWage.v <= 0.0 {
        return false;
      }
      currency := Some(selectedCurrency);
      hourlyWage := Some(parsedWage.v);
      saved := true;
    }
  }

  // ---------------------------------------------------------------- properties

  /** Saving, then opening the page again, shows what was saved. */
  lemma SaveThenLoad(selectedCurrency: string, wageInput: string)
    requires selectedCurrency != "" && ValidatedWage(wageInput).Some?
    ensures LoadedForm(StoredSettings(Some(selectedCurrency), ValidatedWage(wageInput)))
            == FormValues(selectedCurrency, ValidatedWage(wageInput).value)
  {
  }

  /** A form loaded from storage this page has written shows a positive wage. */
  lemma LoadedWageIsPositive(storage: SyncStorage)
    requires storage.Valid()
    ensures LoadedForm(storage.Stored()).hourlyWage > 0.0
  {
  }

  /** Text with no number in front, the empty text among them, is refused. */
  lemma NaNWageRefused(wageInput: string)
    requires wageInput == [] || (!IsDigit(wageInput[0]) && !IsSpace(wageInput[0])
                                 && wageInput[0] != '.' && wageInput[0] != '-' && wageInput[0] != '+' && wageInput[0] != 'I')
    ensures ValidatedWage(wageInput).None?
  {
    ParseFloatNoDigits(wageInput);
  }

  /** A zero or negative wage is refused. */
  lemma NonPositiveWageRefused(digits: string)
    requires digits != [] && AllDigits(digits)
    ensures ValidatedWage("-" + digits).None?
    ensures DigitsValue(digits) == 0 ==> ValidatedWage(digits).None?
  {
    ParseFloatDigits(digits);
    ParseFloatNegative(digits);
  }

  /** A wage written as plain digits is accepted exactly when it is not zero, and stored as its value. */
  lemma DigitWageAccepted(digits: string)
    requires digits != [] && AllDigits(digits)
    ensures ValidatedWage(digits) == if DigitsValue(digits) == 0 then None else Some(DigitsValue(digits) as real)
  {
    ParseFloatDigits(digits);
  }
}

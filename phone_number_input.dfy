/**
 * The phone input widget: how each event turns the typed text and the selected country into
 * the value reported to `onChange`, and the three pieces of state the widget keeps.
 *
 * The phone-numbering library is outside the model. Its as-you-type formatter (a fresh
 * instance per call, fed the whole text) is the function `format(country, text)`; its parser
 * is `parse(digits, country)`, where `None` stands both for "no number" and for a thrown
 * exception. Both are parameters, so every result holds for any library behaviour.
 */
module PhoneNumberInputView {
  import opened Wrappers
  import opened Utils
  import opened CountrySearch

  /** `new AsYouType(country).input(text)`. */
  type Formatter = (CountryCode, string) -> string

  /** What `parsePhoneNumberFromString` yields: `isValid()` and the E.164 `number`. */
  datatype ParsedNumber = ParsedNumber(valid: bool, number: string)

  /** `parsePhoneNumberFromString(digits, country)`, with a thrown exception folded into `None`. */
  type Parser = (string, CountryCode) -> Option<ParsedNumber>

  const DefaultCountry: CountryCode := "US"

  /** The derived phone data: clamped digits, formatted text, E.164 form and validity. */
  datatype PhoneData = PhoneData(raw: string, display: string, e164: Option<string>, isValid: bool)

  /** The record passed to `onChange`; `None` for `e164` is JavaScript's `null`. */
  datatype PhoneNumberInputValue = PhoneNumberInputValue(
    raw: string, international: string, e164: Option<string>, country: CountryCode, isValid: bool)

  /** The pipeline each event runs: format afresh, clamp, then try to parse the clamped digits. */
  function Derive(format: Formatter, parse: Parser, country: CountryCode, text: string): (d: PhoneData)
    ensures d.display == format(country, text)
    ensures d.raw == ClampDigits(d.display) && OnlyDialChars(d.raw)
    ensures d.e164.Some? <==> d.isValid
    ensures d.isValid <==> parse(d.raw, country).Some? && parse(d.raw, country).value.valid
    ensures d.isValid ==> d.e164.value == parse(d.raw, country).value.number
  {
    var display := format(country, text);
    var clean := ClampDigits(display);
    match parse(clean, country)
    case None => PhoneData(clean, display, None, false)
    case Some(parsed) =>
      PhoneData(clean, display, if parsed.valid then Some(parsed.number) else None, parsed.valid)
  }

  /** The record a handler reports for derived data under `country`. */
  function Report(d: PhoneData, country: CountryCode): PhoneNumberInputValue {
    PhoneNumberInputValue(d.raw, d.display, d.e164, country, d.isValid)
  }

  /** What every reported record satisfies. */
  predicate WellFormed(v: PhoneNumberInputValue) {
    v.raw == ClampDigits(v.international) && OnlyDialChars(v.raw) && (v.e164.Some? <==> v.isValid)
  }

  /**
   * The data derived from a text depend on it only through its formatted form: when the
   * formatter leaves its own output alone, re-deriving from the stored display text gives
   * what was reported for the typed text.
   */
  lemma DeriveThroughDisplay(format: Formatter, parse: Parser, country: CountryCode, text: string)
    requires format(country, format(country, text)) == format(country, text)
    ensures Derive(format, parse, country, format(country, text)) == Derive(format, parse, country, text)
  {
  }

  /** The widget's state: the selected country, whether the picker is open, and the text shown. */
  class PhoneNumberInput {
    var country: CountryCode
    var pickerVisible: bool
    var inputValue: string
    const format: Formatter
    const parse: Parser

    /** Initial state from the props `defaultCountry` (default "US") and `value` (default ""). */
    constructor (defaultCountry: Option<CountryCode>, value: Option<string>, format: Formatter, parse: Parser)
      ensures country == defaultCountry.GetOr(DefaultCountry)
      ensures !pickerVisible
      ensures inputValue == value.GetOr("")
      ensures this.format == format && this.parse == parse
    {
      country := defaultCountry.GetOr(DefaultCountry);
      pickerVisible := false;
      inputValue := value.GetOr("");
      this.format := format;
      this.parse := parse;
    }

    /**
     * `phoneData`: the data behind the status line and the border colour, re-derived from
     * the state on every render.
     */
    function Current(): PhoneData
      reads this
    {
      Derive(format, parse, country, inputValue)
    }

    /** The text field changed: keep the formatted text and report it under the current country. */
    method HandleChangeText(text: string) returns (v: PhoneNumberInputValue)
      modifies this`inputValue
      ensures inputValue == format(country, text)
      ensures v == Report(Derive(format, parse, country, text), country)
      ensures v.country == country && v.international == inputValue && WellFormed(v)
      ensures format(country, inputValue) == inputValue ==> Report(Current(), country) == v
    {
      if format(country, format(country, text)) == format(country, text) {
        DeriveThroughDisplay(format, parse, country, text);
      }
      var d := Derive(format, parse, country, text);
      inputValue := d.display;
      v := Report(d, country);
    }

    /** Opens the picker, unless the props forbid it (`allowCountryPicker` false or `disabled`). */
    method OpenPicker(allowCountryPicker: bool, disabled: bool)
      modifies this`pickerVisible
      ensures allowCountryPicker && !disabled ==> pickerVisible
      ensures !allowCountryPicker || disabled ==> pickerVisible == old(pickerVisible)
    {
      if !allowCountryPicker || disabled {
        return;
      }
      pickerVisible := true;
    }

    method ClosePicker()
      modifies this`pickerVisible
      ensures !pickerVisible
    {
      pickerVisible := false;
    }

    /**
     * A country was chosen: select it, hide the picker, re-format the text currently shown
     * under the new country, keep that, and report it with the new country.
     */
    method OnSelectCountry(code: CountryCode) returns (v: PhoneNumberInputValue)
      modifies this`country, this`pickerVisible, this`inputValue
      ensures country == code && !pickerVisible
      ensures inputValue == format(code, old(inputValue))
      ensures v == Report(Derive(format, parse, code, old(inputValue)), code)
      ensures v.country == code && v.international == inputValue && WellFormed(v)
      ensures format(code, inputValue) == inputValue ==> Report(Current(), code) == v
    {
      var shown := inputValue;
      if format(code, format(code, shown)) == format(code, shown) {
        DeriveThroughDisplay(format, parse, code, shown);
      }
      country := code;
      pickerVisible := false;
      var d := Derive(format, parse, code, shown);
      inputValue := d.display;
      v := Report(d, code);
    }

    /** The `value` prop changed: adopt it when it is given and differs from the text shown. */
    method SyncValue(value: Option<string>) returns (replaced: bool)
      modifies this`inputValue
      ensures replaced <==> value.Some? && value.value != old(inputValue)
      ensures inputValue == value.GetOr(old(inputValue))
    {
      replaced := value.Some? && value.value != inputValue;
      if replaced {
        inputValue := value.value;
      }
    }
  }

  /**
   * Typing into a fresh widget and then choosing another country reports the second
   * country's formatting of the first country's formatted text (not of the typed digits).
   */
  method TypeThenSelectCountry(format: Formatter, parse: Parser, text: string, code: CountryCode)
    returns (typed: PhoneNumberInputValue, selected: PhoneNumberInputValue)
    ensures typed == Report(Derive(format, parse, DefaultCountry, text), DefaultCountry)
    ensures selected == Report(Derive(format, parse, code, format(DefaultCountry, text)), code)
    ensures selected.raw == ClampDigits(format(code, typed.international))
  {
    var widget := new PhoneNumberInput(None, None, format, parse);
    widget.OpenPicker(true, false);
    typed := widget.HandleChangeText(text);
    selected := widget.OnSelectCountry(code);
    assert !widget.pickerVisible && widget.country == code;
  }
}

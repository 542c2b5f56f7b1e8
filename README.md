# expo-phone-number-input, modelled in Dafny

A model of the logic inside a themeable phone-number input widget for React Native / Expo.
The widget formats the number as it is typed, strips it to dial characters, validates it
with a phone-numbering library, and lets the user pick the country from a searchable list.

Modules:

- `Sequences` (`sequences.dfy`): an order-preserving `Filter` and the facts about it, shared
  by the digit clamp and the country search.
- `Utils` (`utils.dfy`): `clampDigits`, the character filter that keeps `0`-`9` and `+`;
  `isoToEmojiFlag`, which turns a two-letter country code into a pair of Regional Indicator
  Symbols. Unicode Technical Standard #51, definition ED-14, calls such a pair an emoji flag
  sequence. The flag is modelled as its list of code points, and its inverse `FlagLetters`
  reads the letters back.
- `CountrySearch` (`country_search.dfy`): `getDialCode` (first match by code, or `""`) and the
  picker's search. The search trims the query the way `String.prototype.trim` does, using
  the full ECMAScript whitespace set. It lower-cases the query, then keeps, in order, the
  countries whose lower-cased name or code, or whose calling code, contains the query.
- `PhoneNumberInputView` (`phone_number_input.dfy`): the derivation pipeline `Derive`. It
  formats the text with a fresh formatter, clamps the result to `raw`, parses `raw`, and
  fills `e164` only when the number is valid. The file also holds the class
  `PhoneNumberInput` with the widget's three state fields (`country`, `pickerVisible`,
  `inputValue`) and one method per event handler. Each handler returns the record the
  widget would pass to `onChange`.
- `Wrappers` (`wrappers.dfy`): `Option`, for JavaScript's `undefined`/`null`.

The phone-numbering library is not modelled. Its as-you-type formatter and its parser are
parameters of type `Formatter` and `Parser`, and a parse that throws is `None`. Every
property below therefore holds for any behaviour of the library. The country table is a
parameter too.

Two behaviours of the code are worth stating plainly:

- `raw` keeps every `+`, interior and repeated ones too (`PlusSignsSurvive`); the clamp does
  not reduce it to one optional leading `+`.
- Choosing a country re-formats the text currently shown (`inputValue`), not the bare digits
  (`OnSelectCountry`, `TypeThenSelectCountry`). That text is the last formatting after typing
  or choosing a country, or the `value` prop as given (the initial state and the value-prop
  sync store it unformatted).

The type comment at src/ExpoPhoneNumberInput.types.ts:6 calls `raw` "what the user typed
(digits and separators)", but the handlers store the clamped digits there, and the model does
the same.

## Model

| member | source | states |
|---|---|---|
| `Utils.ClampDigits` | src/utils.ts:12 | the result holds only `0`-`9` and `+` and is no longer than the input |
| `Utils.ClampKeepsDialChars` | src/utils.ts:12 | every digit and `+` is kept as often as it occurs, and every other character is dropped (so the length is the number of dial characters) |
| `Utils.ClampIsSubsequence` | src/utils.ts:12 | the result is a subsequence of the input, so the original order is kept |
| `Utils.ClampFixedPoints` | src/utils.ts:12 | a string is unchanged by the clamp exactly when it holds only digits and `+` |
| `Utils.ClampIdempotent` | src/utils.ts:12 | clamping twice is the same as clamping once |
| `Utils.ClampDistributes` | src/utils.ts:12 | clamping a concatenation is the concatenation of the clamps |
| `Utils.PlusSignsSurvive` | src/utils.ts:12 | `+` is not normalised: `"1+2"` and `"++64"` come back unchanged |
| `Utils.IsoToEmojiFlag` | src/utils.ts:3-10 | an input that is not two long gives the white-flag fallback U+1F3F3 U+FE0F; a two-character input gives two code points, each 127397 plus the upper-cased character; two letters give a flag sequence whose symbols are U+1F1E6 plus each letter's alphabet position |
| `Utils.FlagLetters` | src/utils.ts:5-9 | the inverse reading: a pair of Regional Indicator Symbols decodes to two upper-case letters, and anything else decodes to nothing |
| `Utils.FlagRoundTrip` | src/utils.ts:5-9 | the flag of a two-letter code decodes to the code in upper case |
| `Utils.FlagFromLetters` | src/utils.ts:5-9 | every emoji flag sequence is the flag of the letters it decodes to |
| `Utils.FallbackIsNoFlag` | src/utils.ts:4 | the fallback glyph is never a flag sequence |
| `Utils.FlagIgnoresCase` | src/utils.ts:6 | codes equal up to ASCII case get the same glyph |
| `Utils.FlagInjective` | src/utils.ts:5-9 | different two-letter codes (ignoring case) get different flags |
| `Utils.NewZealandFlag` | src/utils.ts:3-10 | `"nz"` and `"NZ"` both give U+1F1F3 U+1F1FF |
| `CountrySearch.FindByCode` | src/ExpoPhoneNumberInputView.tsx:228 | the index of the first country with the given code, or nothing when no country has it |
| `CountrySearch.GetDialCode` | src/ExpoPhoneNumberInputView.tsx:227-230 | the calling code of the first country whose code matches, and `""` when none matches |
| `CountrySearch.TrimStart` | src/ExpoPhoneNumberInputView.tsx:264-265 | the longest suffix that does not start with whitespace, with only whitespace removed before it |
| `CountrySearch.TrimEnd` | src/ExpoPhoneNumberInputView.tsx:264-265 | the longest prefix that does not end with whitespace, with only whitespace removed after it |
| `CountrySearch.Trim` | src/ExpoPhoneNumberInputView.tsx:264-265 | the result is a contiguous middle of the query with only whitespace removed before and after it; it is empty exactly when the query is all whitespace, and otherwise starts and ends with non-whitespace |
| `CountrySearch.IncludesOccurs` | src/ExpoPhoneNumberInputView.tsx:267-269 | `includes` holds exactly when the query occurs at some position of the searched string |
| `CountrySearch.FilteredCountries` | src/ExpoPhoneNumberInputView.tsx:263-271 | a blank or whitespace-only query returns the country list unchanged; the result is never longer than the list |
| `CountrySearch.SearchKeepsOrder` | src/ExpoPhoneNumberInputView.tsx:266-270 | the result is a subsequence of the list, in the list's order |
| `CountrySearch.SearchSelects` | src/ExpoPhoneNumberInputView.tsx:265-270 | for a non-blank query, a country is listed exactly when it is in the table and its lower-cased name, its lower-cased code or its calling code contains the trimmed, lower-cased query; it is listed as often as it occurs in the table |
| `CountrySearch.TrimIgnoresPadding` | src/ExpoPhoneNumberInputView.tsx:264-265 | whitespace added around a string does not change its trimmed form |
| `CountrySearch.SearchIgnoresPadding` | src/ExpoPhoneNumberInputView.tsx:264-265 | whitespace added around the query does not change the list |
| `CountrySearch.SearchIgnoresCase` | src/ExpoPhoneNumberInputView.tsx:264-269 | queries that differ only in letter case give the same list |
| `PhoneNumberInputView.Derive` | src/ExpoPhoneNumberInputView.tsx:52-76 | the display is the formatter's output for (country, text), and `raw` is its clamp; `e164` is present exactly when the number is valid; the number is valid exactly when the parse returns a number that reports itself valid, and then `e164` is that number's E.164 form; a failed or thrown parse gives an invalid number with no `e164` |
| `PhoneNumberInputView.DeriveThroughDisplay` | src/ExpoPhoneNumberInputView.tsx:52-85 | when the formatter leaves its own output alone, re-deriving from the stored display text (the status line) gives the data reported for the typed text |
| `PhoneNumberInputView.PhoneNumberInput.constructor` | src/ExpoPhoneNumberInputView.tsx:36-38 | the initial country is `defaultCountry` or `"US"`, the picker is hidden, and the text is the `value` prop or `""` |
| `PhoneNumberInputView.PhoneNumberInput.HandleChangeText` | src/ExpoPhoneNumberInputView.tsx:78-113 | the shown text becomes the formatting of the typed text under the current country; the reported record is derived from the typed text under that country and carries that country; country and picker are unchanged; when the formatter leaves the stored text alone, the widget's re-derived `phoneData` (`Current`, behind the status line) equals the reported record |
| `PhoneNumberInputView.PhoneNumberInput.OpenPicker` | src/ExpoPhoneNumberInputView.tsx:115-118 | the picker opens when the country picker is allowed and the widget is not disabled; otherwise nothing changes |
| `PhoneNumberInputView.PhoneNumberInput.ClosePicker` | src/ExpoPhoneNumberInputView.tsx:120 | the picker is hidden, whatever the state |
| `PhoneNumberInputView.PhoneNumberInput.OnSelectCountry` | src/ExpoPhoneNumberInputView.tsx:122-158 | the country becomes the chosen code and the picker is hidden; the shown text is re-derived under the new code and stored as its display; the reported record carries the new code; when the formatter leaves the stored text alone, the re-derived `phoneData` (`Current`) equals the reported record |
| `PhoneNumberInputView.PhoneNumberInput.SyncValue` | src/ExpoPhoneNumberInputView.tsx:42-46 | the shown text is replaced only when `value` is given and differs from it; otherwise nothing changes |
| `PhoneNumberInputView.TypeThenSelectCountry` | src/ExpoPhoneNumberInputView.tsx:78-158 | typing and then choosing a country reports the new country's formatting of the old country's formatted text, and `raw` is the clamp of that |

## Left out

- The phone-numbering library (as-you-type formatting, parsing, `isValid`, the E.164 `number`) is foreign code. It enters only as the `format` and `parse` parameters. Nothing is claimed about punctuation, about formatting being idempotent, or about the shape of E.164 numbers.
- The country table (`getAllCountries`) is not part of this model. It is a parameter `seq<Country>`.
- IsoToEmojiFlag: requires an ASCII code. JavaScript counts `length` in UTF-16 code units, non-ASCII `toUpperCase` can change the length, and `fromCodePoint` throws above U+10FFFF; none of this is modelled. An absent (`undefined`) code is outside the TypeScript type.
- FilteredCountries: `toLowerCase` is modelled for the ASCII letters only. A name with non-ASCII capitals (`Å`, `É`) is compared without lower-casing those capitals.
- OpenPicker: the props `allowCountryPicker` (default true) and `disabled` (absent is false) are passed in already resolved for the current render.
- The `onChange` callback is optional. The handlers return the record instead of calling it.
- Rendering, layout, colours and the status line's text (lines 160-222), the modal and list presentation, and list row geometry are display-only and not modelled.
- React scheduling is not modelled: memoisation, when effects run, batching of `setState`, and the `requestAnimationFrame` refocus at line 157. The value-sync effect is `SyncValue`, called whenever the `value` prop changes.
